/** The JavaScript built-ins the changelog check relies on, modelled on
    plain values: `undefined`-or-value, thrown exceptions, `Array.prototype.some`,
    the string methods `startsWith`, `endsWith`, `substr`, `includes` and an
    ASCII `toLowerCase`, and the `x || default` idiom on optional strings. */
module Js {

  /** A value that may be `undefined`. */
  datatype Option<T> = None | Some(value: T)

  /** The outcome of a call that may throw. */
  datatype Result<T> = Ok(value: T) | Throws(error: string)

  /** `xs.some(p)`: true when some element satisfies `p`; the scan runs left
      to right and stops at the first hit. */
  function ArraySome<T>(xs: seq<T>, p: T -> bool): (r: bool)
    ensures r <==> exists i :: 0 <= i < |xs| && p(xs[i])
  {
    if |xs| == 0 then false
    else if p(xs[0]) then true
    else
      assert forall i :: 1 <= i < |xs| ==> xs[1..][i - 1] == xs[i];
      ArraySome(xs[1..], p)
  }

  /** `s.startsWith(prefix)`: the first characters of `s` are those of `prefix`. */
  function StartsWith(s: string, prefix: string): (r: bool)
    ensures r <==> |prefix| <= |s| && forall i :: 0 <= i < |prefix| ==> s[i] == prefix[i]
  {
    |prefix| <= |s| && s[..|prefix|] == prefix
  }

  /** `s.endsWith(suffix)`: the last characters of `s` are those of `suffix`. */
  function EndsWith(s: string, suffix: string): (r: bool)
    ensures r <==> |suffix| <= |s| && forall i :: 0 <= i < |suffix| ==> s[|s| - |suffix| + i] == suffix[i]
  {
    |suffix| <= |s| && s[|s| - |suffix|..] == suffix
  }

  /** `s.substr(start, length)` for a non-negative start: a negative or zero
      length, or a start past the end, gives the empty string, and a length
      running past the end is cut at the end. */
  function Substr(s: string, start: nat, length: int): (r: string)
    ensures |r| <= |s|
    ensures start + length <= |s| && 0 <= length ==> r == s[start..start + length]
    ensures start < |s| < start + length ==> r == s[start..]
    ensures length <= 0 || |s| <= start ==> r == ""
  {
    if |s| <= start || length <= 0 then ""
    else if start + length <= |s| then s[start..start + length]
    else s[start..]
  }

  /** `sub` occurs in `s` at position `i`. */
  predicate OccursAt(sub: string, s: string, i: int)
  {
    0 <= i && i + |sub| <= |s| && s[i..i + |sub|] == sub
  }

  /** `s.includes(sub)`: `sub` occurs somewhere in `s`; the empty string
      occurs in every string. */
  function Includes(s: string, sub: string): (r: bool)
    ensures r <==> exists i :: OccursAt(sub, s, i)
    decreases |s|
  {
    if StartsWith(s, sub) then
      assert OccursAt(sub, s, 0);
      true
    else if |s| == 0 then
      false
    else
      var r := Includes(s[1..], sub);
      assert forall i :: OccursAt(sub, s[1..], i) <==> OccursAt(sub, s, i + 1) by {
        forall i ensures OccursAt(sub, s[1..], i) <==> OccursAt(sub, s, i + 1) {
          if 0 <= i && i + |sub| <= |s[1..]| {
            assert s[1..][i..i + |sub|] == s[i + 1..i + 1 + |sub|];
          }
        }
      }
      assert !OccursAt(sub, s, 0);
      assert forall i :: OccursAt(sub, s, i) ==> OccursAt(sub, s[1..], i - 1);
      r
  }

  /** `c.toLowerCase()` on the ASCII letters; every other character is kept. */
  function LowerChar(c: char): char
  {
    if 'A' <= c <= 'Z' then (c as int + 32) as char else c
  }

  /** `s.toLowerCase()`, character by character. */
  function ToLowerCase(s: string): (r: string)
    ensures |r| == |s|
    ensures forall i :: 0 <= i < |s| ==> r[i] == LowerChar(s[i])
  {
    seq(|s|, i requires 0 <= i < |s| => LowerChar(s[i]))
  }

  /** `x || fallback` for a string setting: `undefined` and the empty
      string (both falsy) give the fallback. */
  function StringOr(x: Option<string>, fallback: string): (r: string)
    ensures x.Some? && x.value != "" ==> r == x.value
    ensures x.None? || x.value == "" ==> r == fallback
  {
    if x.Some? && x.value != "" then x.value else fallback
  }

  /** `xs || []` for a list setting: an array, even an empty one, is truthy,
      so only `undefined` gives the empty list. */
  function ListOrEmpty<T>(xs: Option<seq<T>>): (r: seq<T>)
    ensures xs.Some? ==> r == xs.value
    ensures xs.None? ==> r == []
  {
    if xs.Some? then xs.value else []
  }
}
