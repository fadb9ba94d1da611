/** Pattern matching of changed filenames against the configured `include`
    and `exclude` lists. A pattern that starts and ends with `/` is a
    regular expression whose body lies between the slashes; any other
    pattern is matched as a substring. */
module Patterns {
  import opened Js

  /** The regular-expression engine: `re(body, filename)` holds when
      `filename.match(body)` finds a match. Its semantics belong to the
      JavaScript runtime and are not modelled; every statement below holds
      for every such engine. */
  type RegexEngine = (string, string) -> bool

  const Slash: string := "/"

  /** `isRegexp`: the pattern starts with `/` and ends with `/`. There is no
      length check, so `"/"` alone counts as a regular expression. */
  function IsRegexp(pattern: string): (r: bool)
    ensures r <==> |pattern| >= 1 && pattern[0] == '/' && pattern[|pattern| - 1] == '/'
  {
    StartsWith(pattern, Slash) && EndsWith(pattern, Slash)
  }

  /** `pattern.substr(1, pattern.length - 2)`: the text between the delimiters. */
  function Body(pattern: string): (r: string)
    ensures |pattern| >= 2 ==> r == pattern[1..|pattern| - 1]
    ensures |pattern| <= 2 ==> r == ""
  {
    Substr(pattern, 1, |pattern| - 2)
  }

  /** One pattern of the `some` callback in `matches`. */
  function PatternMatches(re: RegexEngine, filename: string, pattern: string): (r: bool)
    ensures IsRegexp(pattern) ==> (r <==> re(Body(pattern), filename))
    ensures !IsRegexp(pattern) ==> (r <==> exists i :: OccursAt(pattern, filename, i))
  {
    if IsRegexp(pattern) then re(Body(pattern), filename)
    else Includes(filename, pattern)
  }

  /** `matches(filename, patterns)`: some pattern of the list matches. */
  function Matches(re: RegexEngine, filename: string, patterns: seq<string>): (r: bool)
    ensures r <==> exists i :: 0 <= i < |patterns| && PatternMatches(re, filename, patterns[i])
  {
    ArraySome(patterns, p => PatternMatches(re, filename, p))
  }

  /** The empty list matches no filename. */
  lemma NothingMatchesEmptyList(re: RegexEngine, filename: string)
    ensures !Matches(re, filename, [])
  {
  }

  /** Stripping the delimiters of a regular-expression pattern of at least
      two characters and putting them back gives the pattern again. */
  lemma StripThenDelimit(pattern: string)
    requires IsRegexp(pattern) && |pattern| >= 2
    ensures Slash + Body(pattern) + Slash == pattern
  {
  }

  /** Every body written between slashes reads back as a regular expression
      with that body. */
  lemma DelimitThenStrip(body: string)
    ensures IsRegexp(Slash + body + Slash)
    ensures Body(Slash + body + Slash) == body
  {
  }

  /** The one-character pattern `"/"` is a regular expression with an empty
      body, so it matches exactly the filenames the empty regular expression
      matches (in JavaScript: every filename). */
  lemma SlashAloneIsEmptyRegexp(re: RegexEngine, filename: string)
    ensures IsRegexp(Slash) && Body(Slash) == ""
    ensures Matches(re, filename, [Slash]) <==> re("", filename)
  {
  }

  /** The empty literal pattern occurs in, and so matches, every filename. */
  lemma EmptyLiteralMatchesAll(re: RegexEngine, filename: string)
    ensures Matches(re, filename, [""])
  {
  }
}
