/** The skip label: a pull request that carries the configured label (by
    default `skip-changelog`), compared without regard to case, is reported
    as `Success` without looking at its files. The label names are the
    result of the label lookup, passed in as a list. */
module Labels {
  import opened Js
  import opened Changelog

  const DefaultSkipLabel: string := "skip-changelog"

  /** `hasLabel(context, label)` over the fetched label names, with `wanted`
      for `label`. An empty label returns early with `undefined`; otherwise
      the answer is whether some name equals the label once both are
      lower-cased. */
  function HasLabel(wanted: string, names: seq<string>): (r: Option<bool>)
    ensures r.None? <==> wanted == ""
    ensures r.Some? ==>
      (r.value <==> exists i :: 0 <= i < |names| && ToLowerCase(names[i]) == ToLowerCase(wanted))
  {
    if wanted == "" then None
    else
      var l := ToLowerCase(wanted);
      Some(ArraySome(names, (name: string) => ToLowerCase(name) == l))
  }

  /** `config.skipLabel || 'skip-changelog'`. */
  function SkipLabel(config: Config): (skip: string)
    ensures skip != ""
    ensures config.skipLabel.Some? && config.skipLabel.value != "" ==> skip == config.skipLabel.value
    ensures config.skipLabel.None? || config.skipLabel.value == "" ==> skip == DefaultSkipLabel
  {
    StringOr(config.skipLabel, DefaultSkipLabel)
  }

  /** `skipChangelog(context, config)`. Because the skip label always has a
      value, the early `undefined` of `hasLabel` is never reached from here:
      the answer is always a boolean, true exactly when the pull request
      carries the skip label up to case. */
  function SkipChangelog(config: Config, names: seq<string>): (r: Option<bool>)
    ensures r.Some?
    ensures r.value <==> exists i :: 0 <= i < |names| && ToLowerCase(names[i]) == ToLowerCase(SkipLabel(config))
  {
    HasLabel(SkipLabel(config), names)
  }

  /** Label names that agree up to case, and configured skip labels that
      agree up to case, give the same answer to the skip check. */
  lemma SkipIgnoresCase(config: Config, config': Config, names: seq<string>, names': seq<string>)
    requires ToLowerCase(SkipLabel(config)) == ToLowerCase(SkipLabel(config'))
    requires |names| == |names'|
    requires forall i :: 0 <= i < |names| ==> ToLowerCase(names[i]) == ToLowerCase(names'[i])
    ensures SkipChangelog(config, names) == SkipChangelog(config', names')
  {
  }
}
