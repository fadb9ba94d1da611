/** The changelog compliance decision: given the configuration and the map
    of a pull request's changed files, decide whether the changelog entry is
    included, missing, or could not be detected. */
module Changelog {
  import opened Js
  import opened Patterns

  /** The three commit-status values the check publishes. */
  datatype Status = Fail | Success | Progress

  /** One changed file of a pull request, as the listing reports it:
      its path and its change kind (`added`, `modified`, `removed`, ...). */
  datatype File = File(filename: string, status: string)

  /** The `changelog.yml` settings the decision reads; every one of them may
      be unset. */
  datatype Config = Config(
    filename: Option<string>,
    includes: Option<seq<string>>,
    excludes: Option<seq<string>>,
    skipLabel: Option<string>)

  /** Changed files keyed by filename. */
  type Changes = map<string, File>

  const DefaultChangelog: string := "CHANGELOG.md"

  /** The change kinds that count as a changelog entry. */
  const AllowedStatuses: seq<string> := ["modified", "added"]

  /** `config.filename || 'CHANGELOG.md'`: the key the changelog is looked up by. */
  function ChangelogKey(config: Config): (key: string)
    ensures key != ""
    ensures config.filename.Some? && config.filename.value != "" ==> key == config.filename.value
    ensures config.filename.None? || config.filename.value == "" ==> key == DefaultChangelog
  {
    StringOr(config.filename, DefaultChangelog)
  }

  /** `config.include || []` */
  function IncludeList(config: Config): (r: seq<string>)
    ensures config.includes.Some? ==> r == config.includes.value
    ensures config.includes.None? ==> r == []
  {
    ListOrEmpty(config.includes)
  }

  /** `config.exclude || []` */
  function ExcludeList(config: Config): (r: seq<string>)
    ensures config.excludes.Some? ==> r == config.excludes.value
    ensures config.excludes.None? ==> r == []
  {
    ListOrEmpty(config.excludes)
  }

  /** A file is in scope when it matches some include pattern and no exclude
      pattern: the file survives both filters of `changelogStatus`. */
  function InScope(re: RegexEngine, file: File, includes: seq<string>, excludes: seq<string>): (r: bool)
    ensures r <==>
      (exists i :: 0 <= i < |includes| && PatternMatches(re, file.filename, includes[i])) &&
      (forall j :: 0 <= j < |excludes| ==> !PatternMatches(re, file.filename, excludes[j]))
  {
    Matches(re, file.filename, includes) && !Matches(re, file.filename, excludes)
  }

  /** `changed`: the values of `changes`, filtered by the include list, then
      by the negated exclude list, and tested for being non-empty. */
  function Changed(re: RegexEngine, changes: Changes, includes: seq<string>, excludes: seq<string>): (r: bool)
    ensures r <==> exists name :: name in changes && InScope(re, changes[name], includes, excludes)
  {
    var included := set file | file in changes.Values && Matches(re, file.filename, includes);
    var kept := set file | file in included && !Matches(re, file.filename, excludes);
    if kept != {} then
      var file :| file in kept;
      assert exists name :: name in changes && changes[name] == file;
      true
    else
      assert forall name :: name in changes ==> !InScope(re, changes[name], includes, excludes) by {
        forall name | name in changes ensures !InScope(re, changes[name], includes, excludes) {
          var file := changes[name];
          assert file in changes.Values;
          assert InScope(re, file, includes, excludes) ==> file in kept;
        }
      }
      false
  }

  /** `changelogStatus(config, changes)`. */
  function ChangelogStatus(re: RegexEngine, config: Config, changes: Changes): (r: Status)
    ensures ChangelogKey(config) in changes ==>
      r != Progress &&
      (r == Success <==> changes[ChangelogKey(config)].status in {"modified", "added"})
    ensures ChangelogKey(config) !in changes ==>
      r != Fail &&
      (r == Progress <==> exists name :: name in changes && InScope(re, changes[name], IncludeList(config), ExcludeList(config)))
  {
    var key := ChangelogKey(config);
    var changed := Changed(re, changes, IncludeList(config), ExcludeList(config));
    if key in changes then
      if changes[key].status in AllowedStatuses then Success else Fail
    else if changed then Progress
    else Success
  }

  /** `descriptionFor(status)`: the fixed text published with each status. */
  function DescriptionFor(status: Status): (text: string)
    ensures text != ""
  {
    match status
    case Success => "changelog entry included"
    case Progress => "changelog entry missing"
    case Fail => "changelog could not be detected"
  }

  /** Each status has its own description, so the text tells the status. */
  lemma DescriptionsDistinct(s: Status, t: Status)
    ensures DescriptionFor(s) == DescriptionFor(t) <==> s == t
  {
  }

  /** `Fail` is returned exactly when the changelog is among the changes
      with a change kind other than `modified` and `added`. */
  lemma FailIff(re: RegexEngine, config: Config, changes: Changes)
    ensures ChangelogStatus(re, config, changes) == Fail <==>
      ChangelogKey(config) in changes &&
      changes[ChangelogKey(config)].status != "modified" &&
      changes[ChangelogKey(config)].status != "added"
  {
  }

  /** `Progress` is returned exactly when the changelog is absent and some
      changed file is in scope. */
  lemma ProgressIff(re: RegexEngine, config: Config, changes: Changes)
    ensures ChangelogStatus(re, config, changes) == Progress <==>
      ChangelogKey(config) !in changes &&
      exists name :: name in changes && InScope(re, changes[name], IncludeList(config), ExcludeList(config))
  {
  }

  /** Once the changelog is among the changes, the include and exclude
      lists, and the regular-expression engine, make no difference. */
  lemma PresentChangelogDecidesAlone(re: RegexEngine, re': RegexEngine, config: Config, config': Config, changes: Changes)
    requires ChangelogKey(config) == ChangelogKey(config')
    requires ChangelogKey(config) in changes
    ensures ChangelogStatus(re, config, changes) == ChangelogStatus(re', config', changes)
  {
  }

  /** A file that matches an exclude pattern is never in scope, whatever
      the include list says. */
  lemma ExcludeOverridesInclude(re: RegexEngine, file: File, includes: seq<string>, excludes: seq<string>, i: nat)
    requires i < |excludes| && PatternMatches(re, file.filename, excludes[i])
    ensures !InScope(re, file, includes, excludes)
  {
  }

  /** With the changelog absent, one in-scope file is enough for `Progress`. */
  lemma InScopeFileMeansProgress(re: RegexEngine, config: Config, changes: Changes, name: string)
    requires ChangelogKey(config) !in changes
    requires name in changes
    requires Matches(re, changes[name].filename, IncludeList(config))
    requires !Matches(re, changes[name].filename, ExcludeList(config))
    ensures ChangelogStatus(re, config, changes) == Progress
  {
  }

  /** With the changelog absent and nothing in scope, the result is `Success`. */
  lemma NothingInScopeMeansSuccess(re: RegexEngine, config: Config, changes: Changes)
    requires ChangelogKey(config) !in changes
    requires forall name :: name in changes ==> !InScope(re, changes[name], IncludeList(config), ExcludeList(config))
    ensures ChangelogStatus(re, config, changes) == Success
  {
  }

  /** An unset or empty include list puts nothing in scope, so without the
      changelog the result is `Success`. */
  lemma NoIncludeMeansSuccess(re: RegexEngine, config: Config, changes: Changes)
    requires ChangelogKey(config) !in changes
    requires config.includes.None? || config.includes.value == []
    ensures ChangelogStatus(re, config, changes) == Success
  {
  }
}
