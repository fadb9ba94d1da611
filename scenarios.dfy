/** Worked examples of the whole decision: a file list is folded into the
    map of changes and the status is computed from it. None of these uses a
    regular-expression pattern, so they hold for every engine. */
module Scenarios {
  import opened Js
  import opened Patterns
  import opened Changelog
  import opened Changes
  import opened Labels

  const SourcesOnly: Config := Config(None, Some(["src/"]), Some([]), None)

  /** A modified changelog beside a source change is `Success`. */
  lemma ChangelogBesideSource(re: RegexEngine)
    ensures StatusForFiles(re, SourcesOnly,
      [File("CHANGELOG.md", "modified"), File("src/a.ts", "added")]) == Ok(Success)
  {
  }

  /** A source change without a changelog is `Progress`. */
  lemma SourceWithoutChangelog(re: RegexEngine)
    ensures StatusForFiles(re, Config(None, Some(["src/"]), None, None),
      [File("src/a.ts", "added")]) == Ok(Progress)
  {
  }

  /** A change under an excluded directory needs no changelog. */
  lemma ExcludedSourceNeedsNothing(re: RegexEngine)
    ensures StatusForFiles(re, Config(None, Some(["src/"]), Some(["src/generated/"]), None),
      [File("src/generated/x.ts", "added")]) == Ok(Success)
  {
    var config := Config(None, Some(["src/"]), Some(["src/generated/"]), None);
    var files := [File("src/generated/x.ts", "added")];
    var changes := BuildChanges(files).value;
    assert changes.Keys == {"src/generated/x.ts"} by {
      assert Filenames(files) == {"src/generated/x.ts"};
    }
    assert OccursAt("src/generated/", "src/generated/x.ts", 0);
    ExcludeOverridesInclude(re, changes["src/generated/x.ts"], IncludeList(config), ExcludeList(config), 0);
    NothingInScopeMeansSuccess(re, config, changes);
  }

  /** A renamed changelog is `Fail`. */
  lemma RenamedChangelog(re: RegexEngine)
    ensures StatusForFiles(re, Config(None, None, None, None),
      [File("CHANGELOG.md", "renamed")]) == Ok(Fail)
  {
  }

  /** A later duplicate entry overwrites an earlier one. */
  lemma LaterDuplicateWins(re: RegexEngine)
    ensures StatusForFiles(re, Config(None, None, None, None),
      [File("CHANGELOG.md", "modified"), File("CHANGELOG.md", "removed")]) == Ok(Fail)
  {
  }

  /** The default skip label matches a label spelled in another case. */
  lemma DefaultSkipLabelIgnoresCase()
    ensures SkipChangelog(Config(None, None, None, None), ["bug", "Skip-Changelog"]) == Some(true)
  {
  }

  /** A configured skip label matches a label spelled in another case. */
  lemma ConfiguredSkipLabelIgnoresCase()
    ensures SkipChangelog(Config(None, None, None, Some("SKIP")), ["skip"]) == Some(true)
  {
  }
}
