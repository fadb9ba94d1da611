# probot-changelog: the changelog compliance decision

probot-changelog is a GitHub App. When a pull request is opened, reopened,
synchronized, labeled or unlabeled, it decides whether the pull request
carries a changelog entry and publishes the answer as the commit status
`changelog` on the head commit. This project models that decision and proves
its properties in Dafny:

- **Patterns** (`isRegexp`, `matches`): a configured pattern that starts and
  ends with `/` is a regular expression whose body lies between the slashes.
  Any other pattern is a substring test. A list of patterns matches when any
  one of them does.
- **Changelog** (`changelogStatus`, `descriptionFor`): the changelog file is
  looked up under `filename`, which defaults to `CHANGELOG.md`. If it is
  among the changes, it gives `Success` when its change kind is `modified`
  or `added`, and `Fail` otherwise. If it is absent, the result is
  `Progress` when some changed file matches the include list and not the
  exclude list, and `Success` when none does. Each status has a fixed
  description.
- **Changes** (index.js line 132): the fetched list of changed files is
  folded into a map keyed by filename, with later entries overwriting
  earlier ones. An empty list throws a `TypeError`.
- **Labels** (`hasLabel`, `skipChangelog`): the check is skipped, and
  `Success` published, when the pull request carries the skip label up to
  letter case. The skip label defaults to `skip-changelog`.
- **Js**: the JavaScript built-ins these rely on, modelled on values:
  `Array.prototype.some`, `startsWith`, `endsWith`, `substr`, `includes`,
  `toLowerCase`, the `x || default` idiom, `undefined` and thrown exceptions.
- **Scenarios**: worked end-to-end examples, from a file list to a status.

The regular-expression engine is the parameter `re: RegexEngine`. The value
`re(body, filename)` says whether `filename.match(body)` succeeds. Every
statement is proved for every engine. The label names and the changed-file
list are the results of GitHub API calls and enter as plain sequences.

Three behaviours of the code are easy to misread:

- The code has three status values, `FAIL`, `SUCCESS` and `PROGRESS`. There
  is no separate "skipped" value: the skip path publishes `SUCCESS`
  (index.js:126-129). So there is no "not needed" description either.
- `isRegexp` has no length check. The one-character pattern `"/"` is a
  regular expression, and `substr` clamps its body to the empty string.
- A pull request with no changed files is not treated as skipped. Its empty
  file list makes `Object.assign` throw at index.js:132, so no status is
  published.

## Model

| member | source | states |
|---|---|---|
| `Js.ArraySome` | index.js:35 | `.some` holds exactly when some element satisfies the callback |
| `Js.StartsWith` | index.js:31 | `startsWith` holds exactly when the prefix is no longer than the string and agrees with it character by character from the front |
| `Js.EndsWith` | index.js:31 | `endsWith` holds exactly when the suffix is no longer than the string and agrees with it character by character at the end |
| `Js.Substr` | index.js:37 | `substr(start, length)` is the slice of that length when it fits, the rest of the string when the length runs past the end, and empty for a non-positive length or a start past the end |
| `Js.ToLowerCase` | index.js:105-108 | lower-casing keeps the length and maps each character to its lower-case form (ASCII letters only) |
| `Js.StringOr` | index.js:47 | `x || fallback` on a string setting is the setting when it is set and non-empty, and the fallback when it is unset or empty |
| `Js.ListOrEmpty` | index.js:48-49 | `xs || []` on a list setting is the list whenever it is set, even when empty, and the empty list when it is unset |
| `Js.Includes` | index.js:39 | `includes` holds exactly when the pattern occurs at some position of the filename, so the empty pattern occurs in every filename |
| `Patterns.IsRegexp` | index.js:28-32 | a pattern is a regular expression exactly when its first and its last character are `/`; one character suffices |
| `Patterns.Body` | index.js:37 | the body of a pattern of two or more characters is the text strictly between its first and last character; a pattern of at most two characters has the empty body |
| `Patterns.PatternMatches` | index.js:35-41 | a regular-expression pattern matches when the engine matches its body; any other pattern matches exactly when it occurs in the filename |
| `Patterns.Matches` | index.js:34-42 | a list of patterns matches exactly when some pattern in it matches |
| `Patterns.NothingMatchesEmptyList` | index.js:34-35 | the empty pattern list matches no filename |
| `Patterns.StripThenDelimit` | index.js:37 | for a regular-expression pattern of two or more characters, `/` + body + `/` is the pattern again |
| `Patterns.DelimitThenStrip` | index.js:30-37 | any body written between slashes is a regular expression whose body is that text again |
| `Patterns.SlashAloneIsEmptyRegexp` | index.js:30-37 | `"/"` is a regular expression with the empty body, and matches exactly the filenames the empty regular expression matches |
| `Patterns.EmptyLiteralMatchesAll` | index.js:39 | the empty literal pattern matches every filename |
| `Changelog.ChangelogKey` | index.js:47 | the changelog key is the configured filename when it is set and non-empty, and `CHANGELOG.md` otherwise; it is never empty |
| `Changelog.IncludeList` | index.js:48 | the include list is the configured one when set and the empty list otherwise |
| `Changelog.ExcludeList` | index.js:49 | the exclude list is the configured one when set and the empty list otherwise |
| `Changelog.InScope` | index.js:52-53 | a file survives both filters exactly when some include pattern matches it and no exclude pattern does |
| `Changelog.Changed` | index.js:51-54 | the filter-filter-some pipeline is true exactly when some changed file matches the include list and not the exclude list |
| `Changelog.ChangelogStatus` | index.js:44-69 | with the changelog present the result is `Success` exactly for `modified`/`added` and otherwise `Fail`, never `Progress`; with it absent the result is `Progress` exactly when some file is in scope and otherwise `Success`, never `Fail` |
| `Changelog.DescriptionFor` | index.js:71-80 | every status has a non-empty description |
| `Changelog.DescriptionsDistinct` | index.js:71-80 | two statuses share a description only if they are the same status |
| `Changelog.FailIff` | index.js:56-62 | `Fail` comes exactly when the changelog is present with a change kind other than `modified` and `added` |
| `Changelog.ProgressIff` | index.js:51-66 | `Progress` comes exactly when the changelog is absent and some changed file is in scope |
| `Changelog.PresentChangelogDecidesAlone` | index.js:47-62 | with the changelog present, the include and exclude lists and the regular-expression engine do not affect the result |
| `Changelog.ExcludeOverridesInclude` | index.js:52-53 | a file that matches an exclude pattern is not in scope, whatever the include list |
| `Changelog.InScopeFileMeansProgress` | index.js:51-66 | with the changelog absent, one file matching include and not exclude gives `Progress` |
| `Changelog.NothingInScopeMeansSuccess` | index.js:51-68 | with the changelog absent and no file in scope, the result is `Success` |
| `Changelog.NoIncludeMeansSuccess` | index.js:48-68 | with the changelog absent and the include list unset or empty, the result is `Success` whatever the files and the exclude list |
| `Changes.Assign` | index.js:132 | merging into a target keeps the target's keys and adds exactly the listed filenames |
| `Changes.AssignAt` | index.js:132 | after the merge, a name is a key exactly when the target or some listed file has it; it holds the last listed file with that name, or the target's old value when no file has it |
| `Changes.AssignAll` | index.js:132 | merging every listed file into an empty object gives exactly the listed filenames as keys, each holding the last listed file with that filename |
| `Changes.BuildChanges` | index.js:132 | the empty list throws, and only that list does; otherwise the keys are exactly the listed filenames and each holds the last listed file of that filename |
| `Changes.BuiltKeysAreFilenames` | index.js:132 | in a built map every file sits under its own filename |
| `Changes.StatusForFiles` | index.js:132-133 | deciding over a fetched file list throws exactly when the list is empty; otherwise a listed changelog is judged by its last listed entry (`Success` for `modified`/`added`, else `Fail`), and an unlisted one gives `Progress` exactly when some listed file is in scope and never `Fail` |
| `Labels.HasLabel` | index.js:102-109 | an empty label gives `undefined`, and only an empty one does; otherwise the answer is whether some label name equals it after lower-casing both |
| `Labels.SkipLabel` | index.js:112 | the skip label is the configured one when set and non-empty, and `skip-changelog` otherwise; it is never empty |
| `Labels.SkipChangelog` | index.js:111-115 | the skip check always gives a boolean, which never comes from the `undefined` early return; it is true exactly when some label equals the skip label up to case |
| `Labels.SkipIgnoresCase` | index.js:105-112 | two label lists that agree name by name up to case, checked against skip labels that agree up to case, give the same skip answer |
| `Scenarios.ChangelogBesideSource` | index.js:46-62 | with include `src/`, a modified `CHANGELOG.md` beside `src/a.ts` gives `Success` |
| `Scenarios.SourceWithoutChangelog` | index.js:46-66 | with include `src/`, a lone `src/a.ts` gives `Progress` |
| `Scenarios.ExcludedSourceNeedsNothing` | index.js:46-68 | with include `src/` and exclude `src/generated/`, a lone `src/generated/x.ts` gives `Success` |
| `Scenarios.RenamedChangelog` | index.js:46-62 | with the default configuration, a renamed `CHANGELOG.md` gives `Fail` |
| `Scenarios.LaterDuplicateWins` | index.js:132 | a `removed` entry for `CHANGELOG.md` listed after a `modified` one wins, giving `Fail` |
| `Scenarios.DefaultSkipLabelIgnoresCase` | index.js:102-115 | with the default configuration, the label `Skip-Changelog` skips the check |
| `Scenarios.ConfiguredSkipLabelIgnoresCase` | index.js:102-115 | with the skip label configured as `SKIP`, the label `skip` skips the check |

## Left out

- Event registration (index.js:10-14) and the sequencing in `checkChangelog` (index.js:117-136). A missing configuration returns without a status. A skip publishes `Success`. Otherwise the status of the file list is published. Only the pure parts are modelled: `Labels.SkipChangelog` for the skip test and `Changes.StatusForFiles` for the decision.
- The GitHub API calls are network I/O. These are `getFiles` and `paginate` (index.js:16-26), `context.config` (index.js:118), `getIssueLabels` (index.js:106) and `createStatus` (index.js:82-93). Their results enter the model as plain sequences and records.
- Logging (index.js:95-100) is a side effect only.
- The literal state strings `failure`, `success` and `pending` (index.js:3-7), and the fixed `target_url` and `context` of `setStatus`, are left out. They are only values handed to the status API, and the model uses the closed `Status` datatype instead.
- Regular-expression semantics (`filename.match(body)`, index.js:37) belong to the JavaScript engine. They are the parameter `re`, with no properties assumed.
- Patterns.PatternMatches: is total. `filename.match` throws on a malformed body. That throw would escape `changelogStatus` even when the changelog file is present, because `changed` is computed first (index.js:51-56).
- Labels.HasLabel: lower-cases only the ASCII letters. `toLowerCase` is full Unicode case mapping.
- Changelog.ChangelogStatus: looks keys up in a plain map. In JavaScript, `changes[key]` also finds properties inherited from `Object.prototype`, such as `constructor`. A configured filename of that kind would find a function with no `status` and give `Fail`.
- Changes.BuildChanges: treats every filename as an ordinary key. A file named `__proto__` that is not listed first would change the merged object's prototype instead of becoming a key. Listed first, it is an ordinary own key of the target, because the one-entry object uses a computed key.
- Configuration values of the wrong type are not modelled, for example a number for `filename` or a string for `include`. Settings are optional strings and optional lists of strings.
