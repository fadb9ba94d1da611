/** Building the map of changes from the fetched list of changed files:
    every file becomes the one-entry object `{ [file.filename]: file }`, and
    `Object.assign.apply(null, ...)` merges them all into the first one, so
    that a later entry overwrites an earlier one with the same filename. */
module Changes {
  import opened Js
  import opened Patterns
  import opened Changelog

  /** The filenames of the listed files. */
  function Filenames(files: seq<File>): set<string>
  {
    set i | 0 <= i < |files| :: files[i].filename
  }

  /** `files[i]` is the last listed file named `name`. */
  predicate IsLastWith(files: seq<File>, name: string, i: int)
  {
    0 <= i < |files| && files[i].filename == name &&
    forall j :: i < j < |files| ==> files[j].filename != name
  }

  /** The filenames of a non-empty list are the first one and those of the rest. */
  lemma FilenamesCons(files: seq<File>)
    requires |files| > 0
    ensures Filenames(files) == {files[0].filename} + Filenames(files[1..])
  {
    var rest := files[1..];
    forall n | n in Filenames(files) ensures n in {files[0].filename} + Filenames(rest) {
      var i :| 0 <= i < |files| && files[i].filename == n;
      if i > 0 { assert rest[i - 1] == files[i]; }
    }
    forall n | n in Filenames(rest) ensures n in Filenames(files) {
      var i :| 0 <= i < |rest| && rest[i].filename == n;
      assert files[i + 1] == rest[i];
    }
  }

  /** `Object.assign(target, {[f.filename]: f}, ...)` over the given files,
      left to right: every listed filename becomes a key, and the keys the
      target already had are kept. */
  function Assign(target: Changes, files: seq<File>): (r: Changes)
    ensures r.Keys == target.Keys + Filenames(files)
    decreases |files|
  {
    if |files| == 0 then target
    else
      FilenamesCons(files);
      Assign(target[files[0].filename := files[0]], files[1..])
  }

  /** What the fold leaves under one name: the last listed file with that
      name if there is one, otherwise whatever the target held. */
  lemma {:induction false} AssignAt(target: Changes, files: seq<File>, name: string)
    ensures name in Assign(target, files) <==> name in target || name in Filenames(files)
    ensures name in Filenames(files) ==>
      exists i :: IsLastWith(files, name, i) && Assign(target, files)[name] == files[i]
    ensures name !in Filenames(files) && name in target ==>
      Assign(target, files)[name] == target[name]
    decreases |files|
  {
    if |files| > 0 {
      var first, rest := files[0], files[1..];
      var target' := target[first.filename := first];
      AssignAt(target', rest, name);
      FilenamesCons(files);
      if name in Filenames(rest) {
        var i :| IsLastWith(rest, name, i) && Assign(target', rest)[name] == rest[i];
        assert IsLastWith(files, name, i + 1) by {
          forall j | i + 1 < j < |files| ensures files[j].filename != name {
            assert files[j] == rest[j - 1];
          }
        }
      } else if name == first.filename {
        assert IsLastWith(files, name, 0) by {
          forall j | 0 < j < |files| ensures files[j].filename != name {
            assert files[j] == rest[j - 1];
          }
        }
      }
    }
  }

  /** Folding the whole list into the empty map. */
  lemma AssignAll(files: seq<File>)
    ensures Assign(map[], files).Keys == Filenames(files)
    ensures forall name :: name in Assign(map[], files) ==>
      exists i :: IsLastWith(files, name, i) && Assign(map[], files)[name] == files[i]
  {
    forall name ensures name in Assign(map[], files) <==> name in Filenames(files) {
      AssignAt(map[], files, name);
    }
    forall name | name in Assign(map[], files)
      ensures exists i :: IsLastWith(files, name, i) && Assign(map[], files)[name] == files[i]
    {
      AssignAt(map[], files, name);
    }
  }

  /** The statement at index.js line 132. With no files there is no target
      object, and `Object.assign` throws a `TypeError`. Otherwise the keys
      are exactly the listed filenames and each one holds the last listed
      file with that filename. */
  function BuildChanges(files: seq<File>): (r: Result<Changes>)
    ensures r.Throws? <==> |files| == 0
    ensures r.Ok? ==> r.value.Keys == Filenames(files)
    ensures r.Ok? ==> forall name :: name in r.value ==>
      exists i :: IsLastWith(files, name, i) && r.value[name] == files[i]
  {
    if |files| == 0 then
      Throws("TypeError: Cannot convert undefined or null to object")
    else
      var first := files[0];
      assert Assign(map[], files) == Assign(map[first.filename := first], files[1..]) by {
        assert map[][first.filename := first] == map[first.filename := first];
      }
      AssignAll(files);
      Ok(Assign(map[first.filename := first], files[1..]))
  }

  /** In a built map every file sits under its own filename. */
  lemma BuiltKeysAreFilenames(files: seq<File>)
    requires BuildChanges(files).Ok?
    ensures forall name :: name in BuildChanges(files).value ==>
      BuildChanges(files).value[name].filename == name
  {
  }

  /** The statements at index.js lines 132-133: the decision over a
      fetched file list, or the `TypeError` of an empty one. When the
      changelog is listed, its last listed entry decides between `Success`
      and `Fail`. When it is not, the result is `Progress` exactly when some
      listed file is in scope: which duplicate wins does not matter there,
      since duplicates share their filename. */
  function StatusForFiles(re: RegexEngine, config: Config, files: seq<File>): (r: Result<Status>)
    ensures r.Throws? <==> |files| == 0
    ensures r.Ok? && ChangelogKey(config) in Filenames(files) ==>
      exists i :: IsLastWith(files, ChangelogKey(config), i) &&
        (r.value == Success <==> files[i].status in {"modified", "added"}) &&
        (r.value == Fail <==> files[i].status !in {"modified", "added"})
    ensures r.Ok? && ChangelogKey(config) !in Filenames(files) ==>
      r.value != Fail &&
      (r.value == Progress <==>
        exists i :: 0 <= i < |files| && InScope(re, files[i], IncludeList(config), ExcludeList(config)))
  {
    match BuildChanges(files)
    case Throws(e) => Throws(e)
    case Ok(changes) =>
      var inc, exc := IncludeList(config), ExcludeList(config);
      assert ChangelogKey(config) !in Filenames(files) ==>
        ((exists name :: name in changes && InScope(re, changes[name], inc, exc)) <==>
         (exists i :: 0 <= i < |files| && InScope(re, files[i], inc, exc))) by {
        if exists i :: 0 <= i < |files| && InScope(re, files[i], inc, exc) {
          var i :| 0 <= i < |files| && InScope(re, files[i], inc, exc);
          var name := files[i].filename;
          assert name in Filenames(files);
          var j :| IsLastWith(files, name, j) && changes[name] == files[j];
          assert InScope(re, changes[name], inc, exc);
        }
        if exists name :: name in changes && InScope(re, changes[name], inc, exc) {
          var name :| name in changes && InScope(re, changes[name], inc, exc);
          var j :| IsLastWith(files, name, j) && changes[name] == files[j];
          assert InScope(re, files[j], inc, exc);
        }
      }
      Ok(ChangelogStatus(re, config, changes))
  }
}
