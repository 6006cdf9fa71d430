/** audio_rename_tool.py, `update_rpy_files`: the merged rename mapping and the rewriting of
    the audio references in the game's `.rpy` scripts. */
module AudioRpy {
  import opened Text
  import opened Dicts

  // ---- The merged mapping ----

  /** The value an entry with key `k` gets from one renamed folder: when `k` lies below the
      folder, the first occurrence of the folder in the value is replaced by the new folder. */
  function Rebased(k: string, v: string, folder: string, newFolder: string): string {
    if StartsWith(k, folder + "/") then ReplaceFirst(v, folder, newFolder) else v
  }

  /** The mapping after the inner loop for one folder. */
  function FolderStep(d: Dict<string>, folder: string, newFolder: string): Dict<string> {
    seq(|d|, i requires 0 <= i < |d| => (d[i].0, Rebased(d[i].0, d[i].1, folder, newFolder)))
  }

  /** The mapping after the inner loop has run for each folder in turn. */
  function FolderSteps(d: Dict<string>, folders: Dict<string>): Dict<string> {
    if folders == [] then d
    else
      var last := folders[|folders| - 1];
      FolderStep(FolderSteps(d, folders[..|folders| - 1]), last.0, last.1)
  }

  /** `all_rename_mapping`: the file mapping, its values rebased for every folder, and then
      every folder entry added. */
  function CombinedMapping(fileMap: Dict<string>, folderMap: Dict<string>): Dict<string> {
    PutAll(FolderSteps(PutAll([], fileMap), folderMap), folderMap)
  }

  /** One turn of the inner loop: the entries before `i` are rebased, the others not yet. */
  lemma StepFolderAt(snapshot: Dict<string>, folder: string, newFolder: string, i: nat)
    requires DistinctKeys(snapshot) && i < |snapshot|
    ensures var f := FolderStep(snapshot, folder, newFolder);
            var r := f[..i] + snapshot[i..];
            (if StartsWith(snapshot[i].0, folder + "/")
             then Put(r, snapshot[i].0, ReplaceFirst(snapshot[i].1, folder, newFolder))
             else r)
            == f[..i + 1] + snapshot[i + 1..]
  {
    var f := FolderStep(snapshot, folder, newFolder);
    var r := f[..i] + snapshot[i..];
    assert forall j :: 0 <= j < |r| ==> r[j].0 == snapshot[j].0;
    assert r[i] == snapshot[i] && r[..i] == f[..i] && r[i + 1..] == snapshot[i + 1..];
    assert f[..i + 1] == f[..i] + [f[i]];
    if StartsWith(snapshot[i].0, folder + "/") {
      PutAt(r, i, ReplaceFirst(snapshot[i].1, folder, newFolder));
    } else {
      assert r == f[..i] + [f[i]] + snapshot[i + 1..];
    }
  }

  /** `for old_file_path, new_file_path in list(all_rename_mapping.items())` for one folder. */
  method StepFolder(all: Dict<string>, folder: string, newFolder: string) returns (r: Dict<string>)
    requires DistinctKeys(all)
    ensures r == FolderStep(all, folder, newFolder)
  {
    r := all;
    var snapshot := all;
    for i := 0 to |snapshot|
      invariant r == FolderStep(snapshot, folder, newFolder)[..i] + snapshot[i..]
    {
      var k, v := snapshot[i].0, snapshot[i].1;
      StepFolderAt(snapshot, folder, newFolder, i);
      if StartsWith(k, folder + "/") {
        r := Put(r, k, ReplaceFirst(v, folder, newFolder));
      }
    }
    assert FolderStep(snapshot, folder, newFolder)[..|snapshot|] == FolderStep(snapshot, folder, newFolder);
  }

  lemma FolderStepKeys(d: Dict<string>, folder: string, newFolder: string)
    ensures Keys(FolderStep(d, folder, newFolder)) == Keys(d)
    ensures DistinctKeys(d) ==> DistinctKeys(FolderStep(d, folder, newFolder))
  {
  }

  lemma {:induction false} FolderStepsKeys(d: Dict<string>, folders: Dict<string>)
    ensures Keys(FolderSteps(d, folders)) == Keys(d)
    ensures DistinctKeys(d) ==> DistinctKeys(FolderSteps(d, folders))
  {
    if folders != [] {
      var last := folders[|folders| - 1];
      FolderStepsKeys(d, folders[..|folders| - 1]);
      FolderStepKeys(FolderSteps(d, folders[..|folders| - 1]), last.0, last.1);
    }
  }

  /** Building `all_rename_mapping`: update with the files, rebase for each folder, then add the
      folders. */
  method CombineMappings(fileMap: Dict<string>, folderMap: Dict<string>) returns (all: Dict<string>)
    ensures all == CombinedMapping(fileMap, folderMap)
  {
    all := PutEach([], fileMap);
    PutAllKeepsDistinct([], fileMap);
    ghost var start := all;
    for i := 0 to |folderMap|
      invariant all == FolderSteps(start, folderMap[..i])
      invariant DistinctKeys(all)
    {
      assert folderMap[..i + 1][..i] == folderMap[..i];
      FolderStepKeys(all, folderMap[i].0, folderMap[i].1);
      all := StepFolder(all, folderMap[i].0, folderMap[i].1);
    }
    assert folderMap[..|folderMap|] == folderMap;
    all := PutEach(all, folderMap);
  }

  lemma HasKeySameKeys(d: Dict<string>, e: Dict<string>, k: string)
    requires Keys(d) == Keys(e)
    ensures HasKey(d, k) <==> HasKey(e, k)
  {
    if HasKey(d, k) {
      var i :| 0 <= i < |d| && d[i].0 == k;
      assert e[i].0 == Keys(e)[i];
    }
    if HasKey(e, k) {
      var i :| 0 <= i < |e| && e[i].0 == k;
      assert d[i].0 == Keys(d)[i];
    }
  }

  /** The merged mapping holds exactly the file keys and the folder keys. */
  lemma CombinedKeys(fileMap: Dict<string>, folderMap: Dict<string>, k: string)
    ensures HasKey(CombinedMapping(fileMap, folderMap), k) <==> HasKey(fileMap, k) || HasKey(folderMap, k)
  {
    var d := PutAll([], fileMap);
    FolderStepsKeys(d, folderMap);
    HasKeySameKeys(d, FolderSteps(d, folderMap), k);
    HasKeyPutAll(FolderSteps(d, folderMap), folderMap, k);
    HasKeyPutAll([], fileMap, k);
  }

  /** Each folder key maps to its new folder. */
  lemma CombinedFolderValue(fileMap: Dict<string>, folderMap: Dict<string>, k: string)
    requires DistinctKeys(folderMap) && HasKey(folderMap, k)
    ensures Get(CombinedMapping(fileMap, folderMap), k) == Get(folderMap, k)
  {
    var d := FolderSteps(PutAll([], fileMap), folderMap);
    GetPutAll(d, folderMap, k);
    LastValueOfKey(d, folderMap, k);
  }

  /** The value a file path ends with: each folder of the mapping applied in turn. */
  function FoldFolders(k: string, v: string, folders: Dict<string>): string {
    if folders == [] then v
    else
      var last := folders[|folders| - 1];
      Rebased(k, FoldFolders(k, v, folders[..|folders| - 1]), last.0, last.1)
  }

  lemma GetFolderStep(d: Dict<string>, folder: string, newFolder: string, k: string, v: string)
    requires DistinctKeys(d) && Get(d, k) == Some(v)
    ensures Get(FolderStep(d, folder, newFolder), k) == Some(Rebased(k, v, folder, newFolder))
  {
    HasKeyGet(d, k);
    var i :| 0 <= i < |d| && d[i].0 == k;
    GetAt(d, i);
    FolderStepKeys(d, folder, newFolder);
    GetAt(FolderStep(d, folder, newFolder), i);
  }

  lemma {:induction false} GetFolderSteps(d: Dict<string>, folders: Dict<string>, k: string, v: string)
    requires DistinctKeys(d) && Get(d, k) == Some(v)
    ensures Get(FolderSteps(d, folders), k) == Some(FoldFolders(k, v, folders))
  {
    if folders != [] {
      var init := folders[..|folders| - 1];
      var last := folders[|folders| - 1];
      GetFolderSteps(d, init, k, v);
      FolderStepsKeys(d, init);
      GetFolderStep(FolderSteps(d, init), last.0, last.1, k, FoldFolders(k, v, init));
    }
  }

  lemma {:induction false} LastValueAbsent(d: Dict<string>, pairs: Dict<string>, k: string)
    requires !HasKey(pairs, k)
    ensures LastValue(d, pairs, k) == Get(d, k)
  {
    if pairs != [] {
      var init := pairs[..|pairs| - 1];
      assert pairs[|pairs| - 1].0 != k;
      assert !HasKey(init, k) by {
        forall i | 0 <= i < |init| ensures init[i].0 != k {
          assert init[i] == pairs[i];
        }
      }
      LastValueAbsent(d, init, k);
    }
  }

  /** A file key that is not also a folder key keeps the file's new path, rebased by every
      folder it lies below, in folder-mapping order. */
  lemma CombinedFileValue(fileMap: Dict<string>, folderMap: Dict<string>, k: string, v: string)
    requires DistinctKeys(fileMap) && Get(fileMap, k) == Some(v) && !HasKey(folderMap, k)
    ensures Get(CombinedMapping(fileMap, folderMap), k) == Some(FoldFolders(k, v, folderMap))
  {
    var d := PutAll([], fileMap);
    HasKeyGet(fileMap, k);
    GetPutAll([], fileMap, k);
    LastValueOfKey([], fileMap, k);
    PutAllKeepsDistinct([], fileMap);
    GetFolderSteps(d, folderMap, k, v);
    GetPutAll(FolderSteps(d, folderMap), folderMap, k);
    LastValueAbsent(FolderSteps(d, folderMap), folderMap, k);
  }

  // ---- Rewriting one script ----

  /** The six pattern/replacement pairs tried for one mapping entry: both quote styles, both
      again with `.flac` read as `.mp3`, and the `audio/` and `sound/` prefixes. */
  function Patterns(o: string, n: string): seq<(string, string)> {
    var om, nm := ReplaceAll(o, ".flac", ".mp3"), ReplaceAll(n, ".flac", ".mp3");
    [ ("\"" + o + "\"", "\"" + n + "\""),
      ("'" + o + "'", "'" + n + "'"),
      ("\"" + om + "\"", "\"" + nm + "\""),
      ("'" + om + "'", "'" + nm + "'"),
      ("audio/" + o, "audio/" + n),
      ("sound/" + o, "sound/" + n) ]
  }

  /** `if pattern in content: content = content.replace(pattern, replacement)` for each pair. */
  function ReplaceEach(content: string, pairs: seq<(string, string)>): string {
    if pairs == [] then content
    else
      var c := ReplaceEach(content, pairs[..|pairs| - 1]);
      var last := pairs[|pairs| - 1];
      if Contains(c, last.0) then ReplaceAll(c, last.0, last.1) else c
  }

  /** The content after every mapping entry, in mapping order. */
  function Rewrite(content: string, all: Dict<string>): string {
    if all == [] then content
    else
      var last := all[|all| - 1];
      ReplaceEach(Rewrite(content, all[..|all| - 1]), Patterns(last.0, last.1))
  }

  method ApplyPatterns(content: string, pairs: seq<(string, string)>) returns (r: string)
    ensures r == ReplaceEach(content, pairs)
  {
    r := content;
    for i := 0 to |pairs|
      invariant r == ReplaceEach(content, pairs[..i])
    {
      assert pairs[..i + 1][..i] == pairs[..i];
      if Contains(r, pairs[i].0) {
        r := ReplaceAll(r, pairs[i].0, pairs[i].1);
      }
    }
    assert pairs[..|pairs|] == pairs;
  }

  /** The replacement loops of `update_rpy_files` for one script's content. */
  method RewriteContent(content: string, all: Dict<string>) returns (r: string)
    ensures r == Rewrite(content, all)
  {
    r := content;
    for i := 0 to |all|
      invariant r == Rewrite(content, all[..i])
    {
      assert all[..i + 1][..i] == all[..i];
      r := ApplyPatterns(r, Patterns(all[i].0, all[i].1));
    }
    assert all[..|all|] == all;
  }

  /** The same pairs applied with no `in` test. */
  function ReplaceEachUnguarded(content: string, pairs: seq<(string, string)>): string {
    if pairs == [] then content
    else
      var last := pairs[|pairs| - 1];
      ReplaceAll(ReplaceEachUnguarded(content, pairs[..|pairs| - 1]), last.0, last.1)
  }

  /** The `in` test changes nothing: a pair that occurs is replaced at every occurrence, and
      one that does not is a no-op anyway. */
  lemma {:induction false} GuardIsRedundant(content: string, pairs: seq<(string, string)>)
    requires forall i :: 0 <= i < |pairs| ==> pairs[i].0 != []
    ensures ReplaceEach(content, pairs) == ReplaceEachUnguarded(content, pairs)
  {
    if pairs != [] {
      var init := pairs[..|pairs| - 1];
      var last := pairs[|pairs| - 1];
      assert forall i :: 0 <= i < |init| ==> init[i] == pairs[i];
      GuardIsRedundant(content, init);
      var c := ReplaceEach(content, init);
      if !Contains(c, last.0) {
        ReplaceAllAbsent(c, last.0, last.1);
      }
    }
  }

  lemma PatternsNonEmpty(o: string, n: string)
    ensures forall i :: 0 <= i < 6 ==> Patterns(o, n)[i].0 != []
  {
  }

  /** For each mapping entry, every one of its six patterns is replaced at every occurrence. */
  lemma EntryReplacesAll(content: string, o: string, n: string)
    ensures ReplaceEach(content, Patterns(o, n)) == ReplaceEachUnguarded(content, Patterns(o, n))
  {
    PatternsNonEmpty(o, n);
    GuardIsRedundant(content, Patterns(o, n));
  }

  /** No pattern of any entry in the content: nothing changes. */
  predicate Untouched(content: string, all: Dict<string>) {
    forall i, j :: 0 <= i < |all| && 0 <= j < 6 ==> !Contains(content, Patterns(all[i].0, all[i].1)[j].0)
  }

  lemma {:induction false} ReplaceEachAbsent(content: string, pairs: seq<(string, string)>)
    requires forall j :: 0 <= j < |pairs| ==> !Contains(content, pairs[j].0)
    ensures ReplaceEach(content, pairs) == content
  {
    if pairs != [] {
      var init := pairs[..|pairs| - 1];
      assert forall j :: 0 <= j < |init| ==> init[j] == pairs[j];
      ReplaceEachAbsent(content, init);
    }
  }

  /** A script that mentions none of the patterns is left exactly as it was. */
  lemma {:induction false} RewriteUntouched(content: string, all: Dict<string>)
    requires Untouched(content, all)
    ensures Rewrite(content, all) == content
  {
    if all != [] {
      var init := all[..|all| - 1];
      var last := all[|all| - 1];
      assert Untouched(content, init) by {
        forall i, j | 0 <= i < |init| && 0 <= j < 6
          ensures !Contains(content, Patterns(init[i].0, init[i].1)[j].0)
        {
          assert init[i] == all[i];
        }
      }
      RewriteUntouched(content, init);
      var ps := Patterns(last.0, last.1);
      assert forall j :: 0 <= j < |ps| ==> !Contains(content, ps[j].0) by {
        forall j | 0 <= j < |ps| ensures !Contains(content, ps[j].0) {
          assert !Contains(content, Patterns(all[|all| - 1].0, all[|all| - 1].1)[j].0);
        }
      }
      ReplaceEachAbsent(content, ps);
    }
  }

  // ---- The scripts of the game ----

  /** A file the walk of the game directory reports, with its text, or `None` when reading it
      raised an exception, and whether opening it for writing succeeds (when it does not, the
      exception is caught and the script is not listed). */
  datatype GameFile = GameFile(root: string, name: string, content: Option<string>, writable: bool)

  predicate IsRpy(f: GameFile) {
    EndsWith(f.name, ".rpy")
  }

  /** The new text of a script whose text changed, committed to a writable file. */
  predicate IsWrite(f: GameFile, all: Dict<string>, w: (string, string)) {
    && IsRpy(f) && f.content.Some? && f.writable
    && Rewrite(f.content.value, all) != f.content.value
    && w == (PathJoin(f.root, f.name), Rewrite(f.content.value, all))
  }

  /** The (path, new text) pairs written, in walk order. */
  function RpyWrites(files: seq<GameFile>, all: Dict<string>, dryRun: bool): seq<(string, string)> {
    if files == [] then []
    else
      var prev := RpyWrites(files[..|files| - 1], all, dryRun);
      var f := files[|files| - 1];
      if !dryRun && IsRpy(f) && f.content.Some? && f.writable && Rewrite(f.content.value, all) != f.content.value
      then prev + [(PathJoin(f.root, f.name), Rewrite(f.content.value, all))]
      else prev
  }

  /** `update_rpy_files`: the scripts written (`updated_files`) and what is written to each;
      nothing when the game path does not exist. A script whose write fails is neither written
      nor listed. */
  method UpdateRpyFiles(gameExists: bool, files: seq<GameFile>, fileMap: Dict<string>, folderMap: Dict<string>, dryRun: bool)
    returns (updated: seq<string>, writes: seq<(string, string)>)
    ensures !gameExists ==> updated == [] && writes == []
    ensures gameExists ==> writes == RpyWrites(files, CombinedMapping(fileMap, folderMap), dryRun)
    ensures |updated| == |writes| && forall i :: 0 <= i < |writes| ==> updated[i] == writes[i].0
  {
    updated, writes := [], [];
    if !gameExists {
      return;
    }
    var all := CombineMappings(fileMap, folderMap);
    for i := 0 to |files|
      invariant writes == RpyWrites(files[..i], all, dryRun)
      invariant |updated| == |writes| && forall j :: 0 <= j < |writes| ==> updated[j] == writes[j].0
    {
      assert files[..i + 1][..i] == files[..i];
      var f := files[i];
      if IsRpy(f) && f.content.Some? {
        var content := f.content.value;
        var newContent := RewriteContent(content, all);
        if newContent != content && !dryRun && f.writable {
          var path := PathJoin(f.root, f.name);
          writes := writes + [(path, newContent)];
          updated := updated + [path];
        }
      }
    }
    assert files[..|files|] == files;
  }

  /** `updated_files` is empty in preview. */
  lemma {:induction false} PreviewWritesNothing(files: seq<GameFile>, all: Dict<string>)
    ensures RpyWrites(files, all, true) == []
  {
    if files != [] {
      PreviewWritesNothing(files[..|files| - 1], all);
    }
  }

  /** On commit a script is written exactly when it is a readable and writable `.rpy` file
      whose text the rewrite changes, and what is written is the rewritten text. */
  lemma {:induction false} WritesAreChangedScripts(files: seq<GameFile>, all: Dict<string>, w: (string, string))
    ensures w in RpyWrites(files, all, false) <==> exists i :: 0 <= i < |files| && IsWrite(files[i], all, w)
  {
    if files != [] {
      var init := files[..|files| - 1];
      WritesAreChangedScripts(init, all, w);
      assert w in RpyWrites(files, all, false) <==> w in RpyWrites(init, all, false) || IsWrite(files[|files| - 1], all, w);
      if exists i :: 0 <= i < |files| && IsWrite(files[i], all, w) {
        var i :| 0 <= i < |files| && IsWrite(files[i], all, w);
        if i < |init| {
          assert init[i] == files[i];
        }
      }
      if exists i :: 0 <= i < |init| && IsWrite(init[i], all, w) {
        var i :| 0 <= i < |init| && IsWrite(init[i], all, w);
        assert init[i] == files[i];
      }
    }
  }
}
