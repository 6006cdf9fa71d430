/** audio_rename_tool.py, `rename_folders` and `rename_files`: carrying out a rename plan on a
    directory tree. */
module AudioRename {
  import opened Text
  import opened Dicts
  import opened Sorting
  import opened FileSystem
  import opened AudioScan

  /** The renamed pairs and the tree after processing `entries` in order: an entry whose
      source exists is, unless in preview, moved after its target's parent directories are
      made; any other entry is skipped. */
  function ApplyMoves(paths: set<string>, entries: seq<(string, string)>, dryRun: bool): (seq<(string, string)>, set<string>)
  {
    if entries == [] then ([], paths)
    else
      var prev := ApplyMoves(paths, entries[..|entries| - 1], dryRun);
      var e := entries[|entries| - 1];
      if e.0 in prev.1 && !dryRun then (prev.0 + [e], Moved(prev.1 + Ancestors(Dirname(e.1)), e.0, e.1))
      else prev
  }

  /** The loop shared by `rename_folders` and `rename_files`. */
  method MoveEntries(fs: FileTree, entries: seq<(string, string)>, dryRun: bool) returns (renamed: seq<(string, string)>)
    modifies fs
    ensures renamed == ApplyMoves(old(fs.paths), entries, dryRun).0
    ensures fs.paths == ApplyMoves(old(fs.paths), entries, dryRun).1
  {
    renamed := [];
    for i := 0 to |entries|
      invariant (renamed, fs.paths) == ApplyMoves(old(fs.paths), entries[..i], dryRun)
    {
      assert entries[..i + 1][..i] == entries[..i];
      var src, dst := entries[i].0, entries[i].1;
      var present := fs.Exists(src);
      if present && !dryRun {
        fs.MakeDirs(Dirname(dst));
        fs.Move(src, dst);
        renamed := renamed + [(src, dst)];
      }
    }
    assert entries[..|entries|] == entries;
  }

  /** `rename_folders`: the mapping stably sorted deepest first, then moved in that order. */
  method RenameFolders(fs: FileTree, folderMap: Dict<string>, dryRun: bool) returns (renamed: seq<(string, string)>)
    modifies fs
    ensures renamed == ApplyMoves(old(fs.paths), Sort(folderMap, DeeperOrEqual), dryRun).0
    ensures fs.paths == ApplyMoves(old(fs.paths), Sort(folderMap, DeeperOrEqual), dryRun).1
  {
    renamed := MoveEntries(fs, Sort(folderMap, DeeperOrEqual), dryRun);
  }

  /** `rename_files`: the mapping moved in its own order. */
  method RenameFiles(fs: FileTree, fileMap: Dict<string>, dryRun: bool) returns (renamed: seq<(string, string)>)
    modifies fs
    ensures renamed == ApplyMoves(old(fs.paths), fileMap, dryRun).0
    ensures fs.paths == ApplyMoves(old(fs.paths), fileMap, dryRun).1
  {
    renamed := MoveEntries(fs, fileMap, dryRun);
  }

  /** A preview moves nothing and reports nothing. */
  lemma {:induction false} PreviewChangesNothing(paths: set<string>, entries: seq<(string, string)>)
    ensures ApplyMoves(paths, entries, true) == ([], paths)
  {
    if entries != [] {
      PreviewChangesNothing(paths, entries[..|entries| - 1]);
    }
  }

  /** Only entries of the plan are reported, and no more reports than the plan has entries. */
  lemma {:induction false} RenamedAreEntries(paths: set<string>, entries: seq<(string, string)>, dryRun: bool)
    ensures |ApplyMoves(paths, entries, dryRun).0| <= |entries|
    ensures forall x :: x in ApplyMoves(paths, entries, dryRun).0 ==> x in entries
  {
    if entries != [] {
      var init := entries[..|entries| - 1];
      RenamedAreEntries(paths, init, dryRun);
      forall x | x in init ensures x in entries {
        var i :| 0 <= i < |init| && init[i] == x;
        assert entries[i] == x;
      }
    }
  }

  /** Processing a plan whose sources all exist, are distinct and come deepest first moves
      every entry: no move takes away a source still waiting. */
  lemma {:induction false} DeepestFirstMovesAll(paths: set<string>, entries: seq<(string, string)>, n: nat)
    requires n <= |entries|
    requires DistinctKeys(entries) && DeepestFirst(entries)
    requires forall i :: 0 <= i < |entries| ==> entries[i].0 in paths
    ensures ApplyMoves(paths, entries[..n], false).0 == entries[..n]
    ensures forall j :: n <= j < |entries| ==> entries[j].0 in ApplyMoves(paths, entries[..n], false).1
  {
    if n > 0 {
      DeepestFirstMovesAll(paths, entries, n - 1);
      var prev := ApplyMoves(paths, entries[..n - 1], false);
      var e := entries[n - 1];
      assert entries[..n][..n - 1] == entries[..n - 1];
      assert e.0 in prev.1;
      var grown := prev.1 + Ancestors(Dirname(e.1));
      forall j | n <= j < |entries| ensures entries[j].0 in Moved(grown, e.0, e.1) {
        MoveSparesShallower(grown, e.0, e.1, entries[j].0);
      }
      assert entries[..n - 1] + [e] == entries[..n];
    }
  }

  /** Committing the plan the scan produced renames every directory of it, provided they all
      exist beforehand. */
  lemma RenameFoldersMovesAll(paths: set<string>, table: map<char, string>, isWord: char -> bool, dirs: seq<WalkEntry>)
    requires var m := FolderMapping(table, isWord, dirs); forall i :: 0 <= i < |m| ==> m[i].0 in paths
    ensures var sorted := Sort(FolderMapping(table, isWord, dirs), DeeperOrEqual);
            ApplyMoves(paths, sorted, false).0 == sorted
  {
    var m := FolderMapping(table, isWord, dirs);
    var sorted := Sort(m, DeeperOrEqual);
    assert TotalPreorder(DeeperOrEqual);
    SortSorted(m, DeeperOrEqual);
    PutAllKeepsDistinct([], Sort(FolderPairs(table, isWord, dirs), DeeperOrEqual));
    DistinctPermutation(m, sorted);
    forall i | 0 <= i < |sorted| ensures sorted[i].0 in paths {
      assert sorted[i] in multiset(m);
      var j :| 0 <= j < |m| && m[j] == sorted[i];
    }
    DeepestFirstMovesAll(paths, sorted, |sorted|);
    assert sorted[..|sorted|] == sorted;
  }

  /** The files of the plan that lie below a renamed directory are looked up under their old
      path, which the directory's move has emptied: `rename_files` run after `rename_folders`
      skips them. */
  lemma FileBelowRenamedFolderSkipped(paths: set<string>, src: string, dst: string, f: string, g: string)
    requires src in paths && StartsWith(f, src + "/") && !StartsWith(f, dst)
    ensures var afterFolders := ApplyMoves(paths, [(src, dst)], false).1;
            ApplyMoves(afterFolders, [(f, g)], false) == ([], afterFolders)
  {
    var grown := paths + Ancestors(Dirname(dst));
    assert [(src, dst)][..0] == [];
    assert [(f, g)][..0] == [];
    MoveVacatesBelow(grown, src, dst, f);
  }
}
