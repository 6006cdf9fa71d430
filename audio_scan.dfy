/** audio_rename_tool.py, `scan_audio_files`: the rename plan for the directories and audio
    files whose names hold CJK characters. The two `os.walk` passes become two input sequences
    of walk entries, and whether the base path exists becomes a flag. */
module AudioScan {
  import opened Text
  import opened Dicts
  import opened Sorting
  import opened AudioNames
  import opened FileSystem

  /** `os.path.join(os.path.dirname(relative_dir_path), new_dir_name)` */
  function FolderTarget(table: map<char, string>, isWord: char -> bool, e: WalkEntry): string {
    PathJoin(Dirname(RelPath(e)), NormalizeFilename(table, isWord, e.name).0)
  }

  /** `folders_to_rename` after the first walk: one (old, new) pair per directory whose name
      holds a CJK character, in walk order. The depth is recomputed from the old path. */
  function FolderPairs(table: map<char, string>, isWord: char -> bool, dirs: seq<WalkEntry>): seq<(string, string)>
  {
    if dirs == [] then []
    else
      var e := dirs[|dirs| - 1];
      FolderPairs(table, isWord, dirs[..|dirs| - 1])
      + (if HasCjk(e.name) then [(RelPath(e), FolderTarget(table, isWord, e))] else [])
  }

  /** The sort key `relative_dir_path.count(os.sep)` compared for `reverse=True`. */
  predicate DeeperOrEqual(a: (string, string), b: (string, string)) {
    Count(a.0, '/') >= Count(b.0, '/')
  }

  /** `folder_rename_mapping`: the pairs, stably sorted deepest first, assigned in turn. */
  function FolderMapping(table: map<char, string>, isWord: char -> bool, dirs: seq<WalkEntry>): Dict<string>
  {
    PutAll([], Sort(FolderPairs(table, isWord, dirs), DeeperOrEqual))
  }

  /** `file.endswith(('.mp3', '.flac', '.wav', '.ogg'))`, case-sensitive. */
  predicate IsAudioName(name: string) {
    EndsWith(name, ".mp3") || EndsWith(name, ".flac") || EndsWith(name, ".wav") || EndsWith(name, ".ogg")
  }

  /** A file the second walk records. */
  predicate IsRecordedFile(e: WalkEntry) {
    IsAudioName(e.name) && HasCjk(e.name)
  }

  /** The directory a file moves to: the first folder key, in mapping order, that is a plain
      string prefix of the old directory has its first occurrence replaced by its value;
      with no such key the directory stays. */
  function Rebase(dir: string, folders: Dict<string>): string
  {
    if folders == [] then dir
    else if StartsWith(dir, folders[0].0) then ReplaceFirst(dir, folders[0].0, folders[0].1)
    else Rebase(dir, folders[1..])
  }

  /** `new_relative_path` of a file. */
  function FileTarget(table: map<char, string>, isWord: char -> bool, e: WalkEntry, folders: Dict<string>): string {
    PathJoin(Rebase(Dirname(RelPath(e)), folders), NormalizeFilename(table, isWord, e.name).0)
  }

  /** The (old, new) pairs of the recorded files, in walk order. */
  function FilePairs(table: map<char, string>, isWord: char -> bool, files: seq<WalkEntry>, folders: Dict<string>): seq<(string, string)>
  {
    if files == [] then []
    else
      var e := files[|files| - 1];
      FilePairs(table, isWord, files[..|files| - 1], folders)
      + (if IsRecordedFile(e) then [(RelPath(e), FileTarget(table, isWord, e, folders))] else [])
  }

  /** `file_rename_mapping` */
  function FileMapping(table: map<char, string>, isWord: char -> bool, files: seq<WalkEntry>, folders: Dict<string>): Dict<string>
  {
    PutAll([], FilePairs(table, isWord, files, folders))
  }

  /** The unknown characters gathered from the directories. */
  function FolderUnknown(table: map<char, string>, isWord: char -> bool, dirs: seq<WalkEntry>): set<char>
  {
    if dirs == [] then {}
    else
      var e := dirs[|dirs| - 1];
      FolderUnknown(table, isWord, dirs[..|dirs| - 1])
      + (if HasCjk(e.name) then NormalizeFilename(table, isWord, e.name).1 else {})
  }

  /** The unknown characters gathered from the recorded files. */
  function FileUnknown(table: map<char, string>, isWord: char -> bool, files: seq<WalkEntry>): set<char>
  {
    if files == [] then {}
    else
      var e := files[|files| - 1];
      FileUnknown(table, isWord, files[..|files| - 1])
      + (if IsRecordedFile(e) then NormalizeFilename(table, isWord, e.name).1 else {})
  }

  /** The `for ... break` loop that picks the first folder key prefixing a file's directory. */
  method RebaseDirectory(dir: string, folders: Dict<string>) returns (newDir: string)
    ensures newDir == Rebase(dir, folders)
  {
    newDir := dir;
    var i := 0;
    while i < |folders|
      invariant 0 <= i <= |folders|
      invariant Rebase(dir, folders) == Rebase(dir, folders[i..])
    {
      if StartsWith(dir, folders[i].0) {
        newDir := ReplaceFirst(dir, folders[i].0, folders[i].1);
        return;
      }
      assert folders[i..][1..] == folders[i + 1..];
      i := i + 1;
    }
  }

  /** The first walk: the (old, new) pair and the unknown characters of every directory whose
      name holds CJK. */
  method CollectFolders(table: map<char, string>, isWord: char -> bool, dirs: seq<WalkEntry>)
    returns (folders: seq<(string, string)>, unknown: set<char>)
    ensures folders == FolderPairs(table, isWord, dirs)
    ensures unknown == FolderUnknown(table, isWord, dirs)
  {
    folders, unknown := [], {};
    for i := 0 to |dirs|
      invariant folders == FolderPairs(table, isWord, dirs[..i])
      invariant unknown == FolderUnknown(table, isWord, dirs[..i])
    {
      var e := dirs[i];
      assert dirs[..i + 1][..i] == dirs[..i];
      if HasCjk(e.name) {
        var relDir := PathJoin(e.root, e.name);
        var norm := NormalizeFilename(table, isWord, e.name);
        var newRelDir := PathJoin(Dirname(relDir), norm.0);
        unknown := unknown + norm.1;
        folders := folders + [(relDir, newRelDir)];
      }
    }
    assert dirs[..|dirs|] == dirs;
  }

  /** One more entry of the second walk: its pair, if it is recorded. */
  lemma FileStep(table: map<char, string>, isWord: char -> bool, files: seq<WalkEntry>, folderMap: Dict<string>, i: nat)
    requires i < |files|
    ensures FilePairs(table, isWord, files[..i + 1], folderMap)
            == FilePairs(table, isWord, files[..i], folderMap)
               + (if IsRecordedFile(files[i]) then [(RelPath(files[i]), FileTarget(table, isWord, files[i], folderMap))] else [])
  {
    assert files[..i + 1][..i] == files[..i];
  }

  /** One more entry of the second walk: its unknown characters, if it is recorded. */
  lemma FileUnknownStep(table: map<char, string>, isWord: char -> bool, files: seq<WalkEntry>, i: nat)
    requires i < |files|
    ensures FileUnknown(table, isWord, files[..i + 1])
            == FileUnknown(table, isWord, files[..i])
               + (if IsRecordedFile(files[i]) then NormalizeFilename(table, isWord, files[i].name).1 else {})
  {
    assert files[..i + 1][..i] == files[..i];
  }

  /** The second walk: the file mapping and the unknown characters of every recorded file. */
  method CollectFiles(table: map<char, string>, isWord: char -> bool, files: seq<WalkEntry>, folderMap: Dict<string>)
    returns (fileMap: Dict<string>, unknown: set<char>)
    ensures fileMap == FileMapping(table, isWord, files, folderMap)
    ensures unknown == FileUnknown(table, isWord, files)
  {
    fileMap, unknown := [], {};
    ghost var pairs: seq<(string, string)> := [];
    for i := 0 to |files|
      invariant pairs == FilePairs(table, isWord, files[..i], folderMap)
      invariant fileMap == PutAll([], pairs)
      invariant unknown == FileUnknown(table, isWord, files[..i])
    {
      var e := files[i];
      FileStep(table, isWord, files, folderMap, i);
      FileUnknownStep(table, isWord, files, i);
      if IsAudioName(e.name) && HasCjk(e.name) {
        var rel := PathJoin(e.root, e.name);
        var norm := NormalizeFilename(table, isWord, e.name);
        var newDir := RebaseDirectory(Dirname(rel), folderMap);
        unknown := unknown + norm.1;
        var x := (rel, PathJoin(newDir, norm.0));
        assert x == (RelPath(e), FileTarget(table, isWord, e, folderMap));
        PutAllSnoc([], pairs, x);
        pairs := pairs + [x];
        fileMap := Put(fileMap, x.0, x.1);
      }
    }
    assert files[..|files|] == files;
  }

  /** `scan_audio_files`: returns the file mapping, the folder mapping and every unknown
      character met; all three are empty when the base path does not exist. */
  method ScanAudioFiles(table: map<char, string>, isWord: char -> bool, baseExists: bool,
                        dirs: seq<WalkEntry>, files: seq<WalkEntry>)
    returns (fileMap: Dict<string>, folderMap: Dict<string>, unknown: set<char>)
    ensures !baseExists ==> fileMap == [] && folderMap == [] && unknown == {}
    ensures baseExists ==> folderMap == FolderMapping(table, isWord, dirs)
    ensures baseExists ==> fileMap == FileMapping(table, isWord, files, folderMap)
    ensures baseExists ==> unknown == FolderUnknown(table, isWord, dirs) + FileUnknown(table, isWord, files)
  {
    fileMap, folderMap, unknown := [], [], {};
    if !baseExists {
      return;
    }
    var folders, folderUnknown := CollectFolders(table, isWord, dirs);
    folderMap := PutEach([], Sort(folders, DeeperOrEqual));
    var fileUnknown;
    fileMap, fileUnknown := CollectFiles(table, isWord, files, folderMap);
    unknown := folderUnknown + fileUnknown;
  }

  // ---- What the plan promises ----

  /** Some entry passes `p` exactly when one before the last does or the last one does. */
  lemma ExistsSplit(s: seq<WalkEntry>, init: seq<WalkEntry>, p: WalkEntry -> bool)
    requires s != [] && init == s[..|s| - 1]
    ensures (exists i :: 0 <= i < |s| && p(s[i]))
            <==> (exists i :: 0 <= i < |init| && p(init[i])) || p(s[|s| - 1])
  {
    if exists i :: 0 <= i < |s| && p(s[i]) {
      var i :| 0 <= i < |s| && p(s[i]);
      if i < |init| {
        assert init[i] == s[i];
      }
    }
    if exists i :: 0 <= i < |init| && p(init[i]) {
      var i :| 0 <= i < |init| && p(init[i]);
      assert init[i] == s[i];
    }
  }

  /** `x` is the pair the scan records for directory `e`. */
  predicate FolderRecord(table: map<char, string>, isWord: char -> bool, e: WalkEntry, x: (string, string)) {
    HasCjk(e.name) && x == (RelPath(e), FolderTarget(table, isWord, e))
  }

  lemma {:induction false} FolderPairsMember(table: map<char, string>, isWord: char -> bool, dirs: seq<WalkEntry>, x: (string, string))
    ensures x in FolderPairs(table, isWord, dirs)
            <==> exists i :: 0 <= i < |dirs| && FolderRecord(table, isWord, dirs[i], x)
  {
    if dirs != [] {
      var init := dirs[..|dirs| - 1];
      var e := dirs[|dirs| - 1];
      FolderPairsMember(table, isWord, init, x);
      assert x in FolderPairs(table, isWord, dirs)
             <==> x in FolderPairs(table, isWord, init) || FolderRecord(table, isWord, e, x);
      ExistsSplit(dirs, init, (d: WalkEntry) => FolderRecord(table, isWord, d, x));
    }
  }

  /** A path is a key of the folder mapping exactly when the walk reported a directory at that
      path whose name holds a CJK character. */
  lemma FolderKeysAreCjkDirectories(table: map<char, string>, isWord: char -> bool, dirs: seq<WalkEntry>, k: string)
    ensures HasKey(FolderMapping(table, isWord, dirs), k)
            <==> exists i :: 0 <= i < |dirs| && HasCjk(dirs[i].name) && RelPath(dirs[i]) == k
  {
    var pairs := FolderPairs(table, isWord, dirs);
    var sorted := Sort(pairs, DeeperOrEqual);
    HasKeyPutAll([], sorted, k);
    HasKeyPermutation(sorted, pairs, k);
    if HasKey(pairs, k) {
      var j :| 0 <= j < |pairs| && pairs[j].0 == k;
      FolderPairsMember(table, isWord, dirs, pairs[j]);
    }
    if exists i :: 0 <= i < |dirs| && HasCjk(dirs[i].name) && RelPath(dirs[i]) == k {
      var i :| 0 <= i < |dirs| && HasCjk(dirs[i].name) && RelPath(dirs[i]) == k;
      var x := (RelPath(dirs[i]), FolderTarget(table, isWord, dirs[i]));
      FolderPairsMember(table, isWord, dirs, x);
      var j :| 0 <= j < |pairs| && pairs[j] == x;
    }
  }

  /** The keys appear in non-increasing separator depth. */
  predicate DeepestFirst(d: Dict<string>) {
    forall i, j :: 0 <= i < j < |d| ==> Count(d[i].0, '/') >= Count(d[j].0, '/')
  }

  lemma {:induction false} PutAllDeepestFirst(s: seq<(string, string)>)
    requires SortedBy(s, DeeperOrEqual)
    ensures DeepestFirst(PutAll([], s))
  {
    if s != [] {
      var init := s[..|s| - 1];
      var last := s[|s| - 1];
      assert SortedBy(init, DeeperOrEqual) by {
        forall i, j | 0 <= i < j < |init| ensures DeeperOrEqual(init[i], init[j]) {
          assert init[i] == s[i] && init[j] == s[j];
        }
      }
      PutAllDeepestFirst(init);
      var d := PutAll([], init);
      PutShape(d, last.0, last.1);
      if HasKey(d, last.0) {
        var e := Put(d, last.0, last.1);
        forall i, j | 0 <= i < j < |e| ensures Count(e[i].0, '/') >= Count(e[j].0, '/') {
          assert e[i].0 == Keys(e)[i] == Keys(d)[i] == d[i].0;
          assert e[j].0 == Keys(e)[j] == Keys(d)[j] == d[j].0;
        }
      } else {
        forall i | 0 <= i < |d| ensures Count(d[i].0, '/') >= Count(last.0, '/') {
          HasKeyPutAll([], init, d[i].0);
          assert HasKey(d, d[i].0);
          var j :| 0 <= j < |init| && init[j].0 == d[i].0;
          assert DeeperOrEqual(s[j], s[|s| - 1]);
        }
        var e := d + [last];
        forall i, j | 0 <= i < j < |e| ensures Count(e[i].0, '/') >= Count(e[j].0, '/') {
          if j < |d| {
            assert e[i] == d[i] && e[j] == d[j];
          } else {
            assert e[i] == d[i] && e[j] == last;
          }
        }
      }
    }
  }

  /** The folder mapping lists deeper directories first, so that renaming in its order never
      moves a directory whose subdirectories are still waiting. */
  lemma FolderMappingDeepestFirst(table: map<char, string>, isWord: char -> bool, dirs: seq<WalkEntry>)
    ensures DeepestFirst(FolderMapping(table, isWord, dirs))
  {
    assert TotalPreorder(DeeperOrEqual);
    SortSorted(FolderPairs(table, isWord, dirs), DeeperOrEqual);
    PutAllDeepestFirst(Sort(FolderPairs(table, isWord, dirs), DeeperOrEqual));
  }

  /** The new name of a recorded directory or file holds no `/` (Python's `\w` does not match it). */
  lemma NormalizedLeafHasNoSlash(table: map<char, string>, isWord: char -> bool, name: string)
    requires !isWord('/')
    ensures '/' !in NormalizeFilename(table, isWord, name).0
  {
    NormalizeFilenameShape(table, isWord, name);
    SplitExtShape(name);
    var ext := SplitExt(name).1;
    var r := NormalizeFilename(table, isWord, name).0;
    var kept := r[..|r| - |ext|];
    assert r == kept + ext;
    assert !NameChar(isWord, '/');
    assert '/' !in kept;
    assert '/' !in ext;
  }

  /** A directory keeps its parent and only its last component changes, to the normalized
      directory name. */
  lemma FolderTargetShape(table: map<char, string>, isWord: char -> bool, e: WalkEntry)
    requires WellFormed(e) && !isWord('/')
    ensures Dirname(RelPath(e)) == e.root && Basename(RelPath(e)) == e.name
    ensures Dirname(FolderTarget(table, isWord, e)) == e.root
    ensures Basename(FolderTarget(table, isWord, e)) == NormalizeFilename(table, isWord, e.name).0
  {
    DirnameBasenameJoin(e.root, e.name);
    NormalizedLeafHasNoSlash(table, isWord, e.name);
    DirnameBasenameJoin(e.root, NormalizeFilename(table, isWord, e.name).0);
  }

  /** The new path the scan gives a directory path: same parent, normalized last component. */
  function NewFolderPath(table: map<char, string>, isWord: char -> bool, path: string): string {
    PathJoin(Dirname(path), NormalizeFilename(table, isWord, Basename(path)).0)
  }

  /** Every value of the folder mapping is its key with the last component normalized. */
  lemma FolderMappingValues(table: map<char, string>, isWord: char -> bool, dirs: seq<WalkEntry>)
    requires forall i :: 0 <= i < |dirs| ==> WellFormed(dirs[i])
    ensures ValuesFollow(FolderMapping(table, isWord, dirs), k => NewFolderPath(table, isWord, k))
  {
    var f := k => NewFolderPath(table, isWord, k);
    var pairs := FolderPairs(table, isWord, dirs);
    var sorted := Sort(pairs, DeeperOrEqual);
    forall j | 0 <= j < |sorted| ensures sorted[j].1 == f(sorted[j].0) {
      assert sorted[j] in multiset(pairs);
      FolderPairsMember(table, isWord, dirs, sorted[j]);
      var i :| 0 <= i < |dirs| && FolderRecord(table, isWord, dirs[i], sorted[j]);
      DirnameBasenameJoin(dirs[i].root, dirs[i].name);
    }
    PutAllFollows([], sorted, f);
  }

  /** `x` is the pair the scan records for file `e`. */
  predicate FileRecord(table: map<char, string>, isWord: char -> bool, e: WalkEntry, folders: Dict<string>, x: (string, string)) {
    IsRecordedFile(e) && x == (RelPath(e), FileTarget(table, isWord, e, folders))
  }

  lemma {:induction false} FilePairsMember(table: map<char, string>, isWord: char -> bool, files: seq<WalkEntry>, folders: Dict<string>, x: (string, string))
    ensures x in FilePairs(table, isWord, files, folders)
            <==> exists i :: 0 <= i < |files| && FileRecord(table, isWord, files[i], folders, x)
  {
    if files != [] {
      var init := files[..|files| - 1];
      var e := files[|files| - 1];
      FilePairsMember(table, isWord, init, folders, x);
      assert x in FilePairs(table, isWord, files, folders)
             <==> x in FilePairs(table, isWord, init, folders) || FileRecord(table, isWord, e, folders, x);
      ExistsSplit(files, init, (d: WalkEntry) => FileRecord(table, isWord, d, folders, x));
    }
  }

  /** A path is a key of the file mapping exactly when the walk reported a file there whose
      name ends in one of the four audio extensions and holds a CJK character. */
  lemma FileKeysAreCjkAudioFiles(table: map<char, string>, isWord: char -> bool, files: seq<WalkEntry>, folders: Dict<string>, k: string)
    ensures HasKey(FileMapping(table, isWord, files, folders), k)
            <==> exists i :: 0 <= i < |files| && IsRecordedFile(files[i]) && RelPath(files[i]) == k
  {
    var pairs := FilePairs(table, isWord, files, folders);
    HasKeyPutAll([], pairs, k);
    if HasKey(pairs, k) {
      var j :| 0 <= j < |pairs| && pairs[j].0 == k;
      FilePairsMember(table, isWord, files, folders, pairs[j]);
    }
    if exists i :: 0 <= i < |files| && IsRecordedFile(files[i]) && RelPath(files[i]) == k {
      var i :| 0 <= i < |files| && IsRecordedFile(files[i]) && RelPath(files[i]) == k;
      var x := (RelPath(files[i]), FileTarget(table, isWord, files[i], folders));
      FilePairsMember(table, isWord, files, folders, x);
      var j :| 0 <= j < |pairs| && pairs[j] == x;
    }
  }

  /** The new path the scan gives a file path: its directory rebased, its name normalized. */
  function NewFilePath(table: map<char, string>, isWord: char -> bool, folders: Dict<string>, path: string): string {
    PathJoin(Rebase(Dirname(path), folders), NormalizeFilename(table, isWord, Basename(path)).0)
  }

  /** Every value of the file mapping is its key with the directory rebased and the name
      normalized. */
  lemma FileMappingValues(table: map<char, string>, isWord: char -> bool, files: seq<WalkEntry>, folders: Dict<string>)
    requires forall i :: 0 <= i < |files| ==> WellFormed(files[i])
    ensures ValuesFollow(FileMapping(table, isWord, files, folders), k => NewFilePath(table, isWord, folders, k))
  {
    var f := k => NewFilePath(table, isWord, folders, k);
    var pairs := FilePairs(table, isWord, files, folders);
    forall j | 0 <= j < |pairs| ensures pairs[j].1 == f(pairs[j].0) {
      FilePairsMember(table, isWord, files, folders, pairs[j]);
      var i :| 0 <= i < |files| && FileRecord(table, isWord, files[i], folders, pairs[j]);
      DirnameBasenameJoin(files[i].root, files[i].name);
    }
    PutAllFollows([], pairs, f);
  }

  /** The first key that prefixes the directory decides, and its first occurrence, at the
      start, is replaced. */
  lemma {:induction false} RebaseFirstMatch(dir: string, folders: Dict<string>, j: nat)
    requires j < |folders| && StartsWith(dir, folders[j].0)
    requires forall i :: 0 <= i < j ==> !StartsWith(dir, folders[i].0)
    ensures Rebase(dir, folders) == folders[j].1 + dir[|folders[j].0|..]
  {
    if j == 0 {
      ReplaceFirstAtStart(dir, folders[0].0, folders[0].1);
    } else {
      assert !StartsWith(dir, folders[0].0);
      forall i | 0 <= i < j - 1 ensures !StartsWith(dir, folders[1..][i].0) {
        assert folders[1..][i] == folders[i + 1];
      }
      RebaseFirstMatch(dir, folders[1..], j - 1);
    }
  }

  /** With no key prefixing it, the directory is kept. */
  lemma {:induction false} RebaseNoMatch(dir: string, folders: Dict<string>)
    requires forall i :: 0 <= i < |folders| ==> !StartsWith(dir, folders[i].0)
    ensures Rebase(dir, folders) == dir
  {
    if folders != [] {
      assert !StartsWith(dir, folders[0].0);
      forall i | 0 <= i < |folders[1..]| ensures !StartsWith(dir, folders[1..][i].0) {
        assert folders[1..][i] == folders[i + 1];
      }
      RebaseNoMatch(dir, folders[1..]);
    }
  }

  /** The prefix test is on strings, not path components: a renamed directory `音` also
      rewrites the unrelated sibling directory `音乐`. */
  lemma RebaseHitsSibling(dir: string, folders: Dict<string>)
    requires folders == [("音", "yin")] && dir == "音乐"
    ensures dir != folders[0].0 && !StartsWith(dir, folders[0].0 + "/")
    ensures Rebase(dir, folders) == "yin乐"
  {
    assert dir[..1] == folders[0].0;
    assert |dir| < |folders[0].0 + "/"| || dir[1] != '/';
    RebaseFirstMatch(dir, folders, 0);
    assert dir[1..] == "乐";
  }

  lemma {:induction false} FolderUnknownMember(table: map<char, string>, isWord: char -> bool, dirs: seq<WalkEntry>, c: char)
    ensures c in FolderUnknown(table, isWord, dirs)
            <==> exists i :: 0 <= i < |dirs| && HasCjk(dirs[i].name) && c in UnknownChars(table, SplitExt(dirs[i].name).0)
  {
    if dirs != [] {
      var init := dirs[..|dirs| - 1];
      FolderUnknownMember(table, isWord, init, c);
      forall i | 0 <= i < |init| ensures init[i] == dirs[i] { }
    }
  }

  lemma {:induction false} FileUnknownMember(table: map<char, string>, isWord: char -> bool, files: seq<WalkEntry>, c: char)
    ensures c in FileUnknown(table, isWord, files)
            <==> exists i :: 0 <= i < |files| && IsRecordedFile(files[i]) && c in UnknownChars(table, SplitExt(files[i].name).0)
  {
    if files != [] {
      var init := files[..|files| - 1];
      FileUnknownMember(table, isWord, init, c);
      forall i | 0 <= i < |init| ensures init[i] == files[i] { }
    }
  }
}
