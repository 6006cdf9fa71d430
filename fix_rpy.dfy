/** fix_rpy.py: reading the file renames back from the preview log, finding the script lines
    that mention an old name, and rewriting those lines in place. */
module FixRpy {
  import opened Text
  import opened Dicts
  import opened Sorting
  import RenameScript
  import FileSystem

  const Arrow := " -> "

  // ---- load_rename_mapping_from_log ----

  /** The lines a text-mode read yields: `\r\n` and a lone `\r` become `\n` first. The line
      ends themselves are dropped, which the `strip()` applied to every line removes anyway. */
  function LogLines(text: string): seq<string> {
    Split(ReplaceAll(ReplaceAll(text, "\r\n", "\n"), "\r", "\n"), "\n")
  }

  /** The pair one log line contributes: a stripped line that starts with `文件: ` and holds
      ` -> ` gives the two ` -> `-separated fields after that prefix, each stripped, when there
      are exactly two of them. */
  function ParseLogLine(raw: string): Option<(string, string)> {
    var line := Strip(raw);
    if StartsWith(line, RenameScript.FileLabel) && Contains(line, Arrow) then
      var parts := Split(line[4..], Arrow);
      if |parts| == 2 then Some((Strip(parts[0]), Strip(parts[1]))) else None
    else None
  }

  /** What each line yields, in order. */
  function Parsed(lines: seq<string>): seq<Option<(string, string)>> {
    seq(|lines|, i requires 0 <= i < |lines| => ParseLogLine(lines[i]))
  }

  /** The mapping after assigning the yielded pairs in order: a later pair for the same old
      name overrides an earlier one. */
  function Assigned(parsed: seq<Option<(string, string)>>): Dict<string> {
    if parsed == [] then []
    else
      var m := Assigned(parsed[..|parsed| - 1]);
      match parsed[|parsed| - 1]
      case Some(p) => Put(m, p.0, p.1)
      case None => m
  }

  /** The mapping read from the log's lines. */
  function Loaded(lines: seq<string>): Dict<string> {
    Assigned(Parsed(lines))
  }

  /** `load_rename_mapping_from_log`; `log` is the log's text, `None` when the file is missing. */
  method LoadRenameMappingFromLog(log: Option<string>) returns (mapping: Dict<string>)
    ensures log.None? ==> mapping == []
    ensures log.Some? ==> mapping == Loaded(LogLines(log.value))
  {
    mapping := [];
    if log.None? {
      return;
    }
    var lines := LogLines(log.value);
    ghost var parsed := Parsed(lines);
    for i := 0 to |lines|
      invariant mapping == Assigned(parsed[..i])
    {
      assert parsed[..i + 1][..i] == parsed[..i];
      var line := Strip(lines[i]);
      if StartsWith(line, RenameScript.FileLabel) && Contains(line, Arrow) {
        var parts := Split(line[4..], Arrow);
        if |parts| == 2 {
          var oldName, newName := Strip(parts[0]), Strip(parts[1]);
          mapping := Put(mapping, oldName, newName);
        }
      }
    }
    assert parsed[..|lines|] == parsed;
  }

  /** The yielded value is a pair for the old name `k`. */
  predicate YieldsKey(o: Option<(string, string)>, k: string) {
    o.Some? && o.value.0 == k
  }

  lemma {:induction false} AssignedGet(parsed: seq<Option<(string, string)>>, k: string)
    ensures Get(Assigned(parsed), k).Some? <==> exists i :: 0 <= i < |parsed| && YieldsKey(parsed[i], k)
    ensures forall i :: 0 <= i < |parsed| && YieldsKey(parsed[i], k) && (forall j :: i < j < |parsed| ==> !YieldsKey(parsed[j], k))
                        ==> Get(Assigned(parsed), k) == Some(parsed[i].value.1)
  {
    if parsed != [] {
      var init := parsed[..|parsed| - 1];
      var last := parsed[|parsed| - 1];
      AssignedGet(init, k);
      if last.Some? {
        GetPut(Assigned(init), last.value.0, last.value.1, k);
      }
      forall i | 0 <= i < |init| ensures init[i] == parsed[i] {
      }
      if Get(Assigned(parsed), k).Some? && !YieldsKey(last, k) {
        var i :| 0 <= i < |init| && YieldsKey(init[i], k);
        assert YieldsKey(parsed[i], k);
      }
    }
  }

  /** The line yields a pair for the old name `k`. */
  predicate Names(line: string, k: string) {
    YieldsKey(ParseLogLine(line), k)
  }

  /** An old name is in the mapping exactly when some line names it, and then its value is
      the one from the last line that names it. */
  lemma LoadedGet(lines: seq<string>, k: string)
    ensures Get(Loaded(lines), k).Some? <==> exists i :: 0 <= i < |lines| && Names(lines[i], k)
    ensures forall i :: 0 <= i < |lines| && Names(lines[i], k) && (forall j :: i < j < |lines| ==> !Names(lines[j], k))
                        ==> Get(Loaded(lines), k) == Some(ParseLogLine(lines[i]).value.1)
  {
    var parsed := Parsed(lines);
    AssignedGet(parsed, k);
    assert forall i :: 0 <= i < |lines| ==> parsed[i] == ParseLogLine(lines[i]);
  }

  /** The string has no white space at either end. */
  predicate Trimmed(s: string) {
    s == [] || (!IsSpace(s[0]) && !IsSpace(s[|s| - 1]))
  }

  /** The pair's log line reads back as the pair: no ` -> ` in either path, none formed by the
      end of the old path and the arrow, no white space at either end, and a new path that is
      not empty. */
  predicate LineSafe(p: (string, string)) {
    && !Contains(p.0, Arrow) && !EndsWith(p.0, " ->") && Trimmed(p.0)
    && !Contains(p.1, Arrow) && Trimmed(p.1) && p.1 != []
  }

  /** `p` occurs in `a + p + b`. */
  lemma {:induction false} ContainsMiddle(a: string, p: string, b: string)
    ensures Contains(a + p + b, p)
    decreases |a|
  {
    if a == [] {
      assert (a + p + b)[..|p|] == p;
    } else {
      ContainsMiddle(a[1..], p, b);
      assert (a + p + b)[1..] == a[1..] + p + b;
    }
  }

  lemma {:induction false} ShortNotContains(s: string, p: string)
    requires |s| < |p|
    ensures !Contains(s, p)
    decreases |s|
  {
    if s != [] {
      ShortNotContains(s[1..], p);
    }
  }

  /** An old path without ` -> ` that does not end in ` ->` has no ` -> ` straddling its end
      and the arrow. */
  lemma {:induction false} NoStraddle(a: string)
    requires !Contains(a, Arrow) && !EndsWith(a, " ->")
    ensures !Contains(a + " ->", Arrow)
    decreases |a|
  {
    var t := a + " ->";
    if a == [] {
      ShortNotContains(t, Arrow);
    } else {
      assert !EndsWith(a[1..], " ->") by {
        if |a[1..]| >= 3 {
          assert a[1..][|a[1..]| - 3..] == a[|a| - 3..];
        }
      }
      NoStraddle(a[1..]);
      assert t[1..] == a[1..] + " ->";
      assert !StartsWith(t, Arrow) by {
        if |a| >= 4 {
          assert t[..4] == a[..4];
          assert !StartsWith(a, Arrow);
        } else if |a| == 3 {
          assert a[|a| - 3..] == a;
          assert t[..4][..3] == a && Arrow[..3] == " ->";
        } else {
          assert t[..|a| + 2][|a| + 1] == '-' && Arrow[|a| + 1] != '-';
        }
      }
    }
  }

  /** Stripping a line that starts with something other than white space keeps its first `n`
      characters when the `n`-th of them is not white space either. */
  lemma {:induction false} StripKeepsHead(s: string, n: nat)
    requires 0 < n <= |s| && !IsSpace(s[0]) && !IsSpace(s[n - 1])
    ensures |Strip(s)| >= n && Strip(s)[..n] == s[..n]
    decreases |s|
  {
    assert LStrip(s) == s;
    if |s| > n && IsSpace(s[|s| - 1]) {
      StripKeepsHead(s[..|s| - 1], n);
      assert LStrip(s[..|s| - 1]) == s[..|s| - 1];
    }
  }

  /** A `文件: old -> new` line, as the preview log writes it, reads back as `(old, new)`. */
  lemma FileLineRoundTrip(p: (string, string))
    requires LineSafe(p)
    ensures ParseLogLine(RenameScript.EntryLine(RenameScript.FileLabel, p)) == Some(p)
  {
    var (o, n) := p;
    var body := RenameScript.FileLabel + o + Arrow + n;
    var line := RenameScript.EntryLine(RenameScript.FileLabel, p);
    assert line == body + "\n";
    assert LStrip(line) == line;
    assert RStrip(line) == RStrip(body) by {
      assert line[..|line| - 1] == body;
    }
    assert RStrip(body) == body;
    assert Strip(line) == body;
    assert StartsWith(body, RenameScript.FileLabel);
    ContainsMiddle(RenameScript.FileLabel + o, Arrow, n);
    assert body[4..] == o + Arrow + n;
    NoStraddle(o);
    assert o + Arrow[..3] == o + " ->";
    SplitAround(o, Arrow, n);
    SplitAbsent(n, Arrow);
    StripTrimmed(o);
    StripTrimmed(n);
  }

  /** A line that starts with `文件夹` is never read as a rename. */
  lemma FolderLineIgnored(raw: string)
    requires |raw| >= 3 && raw[..3] == "文件夹"
    ensures ParseLogLine(raw) == None
  {
    StripKeepsHead(raw, 3);
    assert Strip(raw)[2] == '夹';
  }

  /** Reading one more line assigns what it yields, if anything. */
  lemma LoadedSnoc(lines: seq<string>, line: string)
    ensures ParseLogLine(line).None? ==> Loaded(lines + [line]) == Loaded(lines)
    ensures ParseLogLine(line).Some? ==>
              Loaded(lines + [line]) == Put(Loaded(lines), ParseLogLine(line).value.0, ParseLogLine(line).value.1)
  {
    var parsed := Parsed(lines + [line]);
    assert parsed[..|lines|] == Parsed(lines);
    assert parsed[|lines|] == ParseLogLine(line);
  }

  /** The folder lines and then the file lines of the preview log, read back, give the file
      pairs in order, each assigned in turn. */
  lemma {:induction false} LogRoundTrip(folders: seq<(string, string)>, files: seq<(string, string)>)
    requires forall i :: 0 <= i < |files| ==> LineSafe(files[i])
    ensures Loaded(RenameScript.EntryLines(RenameScript.FolderLabel, folders)
                   + RenameScript.EntryLines(RenameScript.FileLabel, files)) == PutAll([], files)
  {
    var a := RenameScript.EntryLines(RenameScript.FolderLabel, folders);
    var b := RenameScript.EntryLines(RenameScript.FileLabel, files);
    if files == [] {
      assert a + b == a;
      FolderLinesIgnored(folders);
    } else {
      var init := files[..|files| - 1];
      var last := files[|files| - 1];
      LogRoundTrip(folders, init);
      var shorter := a + RenameScript.EntryLines(RenameScript.FileLabel, init);
      var line := RenameScript.EntryLine(RenameScript.FileLabel, last);
      assert a + b == shorter + [line];
      FileLineRoundTrip(last);
      LoadedSnoc(shorter, line);
    }
  }

  lemma {:induction false} FolderLinesIgnored(folders: seq<(string, string)>)
    ensures Loaded(RenameScript.EntryLines(RenameScript.FolderLabel, folders)) == []
  {
    var a := RenameScript.EntryLines(RenameScript.FolderLabel, folders);
    if folders != [] {
      FolderLinesIgnored(folders[..|folders| - 1]);
      var line := a[|a| - 1];
      assert a == RenameScript.EntryLines(RenameScript.FolderLabel, folders[..|folders| - 1]) + [line];
      assert line[..3] == "文件夹";
      FolderLineIgnored(line);
      LoadedSnoc(a[..|a| - 1], line);
    }
  }

  /** A line whose first character is neither white space nor `文` is never read as a rename. */
  lemma OtherLineIgnored(raw: string)
    requires |raw| > 0 && !IsSpace(raw[0]) && raw[0] != '文'
    ensures ParseLogLine(raw) == None
  {
    StripKeepsHead(raw, 1);
  }

  /** Neither is a line break followed by such a line. */
  lemma BreakLineIgnored(raw: string)
    requires |raw| > 1 && raw[0] == '\n' && !IsSpace(raw[1]) && raw[1] != '文'
    ensures ParseLogLine(raw) == None
  {
    assert Strip(raw) == Strip(raw[1..]);
    OtherLineIgnored(raw[1..]);
  }

  /** Lines that yield nothing leave the mapping as it is. */
  lemma {:induction false} LoadedIgnored(pre: seq<string>, ignored: seq<string>)
    requires YieldNothing(ignored)
    ensures Loaded(pre + ignored) == Loaded(pre)
  {
    if ignored == [] {
      assert pre + ignored == pre;
    } else {
      var init := ignored[..|ignored| - 1];
      LoadedIgnored(pre, init);
      assert pre + ignored == (pre + init) + [ignored[|ignored| - 1]];
      LoadedSnoc(pre + init, ignored[|ignored| - 1]);
    }
  }

  /** Folder lines after any lines leave the mapping as it is. */
  lemma LoadedFolderLines(pre: seq<string>, folders: seq<(string, string)>)
    ensures Loaded(pre + RenameScript.EntryLines(RenameScript.FolderLabel, folders)) == Loaded(pre)
  {
    var a := RenameScript.EntryLines(RenameScript.FolderLabel, folders);
    forall i | 0 <= i < |a| ensures ParseLogLine(a[i]).None? {
      assert a[i][..3] == "文件夹";
      FolderLineIgnored(a[i]);
    }
    LoadedIgnored(pre, a);
  }

  lemma EntryLinesSnoc(kind: string, pairs: seq<(string, string)>, x: (string, string))
    ensures RenameScript.EntryLines(kind, pairs + [x])
            == RenameScript.EntryLines(kind, pairs) + [RenameScript.EntryLine(kind, x)]
  {
  }

  /** File lines after any lines assign their pairs in order. */
  lemma {:induction false} LoadedFileLines(pre: seq<string>, files: seq<(string, string)>)
    requires forall i :: 0 <= i < |files| ==> LineSafe(files[i])
    ensures Loaded(pre + RenameScript.EntryLines(RenameScript.FileLabel, files)) == PutAll(Loaded(pre), files)
  {
    if files == [] {
      assert pre + RenameScript.EntryLines(RenameScript.FileLabel, files) == pre;
    } else {
      var init := files[..|files| - 1];
      var last := files[|files| - 1];
      assert files == init + [last];
      LoadedFileLines(pre, init);
      var shorter := pre + RenameScript.EntryLines(RenameScript.FileLabel, init);
      var line := RenameScript.EntryLine(RenameScript.FileLabel, last);
      EntryLinesSnoc(RenameScript.FileLabel, init, last);
      assert pre + RenameScript.EntryLines(RenameScript.FileLabel, files) == shorter + [line];
      FileLineRoundTrip(last);
      LoadedSnoc(shorter, line);
      PutAllSnoc(Loaded(pre), init, last);
    }
  }

  /** No line of `lines` is read as a rename. */
  predicate YieldNothing(lines: seq<string>) {
    forall i :: 0 <= i < |lines| ==> ParseLogLine(lines[i]).None?
  }

  /** The header and the warning yield nothing. */
  lemma HeadIgnored(warn: bool, listed: seq<char>)
    ensures YieldNothing(RenameScript.HeadChunks(warn, listed))
  {
    OtherLineIgnored(RenameScript.PreviewHeader);
    if warn {
      var w := RenameScript.WarningChunks(listed);
      OtherLineIgnored(w[0]);
      OtherLineIgnored(w[1]);
    }
  }

  /** The totals yield nothing. */
  lemma TotalsIgnored(folderCount: nat, fileCount: nat)
    ensures YieldNothing(RenameScript.TotalChunks(folderCount, fileCount))
  {
    var totals := RenameScript.TotalChunks(folderCount, fileCount);
    BreakLineIgnored(totals[0]);
    OtherLineIgnored(totals[1]);
  }

  /** Chunks that yield nothing, folder lines, file lines and again chunks that yield nothing
      read back as the file pairs in order. */
  lemma EntryChunksRoundTrip(head: seq<string>, folders: seq<(string, string)>, files: seq<(string, string)>, tail: seq<string>)
    requires YieldNothing(head) && YieldNothing(tail)
    requires forall i :: 0 <= i < |files| ==> LineSafe(files[i])
    ensures Loaded(head + RenameScript.EntryLines(RenameScript.FolderLabel, folders)
                   + RenameScript.EntryLines(RenameScript.FileLabel, files) + tail) == PutAll([], files)
  {
    var folderLines := RenameScript.EntryLines(RenameScript.FolderLabel, folders);
    var fileLines := RenameScript.EntryLines(RenameScript.FileLabel, files);
    LoadedIgnored([], head);
    assert [] + head == head;
    LoadedFolderLines(head, folders);
    LoadedFileLines(head + folderLines, files);
    LoadedIgnored(head + folderLines + fileLines, tail);
  }

  /** The whole preview log of `generate_preview_log`, read back, gives the file pairs of the
      scan in order: the header, the warning about missing characters, the folder lines and
      the totals yield nothing. */
  lemma PreviewLogRoundTrip(table: map<char, string>, dirs: seq<FileSystem.WalkEntry>, files: seq<FileSystem.WalkEntry>, listed: seq<char>)
    requires forall p :: p in RenameScript.RenamePairs(table, files) ==> LineSafe(p)
    ensures Loaded(RenameScript.PreviewContent(table, dirs, files, listed)) == PutAll([], RenameScript.RenamePairs(table, files))
  {
    var warn := RenameScript.MissingChars(table, dirs) + RenameScript.MissingChars(table, files) != {};
    var folderRenames := RenameScript.RenamePairs(table, dirs);
    var fileRenames := RenameScript.RenamePairs(table, files);
    HeadIgnored(warn, listed);
    TotalsIgnored(|folderRenames|, |fileRenames|);
    forall i | 0 <= i < |fileRenames| ensures LineSafe(fileRenames[i]) {
      assert fileRenames[i] in fileRenames;
    }
    EntryChunksRoundTrip(RenameScript.HeadChunks(warn, listed), folderRenames, fileRenames,
                         RenameScript.TotalChunks(|folderRenames|, |fileRenames|));
  }

  /** A rename to an empty name is logged as `文件: 中 -> `, which strips to a line without
      ` -> ` and so is not read back. */
  lemma EmptyNewNameNotRead()
    ensures ParseLogLine(RenameScript.EntryLine(RenameScript.FileLabel, ("中", ""))) == None
  {
    var line := RenameScript.EntryLine(RenameScript.FileLabel, ("中", ""));
    assert line == "文件: 中 -> \n";
    StripEmptyTarget();
    NoArrowLeft();
  }

  lemma StripEmptyTarget()
    ensures Strip("文件: 中 -> \n") == "文件: 中 ->"
  {
    var body := "文件: 中 ->";
    var line := body + " \n";
    assert line == "文件: 中 -> \n";
    assert LStrip(line) == line;
    assert line[..|line| - 1] == body + " ";
    assert (body + " ")[..|body|] == body;
    assert RStrip(line) == RStrip(body + " ") == RStrip(body);
    assert RStrip(body) == body;
  }

  lemma NoArrowLeft()
    ensures !Contains("文件: 中 ->", Arrow)
  {
    var body := "文件: 中 ->";
    assert body[5..] == " ->";
    ShortNotContains(body[5..], Arrow);
    assert body[4..][1..] == body[5..];
    assert body[3..][1..] == body[4..] && body[3..][1] != Arrow[1];
    assert body[2..][1..] == body[3..];
    assert body[1..][1..] == body[2..];
  }

  // ---- scan_rpy_files ----

  /** One record of a file's update list: `line_num` (1-based), `old_line` and `new_line`. The
      number is an `int` because `update_rpy_files` takes whatever the mapping file holds. */
  datatype LineUpdate = LineUpdate(lineNum: int, oldLine: string, newLine: string)

  /** Some old name of the mapping occurs in the line. */
  predicate Mentions(line: string, mapping: Dict<string>) {
    exists i :: 0 <= i < |mapping| && Contains(line, mapping[i].0)
  }

  /** The rewritten line: for each mapping entry in order whose old name occurs in the
      original line, every occurrence in the text rewritten so far is replaced. */
  function Rewritten(line: string, mapping: Dict<string>): string {
    if mapping == [] then line
    else
      var prev := Rewritten(line, mapping[..|mapping| - 1]);
      var e := mapping[|mapping| - 1];
      if Contains(line, e.0) then ReplaceAll(prev, e.0, e.1) else prev
  }

  /** The inner loop of `scan_rpy_files` over the mapping for one line. */
  method RewriteLine(line: string, mapping: Dict<string>) returns (updatedLine: string, lineChanged: bool)
    ensures updatedLine == Rewritten(line, mapping)
    ensures lineChanged == Mentions(line, mapping)
  {
    updatedLine, lineChanged := line, false;
    for i := 0 to |mapping|
      invariant updatedLine == Rewritten(line, mapping[..i])
      invariant lineChanged <==> exists j :: 0 <= j < i && Contains(line, mapping[j].0)
    {
      assert mapping[..i + 1][..i] == mapping[..i];
      var oldFilename, newFilename := mapping[i].0, mapping[i].1;
      if Contains(line, oldFilename) {
        updatedLine := ReplaceAll(updatedLine, oldFilename, newFilename);
        lineChanged := true;
      }
    }
    assert mapping[..|mapping|] == mapping;
  }

  /** A line whose text mentions no old name comes out as it went in. */
  lemma {:induction false} RewrittenUnmentioned(line: string, mapping: Dict<string>)
    requires !Mentions(line, mapping)
    ensures Rewritten(line, mapping) == line
  {
    if mapping != [] {
      var init := mapping[..|mapping| - 1];
      assert !Mentions(line, init) by {
        forall j | 0 <= j < |init| ensures !Contains(line, init[j].0) {
          assert init[j] == mapping[j];
        }
      }
      RewrittenUnmentioned(line, init);
    }
  }

  /** The records for a file's lines: one for each line that mentions an old name, numbered
      from 1, with the line and its rewrite both stripped. */
  function ScanLines(lines: seq<string>, mapping: Dict<string>): seq<LineUpdate> {
    if lines == [] then []
    else
      var prev := ScanLines(lines[..|lines| - 1], mapping);
      var line := lines[|lines| - 1];
      if Mentions(line, mapping) then prev + [LineUpdate(|lines|, Strip(line), Strip(Rewritten(line, mapping)))]
      else prev
  }

  /** The loop of `scan_rpy_files` over one file's lines. */
  method ScanFileLines(lines: seq<string>, mapping: Dict<string>) returns (updates: seq<LineUpdate>)
    ensures updates == ScanLines(lines, mapping)
  {
    updates := [];
    for i := 0 to |lines|
      invariant updates == ScanLines(lines[..i], mapping)
    {
      assert lines[..i + 1][..i] == lines[..i];
      var line := lines[i];
      var updatedLine, lineChanged := RewriteLine(line, mapping);
      if lineChanged {
        updates := updates + [LineUpdate(i + 1, Strip(line), Strip(updatedLine))];
      }
    }
    assert lines[..|lines|] == lines;
  }

  /** The record is about line `lineNum` of `lines`: that line mentions an old name, and the
      record holds it and its rewrite, both stripped. */
  predicate Describes(lines: seq<string>, mapping: Dict<string>, u: LineUpdate) {
    && 1 <= u.lineNum <= |lines|
    && Mentions(lines[u.lineNum - 1], mapping)
    && u.oldLine == Strip(lines[u.lineNum - 1])
    && u.newLine == Strip(Rewritten(lines[u.lineNum - 1], mapping))
  }

  /** Every record describes its line, and the line numbers strictly increase. */
  lemma {:induction false} ScanLinesSound(lines: seq<string>, mapping: Dict<string>)
    ensures forall k :: 0 <= k < |ScanLines(lines, mapping)| ==> Describes(lines, mapping, ScanLines(lines, mapping)[k])
    ensures forall k, l :: 0 <= k < l < |ScanLines(lines, mapping)| ==>
              ScanLines(lines, mapping)[k].lineNum < ScanLines(lines, mapping)[l].lineNum
  {
    if lines != [] {
      var init := lines[..|lines| - 1];
      ScanLinesSound(init, mapping);
      var prev := ScanLines(init, mapping);
      forall k | 0 <= k < |prev| ensures Describes(lines, mapping, prev[k]) && prev[k].lineNum <= |init| {
        DescribesExtend(lines, mapping, prev[k]);
      }
    }
  }

  /** A record about the lines without the last one is a record about all of them. */
  lemma DescribesExtend(lines: seq<string>, mapping: Dict<string>, u: LineUpdate)
    requires lines != [] && Describes(lines[..|lines| - 1], mapping, u)
    ensures Describes(lines, mapping, u) && u.lineNum <= |lines| - 1
  {
    assert lines[u.lineNum - 1] == lines[..|lines| - 1][u.lineNum - 1];
  }

  /** Every line that mentions an old name has a record, whatever its rewrite is. */
  lemma {:induction false} ScanLinesComplete(lines: seq<string>, mapping: Dict<string>, i: nat)
    requires i < |lines| && Mentions(lines[i], mapping)
    ensures exists k :: 0 <= k < |ScanLines(lines, mapping)| && ScanLines(lines, mapping)[k].lineNum == i + 1
  {
    var init := lines[..|lines| - 1];
    var r := ScanLines(lines, mapping);
    if i < |init| {
      assert init[i] == lines[i];
      ScanLinesComplete(init, mapping, i);
      var k :| 0 <= k < |ScanLines(init, mapping)| && ScanLines(init, mapping)[k].lineNum == i + 1;
      assert r[k] == ScanLines(init, mapping)[k];
    } else {
      assert r[|r| - 1].lineNum == i + 1;
    }
  }

  /** A line is recorded even when its rewrite gives back the same text. */
  lemma RecordedUnchanged()
    ensures ScanLines(["a\n"], [("a", "a")]) == [LineUpdate(1, "a", "a")]
  {
    var mapping := [("a", "a")];
    assert "a\n"[..1] == "a";
    assert Contains("a\n", mapping[0].0);
    assert Mentions("a\n", mapping);
    assert ReplaceAll("a\n", "a", "a") == "a\n" by {
      assert "a\n"[..1] == "a";
      assert "a\n"[1..] == "\n";
    }
    assert mapping[..0] == [];
    assert Rewritten("a\n", mapping) == "a\n";
    assert ["a\n"][..0] == [];
  }

  /** A file the walk of the script directory lists: its directory, its name, and its lines as
      `readlines()` gives them, `None` when reading it fails. */
  datatype RpyFile = RpyFile(root: string, name: string, lines: Option<seq<string>>)

  /** The file's records when it is a readable `.rpy` file, `[]` otherwise. */
  function FileRecords(f: RpyFile, mapping: Dict<string>): seq<LineUpdate> {
    if EndsWith(f.name, ".rpy") && f.lines.Some? then ScanLines(f.lines.value, mapping) else []
  }

  /** `rpy_updates`: each file with at least one record, keyed by its path, in walk order. */
  function ScanResult(files: seq<RpyFile>, mapping: Dict<string>): Dict<seq<LineUpdate>> {
    if files == [] then []
    else
      var prev := ScanResult(files[..|files| - 1], mapping);
      var f := files[|files| - 1];
      var records := FileRecords(f, mapping);
      if records != [] then Put(prev, PathJoin(f.root, f.name), records) else prev
  }

  /** `scan_rpy_files`; `pathExists` says whether the script directory exists. */
  method ScanRpyFiles(pathExists: bool, files: seq<RpyFile>, mapping: Dict<string>) returns (rpyUpdates: Dict<seq<LineUpdate>>)
    ensures !pathExists ==> rpyUpdates == []
    ensures pathExists ==> rpyUpdates == ScanResult(files, mapping)
  {
    rpyUpdates := [];
    if !pathExists {
      return;
    }
    for i := 0 to |files|
      invariant rpyUpdates == ScanResult(files[..i], mapping)
    {
      assert files[..i + 1][..i] == files[..i];
      var f := files[i];
      if EndsWith(f.name, ".rpy") {
        var filePath := PathJoin(f.root, f.name);
        if f.lines.Some? {
          var updates := ScanFileLines(f.lines.value, mapping);
          if updates != [] {
            rpyUpdates := Put(rpyUpdates, filePath, updates);
          }
        }
      }
    }
    assert files[..|files|] == files;
  }

  /** Every entry of `Put(d, k, v)` is `(k, v)` or an entry of `d`. */
  lemma {:induction false} PutEntries<V>(d: Dict<V>, k: string, v: V)
    ensures forall i :: 0 <= i < |Put(d, k, v)| ==> Put(d, k, v)[i] == (k, v) || Put(d, k, v)[i] in d
  {
    if d != [] && d[0].0 != k {
      PutEntries(d[1..], k, v);
      assert forall x :: x in d[1..] ==> x in d;
    }
  }

  /** Only readable `.rpy` files appear, each with its own non-empty record list. */
  lemma {:induction false} ScanResultSound(files: seq<RpyFile>, mapping: Dict<string>, e: (string, seq<LineUpdate>))
    requires e in ScanResult(files, mapping)
    ensures e.1 != []
    ensures exists i :: 0 <= i < |files| && EndsWith(files[i].name, ".rpy") && files[i].lines.Some?
                        && e == (PathJoin(files[i].root, files[i].name), ScanLines(files[i].lines.value, mapping))
  {
    var init := files[..|files| - 1];
    var f := files[|files| - 1];
    var prev := ScanResult(init, mapping);
    var records := FileRecords(f, mapping);
    if records != [] {
      PutEntries(prev, PathJoin(f.root, f.name), records);
    }
    if e in prev {
      ScanResultSound(init, mapping, e);
      var i :| 0 <= i < |init| && EndsWith(init[i].name, ".rpy") && init[i].lines.Some?
               && e == (PathJoin(init[i].root, init[i].name), ScanLines(init[i].lines.value, mapping));
      assert files[i] == init[i];
    } else {
      assert e == (PathJoin(f.root, f.name), records);
    }
  }

  // ---- generate_rpy_mapping ----

  /** `generate_rpy_mapping`: it succeeds only when the log gives some rename, the scan finds
      some file to update, and the mapping file is written (`writeOk`). */
  method GenerateRpyMapping(log: Option<string>, pathExists: bool, files: seq<RpyFile>, writeOk: bool)
    returns (ok: bool, rpyUpdates: Dict<seq<LineUpdate>>)
    ensures var mapping := if log.Some? then Loaded(LogLines(log.value)) else [];
            && rpyUpdates == (if mapping != [] && pathExists then ScanResult(files, mapping) else [])
            && ok == (mapping != [] && rpyUpdates != [] && writeOk)
  {
    var renameMapping := LoadRenameMappingFromLog(log);
    if renameMapping == [] {
      return false, [];
    }
    rpyUpdates := ScanRpyFiles(pathExists, files, renameMapping);
    if rpyUpdates == [] {
      return false, rpyUpdates;
    }
    ok := writeOk;
  }

  // ---- update_rpy_files ----

  /** `sorted(updates, key=line_num, reverse=True)`: higher numbers first; the sort is stable,
      so equal numbers keep their order. */
  predicate LaterFirst(a: LineUpdate, b: LineUpdate) {
    a.lineNum >= b.lineNum
  }

  /** The position `lines[i] = …` writes in a list of `n` lines, for `i < n`: a negative `i`
      counts from the end, and one below `-n` is an `IndexError` (`None`). */
  function Slot(i: int, n: nat): (k: Option<nat>)
    requires i < n
    ensures k.Some? ==> k.value < n
    ensures k.None? <==> i < -(n as int)
  {
    if i >= 0 then Some(i) else if i >= -(n as int) then Some(n + i) else None
  }

  /** The lines, the number of updates applied, and whether an `IndexError` ended the loop. */
  datatype Applied = Applied(lines: seq<string>, count: nat, failed: bool)

  /** The update loop on one file's lines, in the given order: an update whose index
      `line_num - 1` is not below the number of lines is skipped; otherwise its line becomes
      `new_line + '\n'`, or the loop stops at an `IndexError`. */
  function ApplyAll(lines: seq<string>, updates: seq<LineUpdate>): (r: Applied)
    ensures |r.lines| == |lines|
  {
    if updates == [] then Applied(lines, 0, false)
    else
      var prev := ApplyAll(lines, updates[..|updates| - 1]);
      var u := updates[|updates| - 1];
      var i := u.lineNum - 1;
      if prev.failed || i >= |prev.lines| then prev
      else
        match Slot(i, |prev.lines|)
        case None => Applied(prev.lines, prev.count, true)
        case Some(k) => Applied(prev.lines[k := u.newLine + "\n"], prev.count + 1, false)
  }

  /** Once the loop has stopped, later updates change nothing. */
  lemma {:induction false} FailedStops(lines: seq<string>, updates: seq<LineUpdate>, n: nat)
    requires n <= |updates| && ApplyAll(lines, updates[..n]).failed
    ensures ApplyAll(lines, updates) == ApplyAll(lines, updates[..n])
    decreases |updates| - n
  {
    if n < |updates| {
      assert updates[..|updates| - 1][..n] == updates[..n];
      FailedStops(lines, updates[..|updates| - 1], n);
    } else {
      assert updates[..n] == updates;
    }
  }

  /** The update loop of `update_rpy_files` on one file's lines, in place. */
  method ApplyUpdates(lines: array<string>, updates: seq<LineUpdate>) returns (count: nat, failed: bool)
    modifies lines
    ensures Applied(lines[..], count, failed) == ApplyAll(old(lines[..]), Sort(updates, LaterFirst))
  {
    var ordered := Sort(updates, LaterFirst);
    count, failed := 0, false;
    var i := 0;
    while i < |ordered| && !failed
      invariant 0 <= i <= |ordered|
      invariant Applied(lines[..], count, failed) == ApplyAll(old(lines[..]), ordered[..i])
    {
      assert ordered[..i + 1][..i] == ordered[..i];
      var lineNum := ordered[i].lineNum - 1;
      if lineNum < lines.Length {
        if lineNum < -lines.Length {
          failed := true;
        } else {
          var k := if lineNum >= 0 then lineNum else lines.Length + lineNum;
          lines[k] := ordered[i].newLine + "\n";
          count := count + 1;
        }
      }
      i := i + 1;
    }
    if failed {
      FailedStops(old(lines[..]), ordered, i);
    } else {
      assert ordered[..i] == ordered;
    }
  }

  /** The loop stops exactly when some update's index is below minus the number of lines. */
  lemma {:induction false} ApplyAllFails(lines: seq<string>, updates: seq<LineUpdate>)
    ensures ApplyAll(lines, updates).failed <==> exists i :: 0 <= i < |updates| && updates[i].lineNum - 1 < -|lines|
  {
    if updates != [] {
      var init := updates[..|updates| - 1];
      ApplyAllFails(lines, init);
      forall i | 0 <= i < |init| ensures init[i] == updates[i] {
      }
    }
  }

  /** The update lands on line `k`. */
  predicate Targets(u: LineUpdate, n: nat, k: nat) {
    u.lineNum - 1 < n && Slot(u.lineNum - 1, n) == Some(k)
  }

  /** A line no update targets keeps its text. */
  lemma {:induction false} ApplyAllUntargeted(lines: seq<string>, updates: seq<LineUpdate>, k: nat)
    requires k < |lines|
    requires forall i :: 0 <= i < |updates| ==> !Targets(updates[i], |lines|, k)
    ensures ApplyAll(lines, updates).lines[k] == lines[k]
  {
    if updates != [] {
      var init := updates[..|updates| - 1];
      forall i | 0 <= i < |init| ensures !Targets(init[i], |lines|, k) {
        assert init[i] == updates[i];
      }
      ApplyAllUntargeted(lines, init, k);
    }
  }

  /** The update's index is below the number of lines: the guard lets it through. */
  predicate InRange(n: nat, u: LineUpdate) {
    u.lineNum - 1 < n
  }

  /** Without an `IndexError`, the count is the number of updates the guard lets through. */
  lemma {:induction false} ApplyAllCount(lines: seq<string>, updates: seq<LineUpdate>)
    requires !ApplyAll(lines, updates).failed
    ensures ApplyAll(lines, updates).count == |Filter(updates, u => InRange(|lines|, u))|
  {
    if updates != [] {
      var init := updates[..|updates| - 1];
      var u := updates[|updates| - 1];
      assert !ApplyAll(lines, init).failed;
      ApplyAllCount(lines, init);
      FilterAppend(init, [u], u => InRange(|lines|, u));
      assert init + [u] == updates;
    }
  }

  /** With numbers from 1 up and no two alike, the loop never fails and each update within
      the file sets line `line_num - 1` to its `new_line` plus a line end. */
  lemma {:induction false} ApplyAllTargets(lines: seq<string>, updates: seq<LineUpdate>)
    requires forall i :: 0 <= i < |updates| ==> updates[i].lineNum >= 1
    requires forall i, j :: 0 <= i < j < |updates| ==> updates[i].lineNum != updates[j].lineNum
    ensures !ApplyAll(lines, updates).failed
    ensures forall i :: 0 <= i < |updates| && updates[i].lineNum <= |lines| ==>
              ApplyAll(lines, updates).lines[updates[i].lineNum - 1] == updates[i].newLine + "\n"
  {
    if updates != [] {
      var init := updates[..|updates| - 1];
      var u := updates[|updates| - 1];
      ApplyAllTargets(lines, init);
      var prev := ApplyAll(lines, init);
      var r := ApplyAll(lines, updates);
      var last := u.lineNum - 1;
      assert !prev.failed && |prev.lines| == |lines|;
      if last < |lines| {
        assert Slot(last, |lines|) == Some(last);
        assert r.lines == prev.lines[last := u.newLine + "\n"];
      } else {
        assert r == prev;
      }
      forall i | 0 <= i < |updates| && updates[i].lineNum <= |lines|
        ensures r.lines[updates[i].lineNum - 1] == updates[i].newLine + "\n"
      {
        if i < |init| {
          assert init[i] == updates[i];
          assert updates[i].lineNum != u.lineNum;
          assert prev.lines[updates[i].lineNum - 1] == updates[i].newLine + "\n";
        } else {
          assert updates[i] == u;
        }
      }
    }
  }

  /** An update numbered 0 writes the last line (index -1), and on a file without lines it
      raises `IndexError`. */
  lemma NumberZeroWritesLastLine(a: string, b: string)
    ensures ApplyAll([a, b], [LineUpdate(0, "", "x")]) == Applied([a, "x\n"], 1, false)
    ensures ApplyAll([], [LineUpdate(0, "", "x")]).failed
  {
    var u := LineUpdate(0, "", "x");
    assert [u][..0] == [];
    assert ApplyAll([a, b], []) == Applied([a, b], 0, false);
    assert Slot(-1, 2) == Some(1);
    assert u.newLine + "\n" == "x\n";
    assert [a, b][1 := "x\n"] == [a, "x\n"];
    var none: seq<string> := [];
    assert ApplyAll(none, [u][..0]) == Applied(none, 0, false);
    assert Slot(-1, 0) == None;
  }

  /** The script files on disk: each readable file as its list of lines, and the files that
      can be opened for writing. */
  class RpyStore {
    var files: map<string, seq<string>>
    var writable: set<string>

    constructor (initial: map<string, seq<string>>, canWrite: set<string>)
      ensures files == initial && writable == canWrite
    {
      files := initial;
      writable := canWrite;
    }
  }

  /** The files after processing `rpyUpdates` in order, the files written and the lines
      updated: a file that cannot be read is skipped; one whose loop hits an `IndexError`, or
      that cannot be opened for writing, is not written, but the updates already applied to its
      lines are counted. */
  function UpdateAll(files: map<string, seq<string>>, writable: set<string>, rpyUpdates: Dict<seq<LineUpdate>>): (map<string, seq<string>>, nat, nat)
  {
    if rpyUpdates == [] then (files, 0, 0)
    else UpdateEntry(writable, UpdateAll(files, writable, rpyUpdates[..|rpyUpdates| - 1]), rpyUpdates[|rpyUpdates| - 1])
  }

  /** One entry of the mapping file, after the files and counts `prev`. */
  function UpdateEntry(writable: set<string>, prev: (map<string, seq<string>>, nat, nat), e: (string, seq<LineUpdate>)): (map<string, seq<string>>, nat, nat)
  {
    if e.0 !in prev.0 then prev
    else
      var r := ApplyAll(prev.0[e.0], Sort(e.1, LaterFirst));
      if r.failed || e.0 !in writable then (prev.0, prev.1, prev.2 + r.count)
      else (prev.0[e.0 := r.lines], prev.1 + 1, prev.2 + r.count)
  }

  /** One more entry of the mapping file. */
  lemma UpdateAllSnoc(files: map<string, seq<string>>, writable: set<string>, rpyUpdates: Dict<seq<LineUpdate>>, e: (string, seq<LineUpdate>))
    ensures UpdateAll(files, writable, rpyUpdates + [e]) == UpdateEntry(writable, UpdateAll(files, writable, rpyUpdates), e)
  {
    assert (rpyUpdates + [e])[..|rpyUpdates|] == rpyUpdates;
  }

  /** One file of `update_rpy_files`: its lines are read into a list, which the update loop
      changes in place. */
  method UpdateFileLines(content: seq<string>, updates: seq<LineUpdate>) returns (newLines: seq<string>, count: nat, failed: bool)
    ensures Applied(newLines, count, failed) == ApplyAll(content, Sort(updates, LaterFirst))
  {
    var lines := new string[|content|](k requires 0 <= k < |content| => content[k]);
    assert lines[..] == content;
    count, failed := ApplyUpdates(lines, updates);
    newLines := lines[..];
  }

  /** The body of the loop of `update_rpy_files` for one entry of the mapping file. */
  method ProcessEntry(files: map<string, seq<string>>, writable: set<string>, updatedFiles: nat, updatedLines: nat, e: (string, seq<LineUpdate>))
    returns (files': map<string, seq<string>>, updatedFiles': nat, updatedLines': nat)
    ensures (files', updatedFiles', updatedLines') == UpdateEntry(writable, (files, updatedFiles, updatedLines), e)
  {
    files', updatedFiles', updatedLines' := files, updatedFiles, updatedLines;
    var filePath, updates := e.0, e.1;
    if filePath in files {
      var newLines, count, failed := UpdateFileLines(files[filePath], updates);
      updatedLines' := updatedLines + count;
      if !failed && filePath in writable {
        files' := files[filePath := newLines];
        updatedFiles' := updatedFiles + 1;
      }
    }
  }

  /** `update_rpy_files`; `rpyUpdates` is the mapping file's content, `None` when it is missing
      or cannot be read. */
  method UpdateRpyFiles(store: RpyStore, rpyUpdates: Option<Dict<seq<LineUpdate>>>) returns (updatedFiles: nat, updatedLines: nat)
    modifies store
    ensures store.writable == old(store.writable)
    ensures rpyUpdates.None? ==> store.files == old(store.files) && updatedFiles == 0 && updatedLines == 0
    ensures rpyUpdates.Some? ==>
              (store.files, updatedFiles, updatedLines) == UpdateAll(old(store.files), store.writable, rpyUpdates.value)
  {
    updatedFiles, updatedLines := 0, 0;
    if rpyUpdates.None? {
      return;
    }
    var all := rpyUpdates.value;
    var initial, writable := store.files, store.writable;
    var files := initial;
    for i := 0 to |all|
      invariant store.writable == writable
      invariant (files, updatedFiles, updatedLines) == UpdateAll(initial, writable, all[..i])
    {
      UpdateAllSnoc(initial, writable, all[..i], all[i]);
      assert all[..i + 1] == all[..i] + [all[i]];
      files, updatedFiles, updatedLines := ProcessEntry(files, writable, updatedFiles, updatedLines, all[i]);
    }
    assert all[..|all|] == all;
    store.files := files;
  }

  /** Only writable files named in the mapping file change, every file keeps its number of
      lines, and at most one file is written per entry. */
  lemma {:induction false} UpdateAllFrame(files: map<string, seq<string>>, writable: set<string>, rpyUpdates: Dict<seq<LineUpdate>>)
    ensures UpdateAll(files, writable, rpyUpdates).0.Keys == files.Keys
    ensures forall p :: p in files ==> |UpdateAll(files, writable, rpyUpdates).0[p]| == |files[p]|
    ensures forall p :: p in files && !HasKey(rpyUpdates, p) ==> UpdateAll(files, writable, rpyUpdates).0[p] == files[p]
    ensures forall p :: p in files && p !in writable ==> UpdateAll(files, writable, rpyUpdates).0[p] == files[p]
    ensures UpdateAll(files, writable, rpyUpdates).1 <= |rpyUpdates|
  {
    if rpyUpdates != [] {
      var init := rpyUpdates[..|rpyUpdates| - 1];
      UpdateAllFrame(files, writable, init);
      forall p | !HasKey(rpyUpdates, p) ensures !HasKey(init, p) {
      }
    }
  }

  /** A reordering holds the same records: each one of one sequence is one of the other. */
  lemma PermutedMembers(s: seq<LineUpdate>, t: seq<LineUpdate>)
    requires multiset(s) == multiset(t)
    ensures forall i :: 0 <= i < |t| ==> exists a :: 0 <= a < |s| && s[a] == t[i]
    ensures forall a :: 0 <= a < |s| ==> exists i :: 0 <= i < |t| && t[i] == s[a]
  {
    forall i | 0 <= i < |t| ensures exists a :: 0 <= a < |s| && s[a] == t[i] {
      assert t[i] in multiset(s);
    }
    forall a | 0 <= a < |s| ensures exists i :: 0 <= i < |t| && t[i] == s[a] {
      assert s[a] in multiset(t);
    }
  }

  /** Reordering records numbered strictly increasingly gives records with distinct numbers. */
  lemma PermutedDistinct(s: seq<LineUpdate>, t: seq<LineUpdate>)
    requires multiset(s) == multiset(t)
    requires forall k, l :: 0 <= k < l < |s| ==> s[k].lineNum < s[l].lineNum
    ensures forall i, j :: 0 <= i < j < |t| ==> t[i].lineNum != t[j].lineNum
  {
    forall i, j | 0 <= i < j < |t| ensures t[i].lineNum != t[j].lineNum {
      DistinctNumbersOnce(s, t[i]);
      TwoOccurrences(t, i, j);
      assert t[i] in multiset(s) && t[j] in multiset(s);
      var a :| 0 <= a < |s| && s[a] == t[i];
      var b :| 0 <= b < |s| && s[b] == t[j];
    }
  }

  /** The sorted records of a scan: numbers within `1..|lines|`, pairwise distinct. */
  lemma SortedRecordNumbers(lines: seq<string>, mapping: Dict<string>)
    ensures forall i :: 0 <= i < |Sort(ScanLines(lines, mapping), LaterFirst)| ==>
              1 <= Sort(ScanLines(lines, mapping), LaterFirst)[i].lineNum <= |lines|
    ensures forall i, j :: 0 <= i < j < |Sort(ScanLines(lines, mapping), LaterFirst)| ==>
              Sort(ScanLines(lines, mapping), LaterFirst)[i].lineNum
              != Sort(ScanLines(lines, mapping), LaterFirst)[j].lineNum
  {
    var records := ScanLines(lines, mapping);
    var sorted := Sort(records, LaterFirst);
    ScanLinesSound(lines, mapping);
    PermutedMembers(records, sorted);
    PermutedDistinct(records, sorted);
    forall i | 0 <= i < |sorted| ensures 1 <= sorted[i].lineNum <= |lines| {
      var a :| 0 <= a < |records| && records[a] == sorted[i];
      assert Describes(lines, mapping, records[a]);
    }
  }

  /** The sorted record for a line that mentions an old name. */
  lemma SortedRecordFor(lines: seq<string>, mapping: Dict<string>, k: nat)
    requires k < |lines| && Mentions(lines[k], mapping)
    ensures exists i :: 0 <= i < |Sort(ScanLines(lines, mapping), LaterFirst)|
                        && Sort(ScanLines(lines, mapping), LaterFirst)[i]
                           == LineUpdate(k + 1, Strip(lines[k]), Strip(Rewritten(lines[k], mapping)))
  {
    var records := ScanLines(lines, mapping);
    ScanLinesComplete(lines, mapping, k);
    var m :| 0 <= m < |records| && records[m].lineNum == k + 1;
    ScanLinesDescribes(lines, mapping, m);
    SortedKeeps(records, m);
  }

  lemma ScanLinesDescribes(lines: seq<string>, mapping: Dict<string>, m: nat)
    requires m < |ScanLines(lines, mapping)|
    ensures Describes(lines, mapping, ScanLines(lines, mapping)[m])
  {
    ScanLinesSound(lines, mapping);
  }

  lemma SortedKeeps(records: seq<LineUpdate>, m: nat)
    requires m < |records|
    ensures exists i :: 0 <= i < |Sort(records, LaterFirst)| && Sort(records, LaterFirst)[i] == records[m]
  {
    assert records[m] in multiset(Sort(records, LaterFirst));
  }

  /** Record numbers never exceed the number of lines. */
  lemma {:induction false} ScanLinesBounded(lines: seq<string>, mapping: Dict<string>)
    ensures forall r :: r in ScanLines(lines, mapping) ==> r.lineNum <= |lines|
  {
    if lines != [] {
      ScanLinesBounded(lines[..|lines| - 1], mapping);
    }
  }

  /** No record is numbered for a line that mentions no old name. */
  lemma {:induction false} ScanLinesUnmentioned(lines: seq<string>, mapping: Dict<string>, k: nat)
    requires k < |lines| && !Mentions(lines[k], mapping)
    ensures forall r :: r in ScanLines(lines, mapping) ==> r.lineNum != k + 1
  {
    var init := lines[..|lines| - 1];
    if k < |init| {
      assert init[k] == lines[k];
      ScanLinesUnmentioned(init, mapping, k);
    } else {
      ScanLinesBounded(init, mapping);
    }
  }

  /** No sorted record is numbered for a line that mentions no old name. */
  lemma SortedRecordNone(lines: seq<string>, mapping: Dict<string>, k: nat)
    requires k < |lines| && !Mentions(lines[k], mapping)
    ensures forall i :: 0 <= i < |Sort(ScanLines(lines, mapping), LaterFirst)| ==>
              Sort(ScanLines(lines, mapping), LaterFirst)[i].lineNum != k + 1
  {
    var records := ScanLines(lines, mapping);
    var sorted := Sort(records, LaterFirst);
    ScanLinesUnmentioned(lines, mapping, k);
    forall i | 0 <= i < |sorted| ensures sorted[i].lineNum != k + 1 {
      assert sorted[i] in multiset(records);
    }
  }

  /** With numbers within `1..|lines|` and no two alike, every update is applied. */
  lemma ApplyAllInRange(lines: seq<string>, updates: seq<LineUpdate>)
    requires forall i :: 0 <= i < |updates| ==> 1 <= updates[i].lineNum <= |lines|
    requires forall i, j :: 0 <= i < j < |updates| ==> updates[i].lineNum != updates[j].lineNum
    ensures !ApplyAll(lines, updates).failed && ApplyAll(lines, updates).count == |updates|
  {
    ApplyAllTargets(lines, updates);
    ApplyAllCount(lines, updates);
    FilterAll(updates, u => InRange(|lines|, u));
  }

  /** Scanning a file and then applying its records to the same lines never fails and counts
      one update per record. */
  lemma ScanThenUpdateCount(lines: seq<string>, mapping: Dict<string>)
    ensures var r := ApplyAll(lines, Sort(ScanLines(lines, mapping), LaterFirst));
            !r.failed && r.count == |ScanLines(lines, mapping)|
  {
    var records := ScanLines(lines, mapping);
    var sorted := Sort(records, LaterFirst);
    SortedRecordNumbers(lines, mapping);
    ApplyAllInRange(lines, sorted);
    assert |multiset(sorted)| == |multiset(records)|;
  }

  /** A line an update numbers, among updates with distinct positive numbers, ends up with
      that update's text and a line end. */
  lemma ApplyAllAt(lines: seq<string>, updates: seq<LineUpdate>, i: nat, k: nat)
    requires forall j :: 0 <= j < |updates| ==> updates[j].lineNum >= 1
    requires forall j, l :: 0 <= j < l < |updates| ==> updates[j].lineNum != updates[l].lineNum
    requires i < |updates| && k < |lines| && updates[i].lineNum == k + 1
    ensures ApplyAll(lines, updates).lines[k] == updates[i].newLine + "\n"
  {
    ApplyAllTargets(lines, updates);
  }

  /** A line no update numbers, among updates numbered within `1..|lines|`, keeps its text. */
  lemma ApplyAllNoneAt(lines: seq<string>, updates: seq<LineUpdate>, k: nat)
    requires forall j :: 0 <= j < |updates| ==> 1 <= updates[j].lineNum <= |lines|
    requires k < |lines| && forall j :: 0 <= j < |updates| ==> updates[j].lineNum != k + 1
    ensures ApplyAll(lines, updates).lines[k] == lines[k]
  {
    forall j | 0 <= j < |updates| ensures !Targets(updates[j], |lines|, k) {
      assert Slot(updates[j].lineNum - 1, |lines|) == Some(updates[j].lineNum - 1);
    }
    ApplyAllUntargeted(lines, updates, k);
  }

  /** Scanning a file and then applying its records to the same lines rewrites exactly the
      lines that mention an old name, each to its stripped rewrite plus a line end. */
  lemma ScanThenUpdate(lines: seq<string>, mapping: Dict<string>, k: nat)
    requires k < |lines|
    ensures ApplyAll(lines, Sort(ScanLines(lines, mapping), LaterFirst)).lines[k]
            == if Mentions(lines[k], mapping) then Strip(Rewritten(lines[k], mapping)) + "\n" else lines[k]
  {
    var sorted := Sort(ScanLines(lines, mapping), LaterFirst);
    SortedRecordNumbers(lines, mapping);
    if Mentions(lines[k], mapping) {
      SortedRecordFor(lines, mapping, k);
      var i :| 0 <= i < |sorted| && sorted[i] == LineUpdate(k + 1, Strip(lines[k]), Strip(Rewritten(lines[k], mapping)));
      ApplyAllAt(lines, sorted, i, k);
    } else {
      SortedRecordNone(lines, mapping, k);
      ApplyAllNoneAt(lines, sorted, k);
    }
  }

  /** Records with strictly increasing numbers occur once each. */
  lemma {:induction false} DistinctNumbersOnce(records: seq<LineUpdate>, x: LineUpdate)
    requires forall k, l :: 0 <= k < l < |records| ==> records[k].lineNum < records[l].lineNum
    ensures multiset(records)[x] <= 1
  {
    if records != [] {
      var rest := records[1..];
      assert forall k, l :: 0 <= k < l < |rest| ==> rest[k].lineNum < rest[l].lineNum by {
        forall k, l | 0 <= k < l < |rest| ensures rest[k].lineNum < rest[l].lineNum {
          assert rest[k] == records[k + 1] && rest[l] == records[l + 1];
        }
      }
      DistinctNumbersOnce(rest, x);
      assert records == [records[0]] + rest;
      assert records[0] !in rest by {
        forall k | 0 <= k < |rest| ensures rest[k] != records[0] {
          assert rest[k] == records[k + 1];
        }
      }
    }
  }

  /** A filter that keeps everything keeps the whole sequence. */
  lemma {:induction false} FilterAll<T>(s: seq<T>, keep: T -> bool)
    requires forall i :: 0 <= i < |s| ==> keep(s[i])
    ensures Filter(s, keep) == s
  {
    if s != [] {
      FilterAll(s[1..], keep);
    }
  }
}
