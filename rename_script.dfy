/** rename.py, `symbols_to_remove`: the characters its `normalize_filename` deletes. */
module RenameSymbols {
  /** `symbols_to_remove`. The four quote entries of its first line are the curly quotes
      U+201C, U+201D, U+2018 and U+2019. The entry `——` has two characters, so the one-character membership test never
      meets it. */
  const SymbolsToRemove: set<string> :=
    Punctuation + Brackets + Marks + {"\U{3000}"} + FullWidthSigns + FullWidthBraces + {" "}

  const Punctuation: set<string> :=
    {"\U{FF0C}", "\U{3002}", "\U{FF1F}", "\U{FF01}", "\U{FF1A}", "\U{FF1B}", "\U{3001}",
     "\U{201C}", "\U{201D}", "\U{2018}", "\U{2019}"}
  const Brackets: set<string> :=
    {"\U{3010}", "\U{3011}", "\U{FF08}", "\U{FF09}", "\U{3014}", "\U{3015}", "\U{300A}", "\U{300B}", "\U{3008}", "\U{3009}"}
  const Marks: set<string> :=
    {"\U{2026}", "\U{2014}\U{2014}", "\U{FF5E}", "\U{B7}", "\U{FF0B}", "\U{FF0D}", "\U{FF1D}", "\U{FF1C}", "\U{FF1E}"}
  const FullWidthSigns: set<string> :=
    {"\U{FF0F}", "\U{FF3C}", "\U{FF5C}", "\U{FF03}", "\U{FF04}", "\U{FF05}", "\U{FF06}", "\U{FF0A}"}
  const FullWidthBraces: set<string> :=
    {"\U{FFE5}", "\U{FF20}", "\U{FF3E}", "\U{FF40}", "\U{FF5B}", "\U{FF5D}", "\U{FF3B}", "\U{FF3D}"}

  /** The same groups as characters, leaving out the two-character entries. */
  const PunctuationChars: set<char> :=
    {'\U{FF0C}', '\U{3002}', '\U{FF1F}', '\U{FF01}', '\U{FF1A}', '\U{FF1B}', '\U{3001}',
     '\U{201C}', '\U{201D}', '\U{2018}', '\U{2019}'}
  const BracketChars: set<char> :=
    {'\U{3010}', '\U{3011}', '\U{FF08}', '\U{FF09}', '\U{3014}', '\U{3015}', '\U{300A}', '\U{300B}', '\U{3008}', '\U{3009}'}
  const MarkChars: set<char> :=
    {'\U{2026}', '\U{FF5E}', '\U{B7}', '\U{FF0B}', '\U{FF0D}', '\U{FF1D}', '\U{FF1C}', '\U{FF1E}'}
  const FullWidthSignChars: set<char> :=
    {'\U{FF0F}', '\U{FF3C}', '\U{FF5C}', '\U{FF03}', '\U{FF04}', '\U{FF05}', '\U{FF06}', '\U{FF0A}'}
  const FullWidthBraceChars: set<char> :=
    {'\U{FFE5}', '\U{FF20}', '\U{FF3E}', '\U{FF40}', '\U{FF5B}', '\U{FF5D}', '\U{FF3B}', '\U{FF3D}'}

  /** The characters whose one-character string is in `SymbolsToRemove`. */
  predicate SymbolChar(c: char) {
    || c == '\U{FF0C}' || c == '\U{3002}' || c == '\U{FF1F}' || c == '\U{FF01}' || c == '\U{FF1A}'
    || c == '\U{FF1B}' || c == '\U{3001}' || c == '\U{201C}' || c == '\U{201D}' || c == '\U{2018}'
    || c == '\U{2019}'
    || c == '\U{3010}' || c == '\U{3011}' || c == '\U{FF08}' || c == '\U{FF09}' || c == '\U{3014}'
    || c == '\U{3015}' || c == '\U{300A}' || c == '\U{300B}' || c == '\U{3008}' || c == '\U{3009}'
    || c == '\U{2026}' || c == '\U{FF5E}' || c == '\U{B7}' || c == '\U{FF0B}' || c == '\U{FF0D}'
    || c == '\U{FF1D}' || c == '\U{FF1C}' || c == '\U{FF1E}'
    || c == '\U{3000}'
    || c == '\U{FF0F}' || c == '\U{FF3C}' || c == '\U{FF5C}' || c == '\U{FF03}' || c == '\U{FF04}'
    || c == '\U{FF05}' || c == '\U{FF06}' || c == '\U{FF0A}'
    || c == '\U{FFE5}' || c == '\U{FF20}' || c == '\U{FF3E}' || c == '\U{FF40}' || c == '\U{FF5B}'
    || c == '\U{FF5D}' || c == '\U{FF3B}' || c == '\U{FF3D}'
    || c == ' '
  }

  lemma PunctuationMatch(c: char) ensures [c] in Punctuation <==> c in PunctuationChars {}
  lemma BracketMatch(c: char) ensures [c] in Brackets <==> c in BracketChars {}
  lemma MarkMatch(c: char) ensures [c] in Marks <==> c in MarkChars {
    assert |"\U{2014}\U{2014}"| == 2;
  }
  lemma FullWidthSignMatch(c: char) ensures [c] in FullWidthSigns <==> c in FullWidthSignChars {}
  lemma FullWidthBraceMatch(c: char) ensures [c] in FullWidthBraces <==> c in FullWidthBraceChars {}

  /** The test `char in symbols_to_remove` on one character. */
  lemma SymbolCharMatch(c: char)
    ensures [c] in SymbolsToRemove <==> SymbolChar(c)
  {
    PunctuationMatch(c);
    BracketMatch(c);
    MarkMatch(c);
    FullWidthSignMatch(c);
    FullWidthBraceMatch(c);
  }

  /** The characters the scan deletes one at a time: `…` and the one-character symbols. */
  predicate Dropped(c: char) {
    c == '\U{2026}' || SymbolChar(c)
  }
}

/** rename.py: its own `normalize_filename` (an index-driven scan that drops punctuation and
    ellipses), `normalize_path`, the decisions of `generate_preview_log` and the renaming
    order and counting of `rename_files`. The dictionary is a `map<char, string>` parameter;
    it is only ever consulted one character at a time. */
module RenameScript {
  import opened Text
  import opened Sorting
  import opened FileSystem
  import opened Dicts
  import AudioNames
  import AudioScan
  import opened RenameSymbols

  /** What a kept character becomes: a CJK ideograph its dictionary entry (or itself), any
      other character itself, even when the dictionary has an entry for it. */
  function CharOut(table: map<char, string>, c: char): string {
    if IsCjk(c) && c in table then table[c] else [c]
  }

  /** The text starts with the three-dot ellipsis `...`. */
  predicate EllipsisAhead(s: string) {
    |s| >= 3 && s[0] == '.' && s[1] == '.' && s[2] == '.'
  }

  /** The cleaned stem, read left to right: a `...` run is deleted as a unit, a dropped
      character is deleted, every other character is emitted through `CharOut`. */
  function CleanStem(table: map<char, string>, s: string): string
    decreases |s|
  {
    if s == [] then []
    else if EllipsisAhead(s) then CleanStem(table, s[3..])
    else if Dropped(s[0]) then CleanStem(table, s[1..])
    else CharOut(table, s[0]) + CleanStem(table, s[1..])
  }

  /** The name `normalize_filename` returns: the cleaned stem and the extension verbatim. */
  function NormalizedName(table: map<char, string>, filename: string): string {
    CleanStem(table, SplitExt(filename).0) + SplitExt(filename).1
  }

  /** One step of the scan at index `i`, in the three cases the loop distinguishes. */
  lemma CleanStemAt(table: map<char, string>, s: string, i: nat)
    requires i < |s|
    ensures (s[i] == '.' && i + 2 < |s| && s[i..i + 3] == "...") == EllipsisAhead(s[i..])
    ensures EllipsisAhead(s[i..]) ==> CleanStem(table, s[i..]) == CleanStem(table, s[i + 3..])
    ensures !EllipsisAhead(s[i..]) && Dropped(s[i]) ==> CleanStem(table, s[i..]) == CleanStem(table, s[i + 1..])
    ensures !EllipsisAhead(s[i..]) && !Dropped(s[i]) ==>
              CleanStem(table, s[i..]) == CharOut(table, s[i]) + CleanStem(table, s[i + 1..])
  {
    var t := s[i..];
    assert t[0] == s[i] && t[1..] == s[i + 1..];
    if i + 2 < |s| {
      assert t[3..] == s[i + 3..];
      assert s[i..i + 3] == "..." <==> s[i] == '.' && s[i + 1] == '.' && s[i + 2] == '.';
    }
  }

  lemma ConcatPush(parts: seq<string>, p: string)
    ensures Concat(parts + [p]) == Concat(parts) + p
  {
    assert (parts + [p])[..|parts|] == parts;
  }

  lemma AppendAssoc(a: string, b: string, c: string)
    ensures (a + b) + c == a + (b + c)
  {
  }

  /** `normalize_filename` */
  method NormalizeFilename(table: map<char, string>, filename: string) returns (r: string)
    ensures r == NormalizedName(table, filename)
  {
    var stem, ext := SplitExt(filename).0, SplitExt(filename).1;
    var result := ScanStem(table, stem);
    r := Concat(result) + ext;
  }

  /** The test `char in symbols_to_remove`. */
  method IsSymbol(c: char) returns (b: bool)
    ensures b == SymbolChar(c)
  {
    SymbolCharMatch(c);
    b := [c] in SymbolsToRemove;
  }

  /** Appending a piece moves it from the text still to come to the pieces gathered. */
  lemma PushPiece(parts: seq<string>, piece: string, rest: string, whole: string)
    requires Concat(parts) + (piece + rest) == whole
    ensures Concat(parts + [piece]) + rest == whole
  {
    ConcatPush(parts, piece);
    AppendAssoc(Concat(parts), piece, rest);
  }

  /** One turn of the `while` loop of `normalize_filename` at index `i`: the index it moves
      to, and the piece it appends, if any. */
  method ScanStep(table: map<char, string>, stem: string, i: nat) returns (next: nat, kept: bool, piece: string)
    requires i < |stem|
    ensures i < next <= |stem|
    ensures kept ==> CleanStem(table, stem[i..]) == piece + CleanStem(table, stem[next..])
    ensures !kept ==> CleanStem(table, stem[i..]) == CleanStem(table, stem[next..])
  {
    var c := stem[i];
    CleanStemAt(table, stem, i);
    next, kept, piece := i + 1, false, [];
    var ellipsis := c == '.' && i + 2 < |stem| && stem[i..i + 3] == "...";
    if ellipsis {
      next := i + 3;
      return;
    } else if c == '\U{2026}' {
      return;
    }
    var symbol := IsSymbol(c);
    if symbol {
      return;
    }
    if IsCjk(c) {
      piece := if c in table then table[c] else [c];
    } else {
      piece := [c];
    }
    kept := true;
  }

  /** The `while` loop of `normalize_filename` over the stem: the pieces it appends. */
  method ScanStem(table: map<char, string>, stem: string) returns (result: seq<string>)
    ensures Concat(result) == CleanStem(table, stem)
  {
    result := [];
    var i := 0;
    while i < |stem|
      invariant 0 <= i <= |stem|
      invariant Concat(result) + CleanStem(table, stem[i..]) == CleanStem(table, stem)
      decreases |stem| - i
    {
      var next, kept, piece := ScanStep(table, stem, i);
      if kept {
        PushPiece(result, piece, CleanStem(table, stem[next..]), CleanStem(table, stem));
        result := result + [piece];
      }
      i := next;
    }
    assert stem[|stem|..] == [];
  }

  // ---- What the scan promises ----

  /** The extension comes back verbatim and only the stem is transformed. */
  lemma NameKeepsExtension(table: map<char, string>, filename: string)
    ensures EndsWith(NormalizedName(table, filename), SplitExt(filename).1)
    ensures var r := NormalizedName(table, filename);
            r[..|r| - |SplitExt(filename).1|] == CleanStem(table, SplitExt(filename).0)
  {
  }

  function Dots(n: nat): string {
    seq(n, _ => '.')
  }

  /** Runs of three dots go as units from the left, so a run of `n` dots leaves `n % 3`:
      `....` keeps one dot and a lone `.` is kept. */
  lemma {:induction false} DotRuns(table: map<char, string>, n: nat)
    ensures CleanStem(table, Dots(n)) == Dots(n % 3)
    decreases n
  {
    if n >= 3 {
      DotsEllipsis(n);
      DotRuns(table, n - 3);
      assert (n - 3) % 3 == n % 3;
    } else if n > 0 {
      DotsHead(n);
      DotRuns(table, n - 1);
    }
  }

  lemma DotsEllipsis(n: nat)
    requires n >= 3
    ensures EllipsisAhead(Dots(n)) && Dots(n)[3..] == Dots(n - 3)
  {
  }

  lemma DotsHead(n: nat)
    requires 0 < n < 3
    ensures !EllipsisAhead(Dots(n)) && Dots(n) == ['.'] + Dots(n - 1) && Dots(n)[1..] == Dots(n - 1)
  {
  }

  /** `....` becomes `.`. */
  lemma FourDotsKeepOne(table: map<char, string>)
    ensures CleanStem(table, "....") == "."
  {
    DotRuns(table, 4);
    assert Dots(4) == "....";
    assert Dots(1) == ".";
  }

  /** A single em dash is not in the set (only the two-character `——` is), so it survives;
      so does a pair of them, read one character at a time. */
  lemma EmDashSurvives(table: map<char, string>)
    ensures CleanStem(table, "\U{2014}") == "\U{2014}"
    ensures CleanStem(table, "\U{2014}\U{2014}") == "\U{2014}\U{2014}"
  {
    var d := '\U{2014}';
    assert !Dropped(d) && !IsCjk(d);
    var two := "\U{2014}\U{2014}";
    assert two[1..] == [d];
  }

  /** Without dots the scan works character by character: the result for `a + b` is the
      result for `a` followed by the result for `b`. */
  lemma {:induction false} CleanStemConcat(table: map<char, string>, a: string, b: string)
    requires '.' !in a
    ensures CleanStem(table, a + b) == CleanStem(table, a) + CleanStem(table, b)
    decreases |a|
  {
    if a == [] {
      assert a + b == b;
    } else {
      var ab := a + b;
      assert ab[0] == a[0] && ab[1..] == a[1..] + b;
      assert a[0] != '.';
      assert !EllipsisAhead(ab) && !EllipsisAhead(a);
      assert '.' !in a[1..];
      CleanStemConcat(table, a[1..], b);
      AppendAssoc(CharOut(table, a[0]), CleanStem(table, a[1..]), CleanStem(table, b));
    }
  }

  /** One character on its own: a dropped character vanishes, a CJK ideograph becomes its
      dictionary entry or stays, and any other character stays, dictionary entry or not. */
  lemma CleanStemChar(table: map<char, string>, c: char)
    ensures CleanStem(table, [c]) == if Dropped(c) then "" else CharOut(table, c)
  {
  }

  /** A character of the cleaned stem is a character of the stem that was not looked up (not a
      CJK ideograph with an entry), or a character of the entry of a CJK ideograph. */
  lemma {:induction false} CleanStemChars(table: map<char, string>, s: string, x: char)
    requires x in CleanStem(table, s)
    ensures (x in s && !(IsCjk(x) && x in table)) || exists c :: c in table && IsCjk(c) && x in table[c]
    decreases |s|
  {
    if s != [] {
      if EllipsisAhead(s) {
        CleanStemChars(table, s[3..], x);
        if x in s[3..] { SuffixChars(s, 3, x); }
      } else if Dropped(s[0]) || x !in CharOut(table, s[0]) {
        CleanStemChars(table, s[1..], x);
        if x in s[1..] { SuffixChars(s, 1, x); }
      } else if !(IsCjk(s[0]) && s[0] in table) {
        assert x == s[0];
      }
    }
  }

  lemma SuffixChars(s: string, k: nat, x: char)
    requires k <= |s| && x in s[k..]
    ensures x in s
  {
    var j :| 0 <= j < |s[k..]| && s[k..][j] == x;
    assert s[j + k] == x;
  }

  /** With dictionary entries free of them, no dropped character is left in the cleaned stem. */
  lemma {:induction false} CleanStemDropsAll(table: map<char, string>, s: string, x: char)
    requires forall c :: c in table ==> forall k :: 0 <= k < |table[c]| ==> !Dropped(table[c][k])
    requires x in CleanStem(table, s)
    ensures !Dropped(x)
    decreases |s|
  {
    if s != [] {
      if s[0] == '.' && |s| >= 3 && s[..3] == "..." {
        CleanStemDropsAll(table, s[3..], x);
      } else if Dropped(s[0]) {
        CleanStemDropsAll(table, s[1..], x);
      } else if x in CharOut(table, s[0]) {
        if IsCjk(s[0]) && s[0] in table {
          var k :| 0 <= k < |table[s[0]]| && table[s[0]][k] == x;
        }
      } else {
        CleanStemDropsAll(table, s[1..], x);
      }
    }
  }

  /** Under a dictionary whose entries hold no CJK ideograph, a stem whose ideographs all have
      entries comes out without any ideograph. */
  lemma CleanStemNoCjk(table: map<char, string>, s: string)
    requires forall c :: c in table && IsCjk(c) ==> !HasCjk(table[c])
    requires forall i :: 0 <= i < |s| && IsCjk(s[i]) ==> s[i] in table
    ensures !HasCjk(CleanStem(table, s))
  {
    var r := CleanStem(table, s);
    forall i | 0 <= i < |r| ensures !IsCjk(r[i]) {
      var x := r[i];
      CleanStemChars(table, s, x);
      if exists c :: c in table && IsCjk(c) && x in table[c] {
        var c :| c in table && IsCjk(c) && x in table[c];
        var k :| 0 <= k < |table[c]| && table[c][k] == x;
      }
    }
  }

  // ---- normalize_path, nested in generate_preview_log ----

  /** The new name of every non-empty component, in order. */
  function NormalizedParts(table: map<char, string>, parts: seq<string>): seq<string> {
    if parts == [] then []
    else
      var init := NormalizedParts(table, parts[..|parts| - 1]);
      var part := parts[|parts| - 1];
      if part != [] then init + [NormalizedName(table, part)] else init
  }

  function NormalizedPath(table: map<char, string>, path: string): string {
    JoinWith(NormalizedParts(table, Split(path, "/")), "/")
  }

  /** `normalize_path` */
  method NormalizePath(table: map<char, string>, path: string) returns (r: string)
    ensures r == NormalizedPath(table, path)
  {
    var parts := Split(path, "/");
    var normalizedParts: seq<string> := [];
    for i := 0 to |parts|
      invariant normalizedParts == NormalizedParts(table, parts[..i])
    {
      assert parts[..i + 1][..i] == parts[..i];
      var part := parts[i];
      if part != [] {
        var n := NormalizeFilename(table, part);
        normalizedParts := normalizedParts + [n];
      }
    }
    assert parts[..|parts|] == parts;
    r := JoinWith(normalizedParts, "/");
  }

  predicate NonEmpty(part: string) {
    part != []
  }

  /** The normalized components are the non-empty components, each normalized on its own. */
  lemma {:induction false} NormalizedPartsAreNames(table: map<char, string>, parts: seq<string>)
    ensures var kept := Filter(parts, NonEmpty);
            && |NormalizedParts(table, parts)| == |kept|
            && forall k :: 0 <= k < |kept| ==> NormalizedParts(table, parts)[k] == NormalizedName(table, kept[k])
  {
    if parts != [] {
      var init, part := parts[..|parts| - 1], parts[|parts| - 1];
      NormalizedPartsAreNames(table, init);
      assert init + [part] == parts;
      FilterAppend(init, [part], NonEmpty);
      assert Filter([part], NonEmpty) == if part != [] then [part] else [] by {
        assert [part][1..] == [];
      }
      if part != [] {
        PartsStep(table, NormalizedParts(table, init), Filter(init, NonEmpty), part);
      }
    }
  }

  lemma PartsStep(table: map<char, string>, prev: seq<string>, kept: seq<string>, part: string)
    requires |prev| == |kept| && forall k :: 0 <= k < |kept| ==> prev[k] == NormalizedName(table, kept[k])
    ensures var prev', kept' := prev + [NormalizedName(table, part)], kept + [part];
            |prev'| == |kept'| && forall k :: 0 <= k < |kept'| ==> prev'[k] == NormalizedName(table, kept'[k])
  {
  }

  /** A name without `/` keeps none, when no dictionary entry holds one. */
  lemma NormalizedNameNoSlash(table: map<char, string>, name: string)
    requires forall c :: c in table ==> '/' !in table[c]
    requires '/' !in name
    ensures '/' !in NormalizedName(table, name)
  {
    var stem, ext := SplitExt(name).0, SplitExt(name).1;
    SplitExtShape(name);
    assert '/' !in stem && '/' !in ext;
    if '/' in CleanStem(table, stem) {
      CleanStemChars(table, stem, '/');
      assert false;
    }
  }

  lemma {:induction false} NormalizedPartsNoSlash(table: map<char, string>, parts: seq<string>)
    requires forall c :: c in table ==> '/' !in table[c]
    requires forall i :: 0 <= i < |parts| ==> '/' !in parts[i]
    ensures forall i :: 0 <= i < |NormalizedParts(table, parts)| ==> '/' !in NormalizedParts(table, parts)[i]
  {
    if parts != [] {
      NormalizedPartsNoSlash(table, parts[..|parts| - 1]);
      if parts[|parts| - 1] != [] {
        NormalizedNameNoSlash(table, parts[|parts| - 1]);
      }
    }
  }

  /** The normalized path splits back into the normalized components: rejoining with `/` loses
      no boundary, as long as no dictionary entry holds a `/`. */
  lemma NormalizedPathComponents(table: map<char, string>, path: string)
    requires forall c :: c in table ==> '/' !in table[c]
    requires NormalizedParts(table, Split(path, "/")) != []
    ensures Split(NormalizedPath(table, path), "/") == NormalizedParts(table, Split(path, "/"))
  {
    SplitFieldsFree(path, '/');
    NormalizedPartsNoSlash(table, Split(path, "/"));
    SplitJoin(NormalizedParts(table, Split(path, "/")), '/');
  }

  // ---- generate_preview_log ----

  /** The CJK ideographs of the walked names (the last component only) that the dictionary
      lacks. The script collects them in a list; only its emptiness and its set matter. */
  function MissingChars(table: map<char, string>, entries: seq<WalkEntry>): set<char> {
    if entries == [] then {}
    else MissingChars(table, entries[..|entries| - 1]) + AudioNames.UnknownChars(table, entries[|entries| - 1].name)
  }

  /** The dictionary check over one walk list. */
  method CollectMissing(table: map<char, string>, entries: seq<WalkEntry>) returns (missing: set<char>)
    ensures missing == MissingChars(table, entries)
  {
    missing := {};
    for i := 0 to |entries|
      invariant missing == MissingChars(table, entries[..i])
    {
      assert entries[..i + 1][..i] == entries[..i];
      var chars := ExtractChineseCharacters(entries[i].name);
      missing := missing + (set c | c in chars && c !in table);
    }
    assert entries[..|entries|] == entries;
  }

  /** Nothing is missing exactly when every CJK ideograph of every walked name has an entry. */
  lemma {:induction false} MissingCharsEmpty(table: map<char, string>, entries: seq<WalkEntry>)
    ensures MissingChars(table, entries) == {} <==>
            forall i, c :: 0 <= i < |entries| && c in entries[i].name && IsCjk(c) ==> c in table
  {
    if entries != [] {
      var init := entries[..|entries| - 1];
      MissingCharsEmpty(table, init);
      var last := entries[|entries| - 1];
      if MissingChars(table, entries) == {} {
        forall i, c | 0 <= i < |entries| && c in entries[i].name && IsCjk(c) ensures c in table {
          if i < |init| {
            assert init[i] == entries[i];
          } else {
            assert c !in AudioNames.UnknownChars(table, last.name);
          }
        }
      } else {
        var c :| c in MissingChars(table, entries);
        if c in MissingChars(table, init) {
          var i, d :| 0 <= i < |init| && d in init[i].name && IsCjk(d) && d !in table;
          assert entries[i] == init[i];
        } else {
          assert c in last.name && IsCjk(c) && c !in table;
        }
      }
    }
  }

  /** The entry is recorded: its relative path holds a CJK ideograph and normalizing the path
      changes it. */
  predicate Recorded(table: map<char, string>, e: WalkEntry) {
    HasCjk(RelPath(e)) && NormalizedPath(table, RelPath(e)) != RelPath(e)
  }

  /** The pair recorded for an entry: its relative path and that path normalized. */
  function PairOf(table: map<char, string>, e: WalkEntry): (pair: (string, string))
    ensures pair.0 == RelPath(e)
  {
    (RelPath(e), NormalizedPath(table, RelPath(e)))
  }

  /** The rename pairs (old relative path, new relative path) recorded, in walk order. */
  function RenamePairs(table: map<char, string>, entries: seq<WalkEntry>): seq<(string, string)> {
    if entries == [] then []
    else
      var init := RenamePairs(table, entries[..|entries| - 1]);
      var e := entries[|entries| - 1];
      if Recorded(table, e) then init + [PairOf(table, e)] else init
  }

  /** The test the scan makes on one walked entry, and the pair it then records. */
  method RecordEntry(table: map<char, string>, entries: seq<WalkEntry>, i: nat) returns (recorded: bool, pair: (string, string))
    requires i < |entries|
    ensures recorded == Recorded(table, entries[i])
    ensures recorded ==> pair == PairOf(table, entries[i])
    ensures RenamePairs(table, entries[..i + 1]) == RenamePairs(table, entries[..i]) + (if recorded then [pair] else [])
  {
    assert entries[..i + 1][..i] == entries[..i];
    recorded, pair := false, ("", "");
    var relativePath := PathJoin(entries[i].root, entries[i].name);
    var chars := ExtractChineseCharacters(relativePath);
    CjkSetNonEmpty(relativePath);
    if chars != {} {
      var newRelativePath := NormalizePath(table, relativePath);
      recorded, pair := relativePath != newRelativePath, (relativePath, newRelativePath);
    }
  }

  /** The scan that records the rename pairs of one walk list. */
  method CollectRenames(table: map<char, string>, entries: seq<WalkEntry>) returns (renames: seq<(string, string)>)
    ensures renames == RenamePairs(table, entries)
  {
    renames := [];
    for i := 0 to |entries|
      invariant renames == RenamePairs(table, entries[..i])
    {
      var recorded, pair := RecordEntry(table, entries, i);
      if recorded {
        renames := renames + [pair];
      }
    }
    assert entries[..|entries|] == entries;
  }

  /** Every recorded pair comes from a walked entry that is `Recorded`; so it holds a CJK path
      and a different new path. */
  lemma {:induction false} RenamePairsSound(table: map<char, string>, entries: seq<WalkEntry>, p: (string, string))
    requires p in RenamePairs(table, entries)
    ensures exists i :: 0 <= i < |entries| && Recorded(table, entries[i]) && p == PairOf(table, entries[i])
  {
    var init := entries[..|entries| - 1];
    if p in RenamePairs(table, init) {
      RenamePairsSound(table, init, p);
      var i :| 0 <= i < |init| && Recorded(table, init[i]) && p == PairOf(table, init[i]);
      assert entries[i] == init[i];
    } else {
      assert Recorded(table, entries[|entries| - 1]) && p == PairOf(table, entries[|entries| - 1]);
    }
  }

  /** Every `Recorded` walked entry has its pair recorded. */
  lemma {:induction false} RenamePairsComplete(table: map<char, string>, entries: seq<WalkEntry>, i: nat)
    requires i < |entries| && Recorded(table, entries[i])
    ensures PairOf(table, entries[i]) in RenamePairs(table, entries)
  {
    var init := entries[..|entries| - 1];
    if i < |init| {
      assert init[i] == entries[i];
      RenamePairsComplete(table, init, i);
    }
  }

  /** `str(n)` */
  function Decimal(n: nat): string {
    if n < 10 then [(48 + n) as char] else Decimal(n / 10) + [(48 + n % 10) as char]
  }

  function EntryLine(kind: string, pair: (string, string)): string {
    kind + pair.0 + " -> " + pair.1 + "\n"
  }

  function EntryLines(kind: string, pairs: seq<(string, string)>): seq<string> {
    seq(|pairs|, k requires 0 <= k < |pairs| => EntryLine(kind, pairs[k]))
  }

  const FolderLabel := "文件夹: "
  const FileLabel := "文件: "

  /** The chunks `preview_content` holds, in order: header, the warning when characters are
      missing (listing them in the order `listed`), the folder lines, the file lines, the totals. */
  function PreviewContent(table: map<char, string>, dirs: seq<WalkEntry>, files: seq<WalkEntry>, listed: seq<char>): seq<string> {
    var missing := MissingChars(table, dirs) + MissingChars(table, files);
    var folderRenames := RenamePairs(table, dirs);
    var fileRenames := RenamePairs(table, files);
    HeadChunks(missing != {}, listed)
    + EntryLines(FolderLabel, folderRenames)
    + EntryLines(FileLabel, fileRenames)
    + TotalChunks(|folderRenames|, |fileRenames|)
  }

  const PreviewHeader := "=== 文件和文件夹重命名预览 ===\n"

  /** The header, and the warning when characters are missing. */
  function HeadChunks(warn: bool, listed: seq<char>): seq<string> {
    [PreviewHeader] + (if warn then WarningChunks(listed) else [])
  }

  /** The warning listing the missing characters. */
  function WarningChunks(listed: seq<char>): seq<string> {
    ["警告：字典中缺少以下字符的拼音："
     + JoinWith(seq(|listed|, k requires 0 <= k < |listed| => [listed[k]]), ", ") + "\n",
     "请先完善字典后再进行转换！\n\n"]
  }

  /** The two totals. */
  function TotalChunks(folderCount: nat, fileCount: nat): seq<string> {
    ["\n总计需要重命名的文件夹: " + Decimal(folderCount) + "\n",
     "总计需要重命名的文件: " + Decimal(fileCount) + "\n"]
  }

  /** Lists the characters of `s`, each once, in an order the model leaves open (Python's set
      order). */
  method ListChars(s: set<char>) returns (listed: seq<char>)
    ensures forall c :: c in listed <==> c in s
    ensures forall i, j :: 0 <= i < j < |listed| ==> listed[i] != listed[j]
  {
    listed := [];
    var rest := s;
    while rest != {}
      invariant forall c :: c in s <==> c in listed || c in rest
      invariant forall c :: c in rest ==> c !in listed
      invariant forall i, j :: 0 <= i < j < |listed| ==> listed[i] != listed[j]
      decreases |rest|
    {
      var c :| c in rest;
      listed := listed + [c];
      rest := rest - {c};
    }
  }

  /** `generate_preview_log`: the preview chunks, and the result pair, which is `(False, False)`
      when writing the log fails (`writeOk` false). */
  method GeneratePreviewLog(table: map<char, string>, dirs: seq<WalkEntry>, files: seq<WalkEntry>, writeOk: bool)
    returns (hasRenames: bool, complete: bool, content: seq<string>, listed: seq<char>)
    ensures forall c :: c in listed <==> c in MissingChars(table, dirs) + MissingChars(table, files)
    ensures forall i, j :: 0 <= i < j < |listed| ==> listed[i] != listed[j]
    ensures content == PreviewContent(table, dirs, files, listed)
    ensures hasRenames == (writeOk && (RenamePairs(table, dirs) != [] || RenamePairs(table, files) != []))
    ensures complete == (writeOk && MissingChars(table, dirs) + MissingChars(table, files) == {})
  {
    var missingDirs := CollectMissing(table, dirs);
    var missingFiles := CollectMissing(table, files);
    var missing := missingDirs + missingFiles;
    listed := ListChars(missing);
    var folderRenames := CollectRenames(table, dirs);
    var fileRenames := CollectRenames(table, files);
    content := PreviewContent(table, dirs, files, listed);
    if writeOk {
      hasRenames, complete := |folderRenames| > 0 || |fileRenames| > 0, missing == {};
    } else {
      hasRenames, complete := false, false;
    }
  }

  // ---- rename_files ----

  /** One entry of `folders_to_rename`: `(depth, old_dir_path, new_dir_path, dir_name,
      new_dir_name)`, the paths as the walk reports them. */
  datatype FolderRename = FolderRename(depth: nat, oldPath: string, newPath: string, oldName: string, newName: string)

  /** The string fields of an entry, in tuple order. */
  function Fields(t: FolderRename): seq<string> {
    [t.oldPath, t.newPath, t.oldName, t.newName]
  }

  /** Python's lexicographic `<=` on equally long sequences of strings. */
  predicate LexLe(xs: seq<string>, ys: seq<string>)
    requires |xs| == |ys|
  {
    xs == [] || (xs[0] != ys[0] && StrLe(xs[0], ys[0])) || (xs[0] == ys[0] && LexLe(xs[1..], ys[1..]))
  }

  /** Python's `<=` on the tuples: depth first, then the strings field by field. */
  predicate TupleLe(a: FolderRename, b: FolderRename) {
    a.depth < b.depth || (a.depth == b.depth && LexLe(Fields(a), Fields(b)))
  }

  /** `sort(reverse=True)` may put `a` before `b` when `b <= a`. */
  predicate Descending(a: FolderRename, b: FolderRename) {
    TupleLe(b, a)
  }

  lemma {:induction false} LexLeTotal(xs: seq<string>, ys: seq<string>)
    requires |xs| == |ys|
    ensures LexLe(xs, ys) || LexLe(ys, xs)
  {
    if xs != [] {
      StrLeTotal(xs[0], ys[0]);
      LexLeTotal(xs[1..], ys[1..]);
    }
  }

  lemma {:induction false} LexLeTransitive(xs: seq<string>, ys: seq<string>, zs: seq<string>)
    requires |xs| == |ys| == |zs| && LexLe(xs, ys) && LexLe(ys, zs)
    ensures LexLe(xs, zs)
  {
    if xs != [] {
      if xs[0] == ys[0] && ys[0] == zs[0] {
        LexLeTransitive(xs[1..], ys[1..], zs[1..]);
      } else if xs[0] != ys[0] && ys[0] != zs[0] {
        StrLeTransitive(xs[0], ys[0], zs[0]);
        if xs[0] == zs[0] {
          StrLeAntisymmetric(xs[0], ys[0]);
        }
      }
    }
  }

  /** The tuple order is total and transitive, so the sort is a genuine descending sort. */
  lemma DescendingIsTotalPreorder()
    ensures TotalPreorder(Descending)
  {
    forall a, b ensures Descending(a, b) || Descending(b, a) {
      LexLeTotal(Fields(a), Fields(b));
    }
    forall a, b, c | Descending(a, b) && Descending(b, c) ensures Descending(a, c) {
      if c.depth == b.depth == a.depth {
        LexLeTransitive(Fields(c), Fields(b), Fields(a));
      }
    }
  }

  /** The tuple `rename_files` builds for a walked directory. */
  function FolderEntry(table: map<char, string>, e: WalkEntry): FolderRename {
    var oldPath := PathJoin(e.root, e.name);
    var newName := NormalizedName(table, e.name);
    FolderRename(Count(oldPath, '/'), oldPath, PathJoin(e.root, newName), e.name, newName)
  }

  /** A walked name is renamed: it holds a CJK ideograph and its normalized name gives a
      different path. */
  predicate Planned(table: map<char, string>, e: WalkEntry) {
    HasCjk(e.name) && PathJoin(e.root, e.name) != PathJoin(e.root, NormalizedName(table, e.name))
  }

  /** `folders_to_rename` before sorting, in walk order. */
  function FolderPlan(table: map<char, string>, dirs: seq<WalkEntry>): seq<FolderRename> {
    if dirs == [] then []
    else
      var init := FolderPlan(table, dirs[..|dirs| - 1]);
      var e := dirs[|dirs| - 1];
      if Planned(table, e) then init + [FolderEntry(table, e)] else init
  }

  /** The collection loop of `rename_files`. */
  method CollectFolders(table: map<char, string>, dirs: seq<WalkEntry>) returns (plan: seq<FolderRename>)
    ensures plan == FolderPlan(table, dirs)
  {
    plan := [];
    for i := 0 to |dirs|
      invariant plan == FolderPlan(table, dirs[..i])
    {
      assert dirs[..i + 1][..i] == dirs[..i];
      var root, dirName := dirs[i].root, dirs[i].name;
      var chars := ExtractChineseCharacters(dirName);
      CjkSetNonEmpty(dirName);
      if chars != {} {
        var oldDirPath := PathJoin(root, dirName);
        var newDirName := NormalizeFilename(table, dirName);
        var newDirPath := PathJoin(root, newDirName);
        if oldDirPath != newDirPath {
          var depth := Count(oldDirPath, '/');
          plan := plan + [FolderRename(depth, oldDirPath, newDirPath, dirName, newDirName)];
        }
      }
    }
    assert dirs[..|dirs|] == dirs;
  }

  /** Every planned tuple comes from a walked directory that is `Planned`: it renames a name
      with a CJK ideograph to its normalized name, to a different path, and its depth counts
      the separators of the old path. */
  lemma {:induction false} FolderPlanSound(table: map<char, string>, dirs: seq<WalkEntry>, t: FolderRename)
    requires t in FolderPlan(table, dirs)
    ensures exists i :: 0 <= i < |dirs| && Planned(table, dirs[i]) && t == FolderEntry(table, dirs[i])
    ensures t.oldPath != t.newPath && t.depth == Count(t.oldPath, '/') && HasCjk(t.oldName)
            && t.newName == NormalizedName(table, t.oldName)
  {
    var init := dirs[..|dirs| - 1];
    if t in FolderPlan(table, init) {
      FolderPlanSound(table, init, t);
      var i :| 0 <= i < |init| && Planned(table, init[i]) && t == FolderEntry(table, init[i]);
      assert dirs[i] == init[i];
    } else {
      assert Planned(table, dirs[|dirs| - 1]) && t == FolderEntry(table, dirs[|dirs| - 1]);
    }
  }

  /** After the sort the tuples come deepest first, and they are the collected ones. */
  lemma SortedDeepestFirst(table: map<char, string>, dirs: seq<WalkEntry>)
    ensures var sorted := Sort(FolderPlan(table, dirs), Descending);
            multiset(sorted) == multiset(FolderPlan(table, dirs))
            && forall i, j :: 0 <= i < j < |sorted| ==> sorted[i].depth >= sorted[j].depth
  {
    DescendingIsTotalPreorder();
    SortSorted(FolderPlan(table, dirs), Descending);
  }

  /** The (old path, new path) pairs of the tuples, in order. */
  function FolderOps(plan: seq<FolderRename>): (ops: seq<(string, string)>)
    ensures |ops| == |plan|
  {
    seq(|plan|, k requires 0 <= k < |plan| => (plan[k].oldPath, plan[k].newPath))
  }

  /** The number of successful renames and the tree after attempting `ops` in order: a rename
      whose source is gone fails, changes nothing, and the loop goes on. */
  function ApplyRenames(paths: set<string>, ops: seq<(string, string)>): (nat, set<string>)
  {
    if ops == [] then (0, paths)
    else
      var prev := ApplyRenames(paths, ops[..|ops| - 1]);
      var op := ops[|ops| - 1];
      if op.0 in prev.1 then (prev.0 + 1, Moved(prev.1, op.0, op.1)) else prev
  }

  /** The folder loop of `rename_files`. */
  method RenameFolders(fs: FileTree, plan: seq<FolderRename>) returns (renamed: nat)
    modifies fs
    ensures (renamed, fs.paths) == ApplyRenames(old(fs.paths), FolderOps(plan))
  {
    renamed := 0;
    ghost var ops := FolderOps(plan);
    for i := 0 to |plan|
      invariant (renamed, fs.paths) == ApplyRenames(old(fs.paths), ops[..i])
    {
      assert ops[..i + 1][..i] == ops[..i];
      var ok := fs.Rename(plan[i].oldPath, plan[i].newPath);
      if ok {
        renamed := renamed + 1;
      }
    }
    assert ops[..|ops|] == ops;
  }

  /** The rename a walked file asks for: its path, and the same directory with the normalized
      name. */
  function FileOp(table: map<char, string>, e: WalkEntry): (string, string) {
    (PathJoin(e.root, e.name), PathJoin(e.root, NormalizedName(table, e.name)))
  }

  /** The file renames, in walk order. */
  function FileOps(table: map<char, string>, files: seq<WalkEntry>): seq<(string, string)> {
    if files == [] then []
    else
      var init := FileOps(table, files[..|files| - 1]);
      var e := files[|files| - 1];
      if Planned(table, e) then init + [FileOp(table, e)] else init
  }

  /** One more walked file. */
  lemma FileOpsStep(table: map<char, string>, files: seq<WalkEntry>, i: nat)
    requires i < |files|
    ensures FileOps(table, files[..i + 1])
            == FileOps(table, files[..i]) + (if Planned(table, files[i]) then [FileOp(table, files[i])] else [])
  {
    assert files[..i + 1][..i] == files[..i];
  }

  /** One more rename attempted. */
  lemma ApplyRenamesSnoc(paths: set<string>, ops: seq<(string, string)>, op: (string, string))
    ensures var prev := ApplyRenames(paths, ops);
            ApplyRenames(paths, ops + [op]) == if op.0 in prev.1 then (prev.0 + 1, Moved(prev.1, op.0, op.1)) else prev
  {
    assert (ops + [op])[..|ops|] == ops;
  }

  /** The test the file loop of `rename_files` makes on one walked file, and the rename it
      then asks for. */
  method PlanFile(table: map<char, string>, files: seq<WalkEntry>, i: nat) returns (planned: bool, op: (string, string))
    requires i < |files|
    ensures planned == Planned(table, files[i])
    ensures planned ==> op == FileOp(table, files[i])
    ensures FileOps(table, files[..i + 1]) == FileOps(table, files[..i]) + (if planned then [op] else [])
  {
    FileOpsStep(table, files, i);
    var e := files[i];
    planned, op := false, ("", "");
    var chars := ExtractChineseCharacters(e.name);
    CjkSetNonEmpty(e.name);
    if chars != {} {
      var oldPath := PathJoin(e.root, e.name);
      var newName := NormalizeFilename(table, e.name);
      var newPath := PathJoin(e.root, newName);
      planned, op := oldPath != newPath, (oldPath, newPath);
    }
  }

  /** The file loop of `rename_files`, which renames as it walks. */
  method RenameWalkedFiles(fs: FileTree, table: map<char, string>, files: seq<WalkEntry>) returns (renamed: nat)
    modifies fs
    ensures (renamed, fs.paths) == ApplyRenames(old(fs.paths), FileOps(table, files))
  {
    renamed := 0;
    ghost var initial := fs.paths;
    ghost var ops: seq<(string, string)> := [];
    for i := 0 to |files|
      invariant ops == FileOps(table, files[..i])
      invariant (renamed, fs.paths) == ApplyRenames(initial, ops)
    {
      var planned, op := PlanFile(table, files, i);
      if planned {
        ApplyRenamesSnoc(initial, ops, op);
        ops := ops + [op];
        var ok := fs.Rename(op.0, op.1);
        if ok {
          renamed := renamed + 1;
        }
      }
    }
    assert files[..|files|] == files;
  }

  /** `rename_files`: the folders, sorted deepest first, then the files of the second walk
      (`filesAfter`, taken once the folders are renamed); the result is the total count. */
  method RenameFiles(fs: FileTree, table: map<char, string>, dirs: seq<WalkEntry>, filesAfter: seq<WalkEntry>)
    returns (total: nat)
    modifies fs
    ensures var folders := ApplyRenames(old(fs.paths), FolderOps(Sort(FolderPlan(table, dirs), Descending)));
            var files := ApplyRenames(folders.1, FileOps(table, filesAfter));
            total == folders.0 + files.0 && fs.paths == files.1
  {
    var plan := CollectFolders(table, dirs);
    var sorted := Sort(plan, Descending);
    var renamedFolders := RenameFolders(fs, sorted);
    var renamedFiles := RenameWalkedFiles(fs, table, filesAfter);
    total := renamedFolders + renamedFiles;
  }

  /** Each success counts once: the count is at most the number of attempts. */
  lemma {:induction false} ApplyRenamesCount(paths: set<string>, ops: seq<(string, string)>)
    ensures ApplyRenames(paths, ops).0 <= |ops|
  {
    if ops != [] {
      ApplyRenamesCount(paths, ops[..|ops| - 1]);
    }
  }

  /** Attempting `a` and then `b` is attempting them one after the other: a failed rename
      does not stop the ones after it. */
  lemma {:induction false} ApplyRenamesAppend(paths: set<string>, a: seq<(string, string)>, b: seq<(string, string)>)
    ensures var first := ApplyRenames(paths, a);
            var second := ApplyRenames(first.1, b);
            ApplyRenames(paths, a + b) == (first.0 + second.0, second.1)
  {
    if b != [] {
      ApplyRenamesAppend(paths, a, b[..|b| - 1]);
      assert (a + b)[..|a + b| - 1] == a + b[..|b| - 1];
    } else {
      assert a + b == a;
    }
  }

  /** Attempting renames whose sources all exist, are distinct and come deepest first
      succeeds every time: no rename takes away a source still waiting. */
  lemma {:induction false} DeepestFirstRenamesAll(paths: set<string>, ops: seq<(string, string)>, n: nat)
    requires n <= |ops|
    requires DistinctKeys(ops) && AudioScan.DeepestFirst(ops)
    requires forall i :: 0 <= i < |ops| ==> ops[i].0 in paths
    ensures ApplyRenames(paths, ops[..n]).0 == n
    ensures forall j :: n <= j < |ops| ==> ops[j].0 in ApplyRenames(paths, ops[..n]).1
  {
    if n > 0 {
      DeepestFirstRenamesAll(paths, ops, n - 1);
      var prev := ApplyRenames(paths, ops[..n - 1]);
      var op := ops[n - 1];
      assert ops[..n][..n - 1] == ops[..n - 1];
      assert op.0 in prev.1;
      forall j | n <= j < |ops| ensures ops[j].0 in Moved(prev.1, op.0, op.1) {
        MoveSparesShallower(prev.1, op.0, op.1, ops[j].0);
      }
    }
  }

  /** The tuples have pairwise different old paths. */
  predicate DistinctOld(plan: seq<FolderRename>) {
    forall i, j :: 0 <= i < j < |plan| ==> plan[i].oldPath != plan[j].oldPath
  }

  lemma {:induction false} DistinctOldOnce(plan: seq<FolderRename>, t: FolderRename)
    requires DistinctOld(plan)
    ensures multiset(plan)[t] <= 1
  {
    if plan != [] {
      var rest := plan[1..];
      assert DistinctOld(rest) by {
        forall i, j | 0 <= i < j < |rest| ensures rest[i].oldPath != rest[j].oldPath {
          assert rest[i] == plan[i + 1] && rest[j] == plan[j + 1];
        }
      }
      DistinctOldOnce(rest, t);
      assert plan == [plan[0]] + rest;
      assert plan[0] !in rest by {
        forall k | 0 <= k < |rest| ensures rest[k] != plan[0] {
          assert rest[k] == plan[k + 1];
        }
      }
    }
  }

  /** Reordering tuples with distinct old paths keeps them distinct. */
  lemma DistinctOldPermutation(s: seq<FolderRename>, t: seq<FolderRename>)
    requires DistinctOld(s) && multiset(s) == multiset(t)
    ensures DistinctOld(t)
  {
    forall i, j | 0 <= i < j < |t| ensures t[i].oldPath != t[j].oldPath {
      TwoOccurrences(t, i, j);
      DistinctOldOnce(s, t[i]);
      assert t[i] in multiset(s) && t[j] in multiset(s);
      var a :| 0 <= a < |s| && s[a] == t[i];
      var b :| 0 <= b < |s| && s[b] == t[j];
      assert a != b;
    }
  }

  /** A walk that lists each directory once gives tuples with distinct old paths. */
  lemma {:induction false} FolderPlanDistinct(table: map<char, string>, dirs: seq<WalkEntry>)
    requires forall i, j :: 0 <= i < j < |dirs| ==> RelPath(dirs[i]) != RelPath(dirs[j])
    ensures DistinctOld(FolderPlan(table, dirs))
  {
    if dirs != [] {
      var init := dirs[..|dirs| - 1];
      var e := dirs[|dirs| - 1];
      assert forall i, j :: 0 <= i < j < |init| ==> RelPath(init[i]) != RelPath(init[j]) by {
        forall i, j | 0 <= i < j < |init| ensures RelPath(init[i]) != RelPath(init[j]) {
          assert init[i] == dirs[i] && init[j] == dirs[j];
        }
      }
      FolderPlanDistinct(table, init);
      if Planned(table, e) {
        assert forall i :: 0 <= i < |init| ==> RelPath(init[i]) != RelPath(e) by {
          forall i | 0 <= i < |init| ensures RelPath(init[i]) != RelPath(e) {
            assert init[i] == dirs[i];
          }
        }
        FolderPlanAvoids(table, init, RelPath(e));
        DistinctOldSnoc(FolderPlan(table, init), FolderEntry(table, e));
      }
    }
  }

  /** No tuple is for a path the walk did not list. */
  lemma FolderPlanAvoids(table: map<char, string>, dirs: seq<WalkEntry>, p: string)
    requires forall i :: 0 <= i < |dirs| ==> RelPath(dirs[i]) != p
    ensures forall t :: t in FolderPlan(table, dirs) ==> t.oldPath != p
  {
    forall t | t in FolderPlan(table, dirs) ensures t.oldPath != p {
      FolderPlanSound(table, dirs, t);
    }
  }

  lemma DistinctOldSnoc(plan: seq<FolderRename>, x: FolderRename)
    requires DistinctOld(plan)
    requires forall t :: t in plan ==> t.oldPath != x.oldPath
    ensures DistinctOld(plan + [x])
  {
    var r := plan + [x];
    forall i, j | 0 <= i < j < |r| ensures r[i].oldPath != r[j].oldPath {
      assert r[i] == plan[i] && r[i] in plan;
    }
  }

  /** When every walked directory still exists and each is listed once, the folder pass of
      `rename_files` renames every collected directory. */
  lemma RenameFoldersAll(paths: set<string>, table: map<char, string>, dirs: seq<WalkEntry>)
    requires forall i, j :: 0 <= i < j < |dirs| ==> RelPath(dirs[i]) != RelPath(dirs[j])
    requires forall i :: 0 <= i < |dirs| ==> RelPath(dirs[i]) in paths
    ensures ApplyRenames(paths, FolderOps(Sort(FolderPlan(table, dirs), Descending))).0 == |FolderPlan(table, dirs)|
  {
    var plan := FolderPlan(table, dirs);
    var sorted := Sort(plan, Descending);
    var ops := FolderOps(sorted);
    assert |sorted| == |plan| by {
      assert |multiset(sorted)| == |multiset(plan)|;
    }
    SortedOpsDistinct(table, dirs);
    SortedOpsPresent(paths, table, dirs);
    DeepestFirstRenamesAll(paths, ops, |ops|);
    assert ops[..|ops|] == ops;
  }

  /** The sorted renames have distinct sources. */
  lemma SortedOpsDistinct(table: map<char, string>, dirs: seq<WalkEntry>)
    requires forall i, j :: 0 <= i < j < |dirs| ==> RelPath(dirs[i]) != RelPath(dirs[j])
    ensures DistinctKeys(FolderOps(Sort(FolderPlan(table, dirs), Descending)))
  {
    var plan := FolderPlan(table, dirs);
    FolderPlanDistinct(table, dirs);
    DistinctOldPermutation(plan, Sort(plan, Descending));
  }

  /** The sorted renames all start from existing directories and come deepest first. */
  lemma SortedOpsPresent(paths: set<string>, table: map<char, string>, dirs: seq<WalkEntry>)
    requires forall i :: 0 <= i < |dirs| ==> RelPath(dirs[i]) in paths
    ensures var ops := FolderOps(Sort(FolderPlan(table, dirs), Descending));
            (forall i :: 0 <= i < |ops| ==> ops[i].0 in paths) && AudioScan.DeepestFirst(ops)
  {
    var plan := FolderPlan(table, dirs);
    var sorted := Sort(plan, Descending);
    var ops := FolderOps(sorted);
    SortedDeepestFirst(table, dirs);
    forall i | 0 <= i < |sorted| ensures ops[i].0 in paths && sorted[i].depth == Count(ops[i].0, '/') {
      assert sorted[i] in multiset(plan);
      FolderPlanSound(table, dirs, sorted[i]);
    }
  }
}
