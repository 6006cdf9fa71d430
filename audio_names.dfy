/** audio_rename_tool.py, transliteration: `chinese_to_pinyin` and `normalize_filename`.
    The character table is a parameter (`map<char, string>`), and so is Python's Unicode `\w`
    class (`isWord`). */
module AudioNames {
  import opened Text

  /** What one character becomes: its table entry if it has one, otherwise itself. */
  function CharPinyin(table: map<char, string>, c: char): string {
    if c in table then table[c] else [c]
  }

  /** The in-order concatenation of `CharPinyin` over the text. */
  function Pinyin(table: map<char, string>, text: string): string {
    if text == [] then [] else Pinyin(table, text[..|text| - 1]) + CharPinyin(table, text[|text| - 1])
  }

  /** The CJK characters of the text that the table does not know. */
  function UnknownChars(table: map<char, string>, text: string): set<char> {
    set c | c in text && IsCjk(c) && c !in table
  }

  /** `chinese_to_pinyin(text)`: looks up every character; an unknown CJK character is kept
      and collected. */
  method ChineseToPinyin(table: map<char, string>, text: string) returns (result: string, unknown: set<char>)
    ensures result == Pinyin(table, text)
    ensures unknown == set c | c in text && IsCjk(c) && c !in table
  {
    result, unknown := "", {};
    for i := 0 to |text|
      invariant result == Pinyin(table, text[..i])
      invariant unknown == UnknownChars(table, text[..i])
    {
      var ch := text[i];
      assert text[..i + 1][..i] == text[..i] && text[..i + 1] == text[..i] + [ch];
      if ch in table {
        result := result + table[ch];
      } else if IsCjk(ch) {
        unknown := unknown + {ch};
        result := result + [ch];
      } else {
        result := result + [ch];
      }
    }
    assert text[..|text|] == text;
  }

  /** Transliteration works piecewise: the result for `a + b` is the result for `a` followed by
      the result for `b`. */
  lemma {:induction false} PinyinConcat(table: map<char, string>, a: string, b: string)
    ensures Pinyin(table, a + b) == Pinyin(table, a) + Pinyin(table, b)
    decreases |b|
  {
    if b == [] {
      assert a + b == a;
    } else {
      var b', c := b[..|b| - 1], b[|b| - 1];
      var ab := a + b;
      assert Pinyin(table, ab) == Pinyin(table, a + b') + CharPinyin(table, c) by {
        assert ab[..|ab| - 1] == a + b' && ab[|ab| - 1] == c;
      }
      assert Pinyin(table, b) == Pinyin(table, b') + CharPinyin(table, c);
      PinyinConcat(table, a, b');
    }
  }

  lemma PinyinChar(table: map<char, string>, c: char)
    ensures Pinyin(table, [c]) == CharPinyin(table, c)
  {
    assert [c][..0] == [];
  }

  /** A character whose table entry is empty (the symbol entries) vanishes without a trace. */
  lemma PinyinDropsSymbol(table: map<char, string>, a: string, c: char, b: string)
    requires c in table && table[c] == ""
    ensures Pinyin(table, a + [c] + b) == Pinyin(table, a) + Pinyin(table, b)
  {
    PinyinConcat(table, a + [c], b);
    PinyinConcat(table, a, [c]);
    PinyinChar(table, c);
  }

  /** Every unknown character appears unchanged in the transliteration. */
  lemma UnknownCharsKept(table: map<char, string>, text: string, c: char)
    requires c in UnknownChars(table, text)
    ensures c in Pinyin(table, text)
  {
    var i :| 0 <= i < |text| && text[i] == c;
    assert text == text[..i] + [c] + text[i + 1..];
    PinyinConcat(table, text[..i] + [c], text[i + 1..]);
    PinyinConcat(table, text[..i], [c]);
    PinyinChar(table, c);
  }

  /** When the table knows every character of the text and none of its entries holds a CJK
      character, the transliteration holds none either. */
  lemma {:induction false} PinyinKnownHasNoCjk(table: map<char, string>, text: string)
    requires forall i :: 0 <= i < |text| ==> text[i] in table
    requires forall k :: k in table ==> !HasCjk(table[k])
    ensures !HasCjk(Pinyin(table, text))
  {
    if text != [] {
      var init := text[..|text| - 1];
      assert forall i :: 0 <= i < |init| ==> init[i] == text[i];
      PinyinKnownHasNoCjk(table, init);
      var a, b := Pinyin(table, init), table[text[|text| - 1]];
      assert !HasCjk(b);
      forall i | 0 <= i < |a + b| ensures !IsCjk((a + b)[i]) {
        if i < |a| { assert (a + b)[i] == a[i]; } else { assert (a + b)[i] == b[i - |a|]; }
      }
    }
  }

  /** The characters `re.sub(r'[^\w\-\.]', '', s)` keeps. */
  predicate NameChar(isWord: char -> bool, c: char) {
    isWord(c) || c == '-' || c == '.'
  }

  /** `re.sub(r'[^\w\-\.]', '', s)` */
  function KeepNameChars(s: string, isWord: char -> bool): string {
    if s == [] then [] else (if NameChar(isWord, s[0]) then [s[0]] else []) + KeepNameChars(s[1..], isWord)
  }

  lemma {:induction false} KeepNameCharsMember(s: string, isWord: char -> bool, x: char)
    ensures x in KeepNameChars(s, isWord) <==> x in s && NameChar(isWord, x)
  {
    if s != [] {
      KeepNameCharsMember(s[1..], isWord, x);
      assert s == [s[0]] + s[1..];
    }
  }

  /** `s.replace(c, '')` for one character removes exactly that character. */
  lemma {:induction false} RemoveCharMember(s: string, c: char, x: char)
    ensures x in ReplaceAll(s, [c], "") <==> x in s && x != c
  {
    if s != [] {
      RemoveCharMember(s[1..], c, x);
      assert s == [s[0]] + s[1..];
      if s[0] == c {
        assert s[..1] == [c];
      }
    }
  }

  /** `normalize_filename(filename)`: transliterate the stem, delete spaces, drop every
      character outside `\w`, `-` and `.`, and put the extension back. */
  function NormalizeFilename(table: map<char, string>, isWord: char -> bool, filename: string): (string, set<char>) {
    var stem := SplitExt(filename).0;
    var ext := SplitExt(filename).1;
    var unspaced := ReplaceAll(Pinyin(table, stem), " ", "");
    (KeepNameChars(unspaced, isWord) + ext, UnknownChars(table, stem))
  }

  /** The extension comes back unchanged, the new stem holds no space and only `\w`, `-`
      and `.` characters, and the unknown characters are those of the old stem. */
  lemma NormalizeFilenameShape(table: map<char, string>, isWord: char -> bool, filename: string)
    ensures var ext := SplitExt(filename).1;
            var r := NormalizeFilename(table, isWord, filename).0;
            && EndsWith(r, ext)
            && (forall c :: c in r[..|r| - |ext|] ==> c != ' ' && NameChar(isWord, c))
    ensures NormalizeFilename(table, isWord, filename).1
            == set c | c in SplitExt(filename).0 && IsCjk(c) && c !in table
  {
    var stem, ext := SplitExt(filename).0, SplitExt(filename).1;
    var unspaced := ReplaceAll(Pinyin(table, stem), " ", "");
    var kept := KeepNameChars(unspaced, isWord);
    var r := kept + ext;
    assert r[..|r| - |ext|] == kept;
    assert r[|r| - |ext|..] == ext;
    forall c | c in kept ensures c != ' ' && NameChar(isWord, c) {
      KeepNameCharsMember(unspaced, isWord, c);
      RemoveCharMember(Pinyin(table, stem), ' ', c);
    }
  }

  /** Python's `\w` matches CJK ideographs, so an unknown character survives into the new name. */
  lemma UnknownSurvivesNormalize(table: map<char, string>, isWord: char -> bool, filename: string, c: char)
    requires forall x :: IsCjk(x) ==> isWord(x)
    requires c in NormalizeFilename(table, isWord, filename).1
    ensures c in NormalizeFilename(table, isWord, filename).0
  {
    var stem := SplitExt(filename).0;
    var unspaced := ReplaceAll(Pinyin(table, stem), " ", "");
    UnknownCharsKept(table, stem, c);
    RemoveCharMember(Pinyin(table, stem), ' ', c);
    KeepNameCharsMember(unspaced, isWord, c);
  }

  lemma {:induction false} KeepNameCharsAll(s: string, isWord: char -> bool)
    requires forall i :: 0 <= i < |s| ==> NameChar(isWord, s[i])
    ensures KeepNameChars(s, isWord) == s
  {
    if s != [] {
      KeepNameCharsAll(s[1..], isWord);
      assert [s[0]] + s[1..] == s;
    }
  }

  lemma SplitExtExample(name: string)
    requires name == "店长.flac"
    ensures SplitExt(name) == ("店长", ".flac")
  {
    assert name[2] == '.' && forall k :: 2 < k < |name| ==> name[k] != '.';
    assert forall k :: 0 <= k < |name| ==> name[k] != '/';
    assert LastIndex(name, '.') == 2;
    assert LastIndex(name, '/') == -1;
    assert name[0..2][0] != '.';
    assert name[..2] == "店长" && name[2..] == ".flac";
  }

  lemma PinyinExample(table: map<char, string>, stem: string)
    requires table == map['店' := "dian", '长' := "zhang"] && stem == "店长"
    ensures Pinyin(table, stem) == "dianzhang"
    ensures UnknownChars(table, stem) == {}
  {
    assert stem[..1] == ['店'] && stem[1..] == ['长'];
    assert stem[..1] + stem[1..] == stem;
    PinyinConcat(table, stem[..1], stem[1..]);
    PinyinChar(table, '店');
    PinyinChar(table, '长');
    assert CharPinyin(table, '店') == "dian" && CharPinyin(table, '长') == "zhang";
    assert "dian" + "zhang" == "dianzhang";
    forall c | c in stem ensures c in table {
      assert c == '店' || c == '长';
    }
  }

  /** A name made of `\w` characters other than space passes the clean-up unchanged. */
  lemma CleanupKeepsWordName(p: string, isWord: char -> bool)
    requires forall i :: 0 <= i < |p| ==> p[i] != ' ' && isWord(p[i])
    ensures KeepNameChars(ReplaceAll(p, " ", ""), isWord) == p
  {
    NoCharNotContained(p, ' ');
    ReplaceAllAbsent(p, " ", "");
    KeepNameCharsAll(p, isWord);
  }

  /** `dianzhang` holds only lower-case letters, so with `\w` covering them it passes the
      clean-up unchanged. */
  lemma CleanupKeepsExample(p: string, isWord: char -> bool)
    requires p == "dianzhang"
    requires forall c :: 'a' <= c <= 'z' ==> isWord(c)
    ensures KeepNameChars(ReplaceAll(p, " ", ""), isWord) == p
  {
    forall i | 0 <= i < |p| ensures p[i] != ' ' && isWord(p[i]) {
      assert 'a' <= p[i] <= 'z';
    }
    CleanupKeepsWordName(p, isWord);
  }

  /** A worked case: with the table {店: dian, 长: zhang}, `店长.flac` becomes `dianzhang.flac`
      and no character is reported unknown. */
  lemma NormalizeFilenameExample(table: map<char, string>, isWord: char -> bool, name: string)
    requires table == map['店' := "dian", '长' := "zhang"] && name == "店长.flac"
    requires forall c :: 'a' <= c <= 'z' ==> isWord(c)
    ensures NormalizeFilename(table, isWord, name) == ("dianzhang.flac", {})
  {
    SplitExtExample(name);
    var stem, ext := SplitExt(name).0, SplitExt(name).1;
    PinyinExample(table, stem);
    var p := Pinyin(table, stem);
    CleanupKeepsExample(p, isWord);
    assert p + ext == "dianzhang.flac";
  }
}
