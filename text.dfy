/** String operations of Python's `str` and `os.path` (POSIX flavour, separator `/`)
    that the renaming scripts rely on, each with the lemmas the rest of the model needs. */
module Text {

  /** A code point of the CJK Unified Ideographs block, U+4E00 to U+9FFF inclusive. */
  predicate IsCjk(c: char) {
    '\U{4E00}' <= c <= '\U{9FFF}'
  }

  /** `any('一' <= ch <= '鿿' for ch in s)` */
  predicate HasCjk(s: string) {
    exists i :: 0 <= i < |s| && IsCjk(s[i])
  }

  /** Python's `str.isspace()` for one character, the set `str.strip()` removes. */
  predicate IsSpace(c: char) {
    c == ' ' || '\t' <= c <= '\r' || '\U{1C}' <= c <= '\U{1F}' || c == '\U{85}' || c == '\U{A0}'
    || c == '\U{1680}' || '\U{2000}' <= c <= '\U{200A}' || c == '\U{2028}' || c == '\U{2029}'
    || c == '\U{202F}' || c == '\U{205F}' || c == '\U{3000}'
  }

  predicate StartsWith(s: string, p: string) {
    |p| <= |s| && s[..|p|] == p
  }

  predicate EndsWith(s: string, p: string) {
    |p| <= |s| && s[|s| - |p|..] == p
  }

  /** Python's `p in s`; the empty string occurs in every string. */
  predicate Contains(s: string, p: string)
    decreases |s|
  {
    StartsWith(s, p) || (s != [] && Contains(s[1..], p))
  }

  /** `s.count(c)` for a single character. */
  function Count(s: string, c: char): nat
  {
    if s == [] then 0 else (if s[0] == c then 1 else 0) + Count(s[1..], c)
  }

  lemma {:induction false} CountConcat(a: string, b: string, c: char)
    ensures Count(a + b, c) == Count(a, c) + Count(b, c)
  {
    if a != [] {
      assert (a + b)[1..] == a[1..] + b;
      CountConcat(a[1..], b, c);
    } else {
      assert a + b == b;
    }
  }

  /** Python's `s.replace(p, r)`: every leftmost non-overlapping occurrence of `p` is
      replaced; with an empty `p`, `r` is inserted before every character and at the end. */
  function ReplaceAll(s: string, p: string, r: string): string
    decreases |s|
  {
    if p == [] then
      (if s == [] then r else r + [s[0]] + ReplaceAll(s[1..], p, r))
    else if |s| < |p| then s
    else if s[..|p|] == p then r + ReplaceAll(s[|p|..], p, r)
    else [s[0]] + ReplaceAll(s[1..], p, r)
  }

  /** Python's `s.replace(p, r, 1)`: only the leftmost occurrence is replaced. */
  function ReplaceFirst(s: string, p: string, r: string): string
    decreases |s|
  {
    if p == [] then r + s
    else if |s| < |p| then s
    else if s[..|p|] == p then r + s[|p|..]
    else [s[0]] + ReplaceFirst(s[1..], p, r)
  }

  /** Replacing a pattern that does not occur changes nothing. */
  lemma {:induction false} ReplaceAllAbsent(s: string, p: string, r: string)
    requires p != [] && !Contains(s, p)
    ensures ReplaceAll(s, p, r) == s
  {
    if |s| >= |p| {
      ReplaceAllAbsent(s[1..], p, r);
      assert [s[0]] + s[1..] == s;
    }
  }

  lemma ReplaceFirstAtStart(s: string, p: string, r: string)
    requires StartsWith(s, p)
    ensures ReplaceFirst(s, p, r) == r + s[|p|..]
  {
  }

  /** Python's `s.split(sep)` for a non-empty separator. */
  function Split(s: string, sep: string): (parts: seq<string>)
    requires sep != []
    ensures |parts| >= 1
    decreases |s|
  {
    if |s| < |sep| then [s]
    else if s[..|sep|] == sep then [""] + Split(s[|sep|..], sep)
    else
      var rest := Split(s[1..], sep);
      [[s[0]] + rest[0]] + rest[1..]
  }

  /** Python's `sep.join(parts)`. */
  function JoinWith(parts: seq<string>, sep: string): string
  {
    if parts == [] then ""
    else if |parts| == 1 then parts[0]
    else parts[0] + sep + JoinWith(parts[1..], sep)
  }

  lemma JoinWithConsHead(c: char, parts: seq<string>, sep: string)
    requires parts != []
    ensures JoinWith([[c] + parts[0]] + parts[1..], sep) == [c] + JoinWith(parts, sep)
  {
    var q := [[c] + parts[0]] + parts[1..];
    if |parts| > 1 {
      assert q[1..] == parts[1..];
    }
  }

  /** `s.replace(p, r) == r.join(s.split(p))`: replacing is splitting at every occurrence
      and gluing the pieces back together with the replacement. */
  lemma {:induction false} ReplaceAllIsSplitJoin(s: string, p: string, r: string)
    requires p != []
    ensures ReplaceAll(s, p, r) == JoinWith(Split(s, p), r)
    decreases |s|
  {
    if |s| < |p| {
    } else if s[..|p|] == p {
      ReplaceAllIsSplitJoin(s[|p|..], p, r);
      var rest := Split(s[|p|..], p);
      assert ([""] + rest)[1..] == rest;
    } else {
      ReplaceAllIsSplitJoin(s[1..], p, r);
      JoinWithConsHead(s[0], Split(s[1..], p), r);
    }
  }

  lemma JoinWithEmptyHead(parts: seq<string>, sep: string)
    requires parts != []
    ensures JoinWith([""] + parts, sep) == sep + JoinWith(parts, sep)
  {
    assert ([""] + parts)[1..] == parts;
    assert "" + sep == sep;
  }

  /** Splitting and re-joining with the same separator gives back the string. */
  lemma {:induction false} JoinSplit(s: string, sep: string)
    requires sep != []
    ensures JoinWith(Split(s, sep), sep) == s
    decreases |s|
  {
    if |s| < |sep| {
    } else if s[..|sep|] == sep {
      JoinSplit(s[|sep|..], sep);
      JoinWithEmptyHead(Split(s[|sep|..], sep), sep);
      assert sep + s[|sep|..] == s;
    } else {
      JoinSplit(s[1..], sep);
      JoinWithConsHead(s[0], Split(s[1..], sep), sep);
      assert [s[0]] + s[1..] == s;
    }
  }

  /** Every occurrence of `sep` in `a + sep[..|sep| - 1]` would start inside `a`; when there is
      none, `a` is the first field of `a + sep + b`. */
  lemma {:induction false} SplitAround(a: string, sep: string, b: string)
    requires sep != []
    requires !Contains(a + sep[..|sep| - 1], sep)
    ensures Split(a + sep + b, sep) == [a] + Split(b, sep)
    decreases |a|
  {
    var s := a + sep + b;
    if a == [] {
      assert s[..|sep|] == sep;
      assert s[|sep|..] == b;
    } else {
      SplitAroundTail(a, sep);
      SplitAroundHead(a, sep, b);
      SplitAround(a[1..], sep, b);
      assert [a[0]] + a[1..] == a;
    }
  }

  /** Dropping the first character keeps `sep` out of `a + sep[..|sep| - 1]`. */
  lemma SplitAroundTail(a: string, sep: string)
    requires sep != [] && a != []
    requires !Contains(a + sep[..|sep| - 1], sep)
    ensures !Contains(a[1..] + sep[..|sep| - 1], sep)
  {
    var t := a + sep[..|sep| - 1];
    assert t[1..] == a[1..] + sep[..|sep| - 1];
  }

  /** No field ends at the first character of `a + sep + b`, so that character starts the
      first field of the rest. */
  lemma SplitAroundHead(a: string, sep: string, b: string)
    requires sep != [] && a != []
    requires !Contains(a + sep[..|sep| - 1], sep)
    ensures var rest := Split(a[1..] + sep + b, sep);
            Split(a + sep + b, sep) == [[a[0]] + rest[0]] + rest[1..]
  {
    var s := a + sep + b;
    var t := a + sep[..|sep| - 1];
    assert t[..|sep|] == s[..|sep|];
    assert !StartsWith(s, sep);
    assert s[1..] == a[1..] + sep + b;
  }

  /** A string without `sep` is one field. */
  lemma {:induction false} SplitAbsent(s: string, sep: string)
    requires sep != [] && !Contains(s, sep)
    ensures Split(s, sep) == [s]
    decreases |s|
  {
    if |s| >= |sep| {
      SplitAbsent(s[1..], sep);
      assert [s[0]] + s[1..] == s;
    }
  }

  /** For a single-character separator, splitting a join of separator-free parts gives the
      parts back. */
  lemma {:induction false} SplitJoin(parts: seq<string>, c: char)
    requires parts != []
    requires forall i :: 0 <= i < |parts| ==> c !in parts[i]
    ensures Split(JoinWith(parts, [c]), [c]) == parts
  {
    if |parts| == 1 {
      NoCharNotContained(parts[0], c);
      SplitAbsent(parts[0], [c]);
    } else {
      SplitJoin(parts[1..], c);
      NoCharNotContained(parts[0], c);
      assert parts[0] + [c][..0] == parts[0];
      SplitAround(parts[0], [c], JoinWith(parts[1..], [c]));
      assert [parts[0]] + parts[1..] == parts;
    }
  }

  lemma {:induction false} NoCharNotContained(s: string, c: char)
    requires c !in s
    ensures !Contains(s, [c])
    decreases |s|
  {
    if s != [] {
      assert s[0] in s;
      assert forall x :: x in s[1..] ==> x in s;
      NoCharNotContained(s[1..], c);
    }
  }

  /** No field of a split on one character contains that character. */
  lemma {:induction false} SplitFieldsFree(s: string, c: char)
    ensures forall i :: 0 <= i < |Split(s, [c])| ==> c !in Split(s, [c])[i]
    decreases |s|
  {
    if |s| >= 1 {
      SplitFieldsFree(s[1..], c);
      if s[0] != c {
        var rest := Split(s[1..], [c]);
        var q := [[s[0]] + rest[0]] + rest[1..];
        forall i | 0 <= i < |q| ensures c !in q[i] {
          if i == 0 {
            assert c !in rest[0];
          } else {
            assert q[i] == rest[i];
          }
        }
      }
    }
  }

  /** Python's `s.lstrip()`, `s.rstrip()` and `s.strip()`. */
  function LStrip(s: string): string
  {
    if s != [] && IsSpace(s[0]) then LStrip(s[1..]) else s
  }

  function RStrip(s: string): string
  {
    if s != [] && IsSpace(s[|s| - 1]) then RStrip(s[..|s| - 1]) else s
  }

  function Strip(s: string): string
  {
    RStrip(LStrip(s))
  }

  /** A string with no white space at either end is its own strip. */
  lemma StripTrimmed(s: string)
    requires s == [] || (!IsSpace(s[0]) && !IsSpace(s[|s| - 1]))
    ensures Strip(s) == s
  {
  }

  /** Index of the last `c` in `s`, or -1: Python's `s.rfind(c)`. */
  function LastIndex(s: string, c: char): (r: int)
    ensures -1 <= r < |s|
    ensures r >= 0 ==> s[r] == c
    ensures forall k :: r < k < |s| ==> s[k] != c
  {
    if s == [] then -1
    else if s[|s| - 1] == c then |s| - 1
    else LastIndex(s[..|s| - 1], c)
  }

  predicate AllDots(s: string) {
    forall i :: 0 <= i < |s| ==> s[i] == '.'
  }

  /** `os.path.splitext`: split at the last `.` of the last path component, provided some
      character other than `.` precedes it in that component; otherwise the extension is empty. */
  function SplitExt(p: string): (r: (string, string))
  {
    var dot := LastIndex(p, '.');
    var sep := LastIndex(p, '/');
    if dot > sep && !AllDots(p[sep + 1..dot]) then (p[..dot], p[dot..]) else (p, "")
  }

  /** The stem and the extension put back together give the name. */
  lemma SplitExtJoin(p: string)
    ensures SplitExt(p).0 + SplitExt(p).1 == p
  {
    var dot := LastIndex(p, '.');
    var sep := LastIndex(p, '/');
    var cut := dot > sep && !AllDots(p[sep + 1..dot]);
    assert SplitExt(p) == if cut then (p[..dot], p[dot..]) else (p, "");
    if cut {
      CutJoin(p, dot);
    } else {
      assert p + "" == p;
    }
  }

  lemma CutJoin(p: string, d: nat)
    requires d <= |p|
    ensures p[..d] + p[d..] == p
  {
  }

  /** An extension is either empty or one `.` followed by no `.` and no `/`. */
  lemma SplitExtExtension(p: string)
    ensures var ext := SplitExt(p).1;
            ext == [] || (ext[0] == '.' && '.' !in ext[1..] && '/' !in ext)
  {
    var dot := LastIndex(p, '.');
    var sep := LastIndex(p, '/');
    if dot > sep && !AllDots(p[sep + 1..dot]) {
      var ext := p[dot..];
      forall k | 0 <= k < |ext| ensures ext[k] != '/' && (k > 0 ==> ext[k] != '.') {
        assert ext[k] == p[dot + k];
      }
      assert '.' !in ext[1..] by {
        forall j | 0 <= j < |ext[1..]| ensures ext[1..][j] != '.' {
          assert ext[1..][j] == ext[j + 1];
        }
      }
    }
  }

  /** The stem and the extension put back together give the name, and an extension is either
      empty or one `.` followed by no `.` and no `/`. */
  lemma SplitExtShape(p: string)
    ensures SplitExt(p).0 + SplitExt(p).1 == p
    ensures var ext := SplitExt(p).1;
            ext == [] || (ext[0] == '.' && '.' !in ext[1..] && '/' !in ext)
  {
    SplitExtJoin(p);
    SplitExtExtension(p);
  }

  /** `os.path.join(a, b)` for two components. */
  function PathJoin(a: string, b: string): string
  {
    if StartsWith(b, "/") then b
    else if a == [] || EndsWith(a, "/") then a + b
    else a + "/" + b
  }

  function RStripSlashes(s: string): string
  {
    if s != [] && s[|s| - 1] == '/' then RStripSlashes(s[..|s| - 1]) else s
  }

  predicate AllSlashes(s: string) {
    forall i :: 0 <= i < |s| ==> s[i] == '/'
  }

  /** `os.path.dirname`. */
  function Dirname(p: string): string
  {
    var head := p[..LastIndex(p, '/') + 1];
    if head != [] && !AllSlashes(head) then RStripSlashes(head) else head
  }

  /** `os.path.basename`. */
  function Basename(p: string): string
  {
    p[LastIndex(p, '/') + 1..]
  }

  /** A directory as `os.walk` reports it: empty (the walk's top) or without a trailing `/`. */
  predicate DirForm(d: string) {
    d == [] || d[|d| - 1] != '/'
  }

  /** Joining a separator-free name to a directory and taking it apart again gives the
      directory and the name back. */
  lemma DirnameBasenameJoin(d: string, name: string)
    requires DirForm(d) && '/' !in name
    ensures Dirname(PathJoin(d, name)) == d
    ensures Basename(PathJoin(d, name)) == name
  {
    assert name != [] ==> name[0] in name;
    assert !StartsWith(name, "/");
    var p := PathJoin(d, name);
    if d == [] {
      assert p == name;
      forall k | 0 <= k < |p| ensures p[k] != '/' {
        assert p[k] in name;
      }
      assert LastIndex(p, '/') == -1;
    } else {
      assert !EndsWith(d, "/");
      assert p == d + "/" + name;
      var i := |d|;
      assert p[i] == '/';
      forall k | i < k < |p| ensures p[k] != '/' {
        assert p[k] == name[k - i - 1];
      }
      assert LastIndex(p, '/') == i;
      var head := p[..i + 1];
      assert head == d + "/";
      assert !AllSlashes(head) by { assert head[|d| - 1] == d[|d| - 1]; }
      assert head[..|head| - 1] == d;
      assert RStripSlashes(head) == RStripSlashes(d);
      assert p[i + 1..] == name;
    }
  }

  /** The CJK code points of `s`, collected into a set character by character:
      `extract_chinese_characters` (the same function appears in two scripts). */
  method ExtractChineseCharacters(text: string) returns (chars: set<char>)
    ensures chars == set c | c in text && IsCjk(c)
  {
    chars := {};
    for i := 0 to |text|
      invariant chars == set c | c in text[..i] && IsCjk(c)
    {
      assert text[..i + 1] == text[..i] + [text[i]];
      if IsCjk(text[i]) {
        chars := chars + {text[i]};
      }
    }
    assert text[..|text|] == text;
  }

  /** `''.join(parts)` */
  function Concat(parts: seq<string>): string
  {
    if parts == [] then "" else Concat(parts[..|parts| - 1]) + parts[|parts| - 1]
  }

  /** A string has a CJK character exactly when the set of its CJK characters is non-empty. */
  lemma CjkSetNonEmpty(s: string)
    ensures (set c | c in s && IsCjk(c)) != {} <==> HasCjk(s)
  {
    var cs := set c | c in s && IsCjk(c);
    if HasCjk(s) {
      var i :| 0 <= i < |s| && IsCjk(s[i]);
      assert s[i] in cs;
    }
    if cs != {} {
      var x :| x in cs;
      var i :| 0 <= i < |s| && s[i] == x;
      assert IsCjk(s[i]);
      assert HasCjk(s);
    }
  }

  /** Python's `a <= b` on strings: code point by code point, a proper prefix first. */
  predicate StrLe(a: string, b: string)
  {
    a == [] || (b != [] && (a[0] < b[0] || (a[0] == b[0] && StrLe(a[1..], b[1..]))))
  }

  lemma {:induction false} StrLeTotal(a: string, b: string)
    ensures StrLe(a, b) || StrLe(b, a)
  {
    if a != [] && b != [] && a[0] == b[0] {
      StrLeTotal(a[1..], b[1..]);
    }
  }

  lemma {:induction false} StrLeAntisymmetric(a: string, b: string)
    requires StrLe(a, b) && StrLe(b, a)
    ensures a == b
  {
    if a != [] {
      StrLeAntisymmetric(a[1..], b[1..]);
      assert a == [a[0]] + a[1..] && b == [b[0]] + b[1..];
    }
  }

  lemma {:induction false} StrLeTransitive(a: string, b: string, c: string)
    requires StrLe(a, b) && StrLe(b, c)
    ensures StrLe(a, c)
  {
    if a != [] && a[0] == b[0] && b[0] == c[0] {
      StrLeTransitive(a[1..], b[1..], c[1..]);
    }
  }
}
