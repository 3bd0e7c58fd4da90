/** Character classes and string helpers with Python 3 `str` semantics.
    Strings are sequences of Unicode code points, as Python's are. */
module Text {
  import opened Wrappers

  /** `str.isspace()`, which is also the set matched by the regex class `\s`. */
  predicate IsSpace(c: char)
  {
    || c == ' '
    || ('\t' <= c <= '\r')
    || ('\U{1C}' <= c <= '\U{1F}')
    || c == '\U{85}' || c == '\U{A0}' || c == '\U{1680}'
    || ('\U{2000}' <= c <= '\U{200A}')
    || c == '\U{2028}' || c == '\U{2029}' || c == '\U{202F}' || c == '\U{205F}'
    || c == '\U{3000}'
  }

  /** The regex class `\w`, restricted to ASCII: letters, digits and underscore. */
  predicate IsWordChar(c: char)
  {
    ('a' <= c <= 'z') || ('A' <= c <= 'Z') || ('0' <= c <= '9') || c == '_'
  }

  /** The line boundaries recognised by `str.splitlines()`. */
  predicate IsLineBreak(c: char)
  {
    || ('\n' <= c <= '\r')
    || ('\U{1C}' <= c <= '\U{1E}')
    || c == '\U{85}' || c == '\U{2028}' || c == '\U{2029}'
  }

  predicate IsDigit(c: char)
  {
    '0' <= c <= '9'
  }

  /** `s.startswith(p)` */
  predicate StartsWith(s: string, p: string)
  {
    |p| <= |s| && s[..|p|] == p
  }

  /** `s.endswith(p)` */
  predicate EndsWith(s: string, p: string)
  {
    |p| <= |s| && s[|s| - |p|..] == p
  }

  /** `p` occurs in `s` starting at index `i`. */
  predicate OccursAt(s: string, p: string, i: int)
  {
    0 <= i && i + |p| <= |s| && s[i..i + |p|] == p
  }

  /** `p in s` */
  predicate Contains(s: string, p: string)
  {
    exists i | 0 <= i <= |s| :: OccursAt(s, p, i)
  }

  /** `s.index(c)` / `s.find(c)`: the first index of `c`, if any. */
  function IndexOf(s: string, c: char): (r: Option<nat>)
    ensures r.Some? ==> r.value < |s| && s[r.value] == c && c !in s[..r.value]
    ensures r.None? <==> c !in s
  {
    if s == [] then None
    else if s[0] == c then Some(0)
    else match IndexOf(s[1..], c)
      case None => None
      case Some(i) => assert s[1..][..i] == s[1..i + 1]; Some(i + 1)
  }

  /** `s.rindex(c)`: the last index of `c`, if any. */
  function LastIndexOf(s: string, c: char): (r: Option<nat>)
    ensures r.Some? ==> r.value < |s| && s[r.value] == c && c !in s[r.value + 1..]
    ensures r.None? <==> c !in s
  {
    if s == [] then None
    else if s[|s| - 1] == c then Some(|s| - 1)
    else
      var r := LastIndexOf(s[..|s| - 1], c);
      assert s == s[..|s| - 1] + [s[|s| - 1]];
      r
  }

  /** The decimal form of a natural number, as `str(n)` writes it. */
  function NatToString(n: nat): (r: string)
    ensures |r| >= 1 && forall i :: 0 <= i < |r| ==> IsDigit(r[i])
    decreases n
  {
    if n < 10 then [Digit(n)] else NatToString(n / 10) + [Digit(n % 10)]
  }

  function Digit(d: nat): (c: char)
    requires d < 10
    ensures IsDigit(c) && c as int - '0' as int == d
  {
    ('0' as int + d) as char
  }

  /** The value of a non-empty string of decimal digits. */
  function DigitsValue(s: string): nat
    requires forall i :: 0 <= i < |s| ==> IsDigit(s[i])
    decreases |s|
  {
    if s == [] then 0
    else
      assert IsDigit(s[|s| - 1]);
      DigitsValue(s[..|s| - 1]) * 10 + (s[|s| - 1] as int - '0' as int)
  }

  lemma {:induction false} NatToStringRoundTrip(n: nat)
    ensures DigitsValue(NatToString(n)) == n
    decreases n
  {
    var r := NatToString(n);
    if n >= 10 {
      NatToStringRoundTrip(n / 10);
      assert r[..|r| - 1] == NatToString(n / 10);
    }
  }

  /** Python's `<` on `str`: lexicographic by code point, a proper prefix first. */
  predicate StrLess(a: string, b: string)
    decreases |a|
  {
    if a == [] then b != []
    else if b == [] then false
    else if a[0] != b[0] then a[0] < b[0]
    else StrLess(a[1..], b[1..])
  }

  lemma {:induction false} StrLessIrreflexive(a: string)
    ensures !StrLess(a, a)
    decreases |a|
  {
    if a != [] { StrLessIrreflexive(a[1..]); }
  }

  lemma {:induction false} StrLessTransitive(a: string, b: string, c: string)
    requires StrLess(a, b) && StrLess(b, c)
    ensures StrLess(a, c)
    decreases |a|
  {
    if a != [] && b != [] && c != [] && a[0] == b[0] && b[0] == c[0] {
      StrLessTransitive(a[1..], b[1..], c[1..]);
    }
  }

  lemma {:induction false} StrLessTotal(a: string, b: string)
    requires a != b
    ensures StrLess(a, b) || StrLess(b, a)
    decreases |a|
  {
    if a != [] && b != [] && a[0] == b[0] {
      assert a == [a[0]] + a[1..] && b == [b[0]] + b[1..];
      StrLessTotal(a[1..], b[1..]);
    }
  }
  // ---------------------------------------------------------------------------
  // str.splitlines(), str.split() and int()
  // ---------------------------------------------------------------------------

  /** The length of the first line of s: the index of its first line break,
      or |s| when there is none. */
  function LineLen(s: string): (n: nat)
    ensures n <= |s|
    ensures forall j :: 0 <= j < n ==> !IsLineBreak(s[j])
    ensures n < |s| ==> IsLineBreak(s[n])
  {
    if s == [] || IsLineBreak(s[0]) then 0 else 1 + LineLen(s[1..])
  }

  /** `s.splitlines()`: a final line break does not start an empty line, and
      `\r\n` is one break. */
  function SplitLines(s: string): (lines: seq<string>)
    ensures forall i, j :: 0 <= i < |lines| && 0 <= j < |lines[i]| ==> !IsLineBreak(lines[i][j])
    decreases |s|
  {
    if s == [] then []
    else
      var n := LineLen(s);
      if n == |s| then [s]
      else
        var skip := if s[n] == '\r' && n + 1 < |s| && s[n + 1] == '\n' then 2 else 1;
        [s[..n]] + SplitLines(s[n + skip..])
  }

  /** Lines joined with `\n`. */
  function JoinLines(lines: seq<string>): string
  {
    if lines == [] then [] else if |lines| == 1 then lines[0] else lines[0] + "\n" + JoinLines(lines[1..])
  }

  /** Splitting lines joined with `\n` gives them back, provided they hold no
      break themselves and the last one is not empty. */
  lemma {:induction false} SplitJoinLines(lines: seq<string>)
    requires forall i, j :: 0 <= i < |lines| && 0 <= j < |lines[i]| ==> !IsLineBreak(lines[i][j])
    requires lines != [] ==> lines[|lines| - 1] != []
    ensures SplitLines(JoinLines(lines)) == lines
  {
    if lines != [] {
      var l := lines[0];
      assert forall j :: 0 <= j < |l| ==> !IsLineBreak(l[j]) by {
        forall j | 0 <= j < |l| ensures !IsLineBreak(l[j]) { assert l[j] == lines[0][j]; }
      }
      if |lines| > 1 {
        SplitLinesCons(l, JoinLines(lines[1..]));
        SplitJoinLines(lines[1..]);
      } else {
        LineLenOfLine(l, []);
        assert l + [] == l;
      }
    }
  }

  /** A line without breaks followed by `\n` is split off as one line. */
  lemma SplitLinesCons(l: string, rest: string)
    requires forall j :: 0 <= j < |l| ==> !IsLineBreak(l[j])
    ensures SplitLines(l + "\n" + rest) == [l] + SplitLines(rest)
  {
    var s := l + "\n" + rest;
    assert s == l + ("\n" + rest);
    LineLenOfLine(l, "\n" + rest);
    assert s[|l|] == '\n';
    assert s[..|l|] == l;
    assert s[|l| + 1..] == rest;
  }

  lemma {:induction false} LineLenOfLine(l: string, rest: string)
    requires forall j :: 0 <= j < |l| ==> !IsLineBreak(l[j])
    requires rest == [] || IsLineBreak(rest[0])
    ensures LineLen(l + rest) == |l|
    decreases |l|
  {
    if l != [] {
      assert (l + rest)[1..] == l[1..] + rest;
      LineLenOfLine(l[1..], rest);
    }
  }

  /** The number of leading non-space characters of s. */
  function FieldLen(s: string): (n: nat)
    ensures n <= |s|
    ensures forall j :: 0 <= j < n ==> !IsSpace(s[j])
    ensures n < |s| ==> IsSpace(s[n])
  {
    if s == [] || IsSpace(s[0]) then 0 else 1 + FieldLen(s[1..])
  }

  /** `s.split()`: the maximal runs of non-space characters, left to right. */
  function Fields(s: string): (fs: seq<string>)
    ensures forall i :: 0 <= i < |fs| ==> fs[i] != []
    ensures forall i, j :: 0 <= i < |fs| && 0 <= j < |fs[i]| ==> !IsSpace(fs[i][j])
    ensures fs == [] <==> forall j :: 0 <= j < |s| ==> IsSpace(s[j])
    decreases |s|
  {
    if s == [] then []
    else if IsSpace(s[0]) then
      var fs := Fields(s[1..]);
      assert forall j :: 1 <= j < |s| ==> s[j] == s[1..][j - 1];
      fs
    else
      var n := FieldLen(s);
      var fs := [s[..n]] + Fields(s[n..]);
      assert s[0] == s[..n][0];
      fs
  }

  /** Only whitespace from b to the end of s. */
  predicate SpaceFrom(s: string, b: nat)
  {
    forall j :: b <= j < |s| ==> IsSpace(s[j])
  }

  /** s[a..b] is a run of s that is not preceded by a non-space character and
      is followed only by whitespace. */
  predicate LastRunAt(s: string, f: string, a: nat, b: nat)
  {
    a < b <= |s| && f == s[a..b] && (a == 0 || IsSpace(s[a - 1])) && SpaceFrom(s, b)
  }

  /** The last field of `s.split()` is the maximal run of non-space
      characters that ends at the last non-space character of s: it sits at
      s[a..b], with whitespace or the start of s before it and only
      whitespace after it. */
  lemma {:induction false} FieldsLast(s: string) returns (a: nat, b: nat)
    requires Fields(s) != []
    ensures LastRunAt(s, Fields(s)[|Fields(s)| - 1], a, b)
    decreases |s|, 1
  {
    if IsSpace(s[0]) {
      a, b := FieldsLastAfterSpace(s);
    } else {
      a, b := FieldsLastAfterField(s);
    }
  }

  lemma FieldsLastAfterSpace(s: string) returns (a: nat, b: nat)
    requires s != [] && IsSpace(s[0]) && Fields(s) != []
    ensures LastRunAt(s, Fields(s)[|Fields(s)| - 1], a, b)
    decreases |s|, 0
  {
    var t := s[1..];
    assert Fields(s) == Fields(t);
    var a', b' := FieldsLast(t);
    a, b := a' + 1, b' + 1;
    assert s[a..b] == t[a'..b'];
    assert IsSpace(s[a - 1]) by { if a' > 0 { assert s[a - 1] == t[a' - 1]; } }
    forall j | b <= j < |s| ensures IsSpace(s[j]) { assert s[j] == t[j - 1]; }
  }

  lemma FieldsLastAfterField(s: string) returns (a: nat, b: nat)
    requires s != [] && !IsSpace(s[0]) && Fields(s) != []
    ensures LastRunAt(s, Fields(s)[|Fields(s)| - 1], a, b)
    decreases |s|, 0
  {
    var n := FieldLen(s);
    var t := s[n..];
    assert Fields(s) == [s[..n]] + Fields(t);
    if Fields(t) == [] {
      forall j | n <= j < |s| ensures IsSpace(s[j]) { assert s[j] == t[j - n]; }
      a, b := 0, n;
      assert Fields(s)[|Fields(s)| - 1] == s[..n] == s[a..b];
    } else {
      var a', b' := FieldsLast(t);
      var f := Fields(t)[|Fields(t)| - 1];
      assert a' > 0 by {
        assert IsSpace(t[0]) && !IsSpace(f[0]);
      }
      a, b := a' + n, b' + n;
      assert s[a..b] == t[a'..b'];
      assert s[a - 1] == t[a' - 1];
      forall j | b <= j < |s| ensures IsSpace(s[j]) { assert s[j] == t[j - n]; }
    }
  }

  /** `int(t)` for a token without surrounding space: an optional sign, then
      decimal digits with single underscores allowed between them. */
  function ParseInt(t: string): (r: Option<int>)
    ensures r.Some? <==> IsNumeral(t) || (t != [] && (t[0] == '+' || t[0] == '-') && IsNumeral(t[1..]))
    ensures IsNumeral(t) ==> r == Some(ParseNumeral(t).value as int)
    ensures t != [] && t[0] == '+' && IsNumeral(t[1..]) ==> r == Some(ParseNumeral(t[1..]).value as int)
    ensures t != [] && t[0] == '-' && IsNumeral(t[1..]) ==> r == Some(-(ParseNumeral(t[1..]).value as int))
  {
    if t != [] && (t[0] == '+' || t[0] == '-') then
      match ParseNumeral(t[1..])
      case Some(n) => Some(if t[0] == '-' then -(n as int) else n as int)
      case None => None
    else
      match ParseNumeral(t)
      case Some(n) => Some(n)
      case None => None
  }

  /** Digits, each underscore standing between two digits. */
  predicate IsNumeral(t: string)
  {
    t != [] && IsDigit(t[0]) && IsDigit(t[|t| - 1]) &&
    forall i :: 0 <= i < |t| ==> IsDigit(t[i]) || (t[i] == '_' && 0 < i < |t| - 1 && IsDigit(t[i + 1]))
  }

  function DropUnderscores(t: string): (d: string)
    ensures (forall i :: 0 <= i < |t| ==> IsDigit(t[i]) || t[i] == '_') ==> forall i :: 0 <= i < |d| ==> IsDigit(d[i])
    ensures (forall i :: 0 <= i < |t| ==> t[i] != '_') ==> d == t
  {
    if t == [] then []
    else (if t[0] == '_' then [] else [t[0]]) + DropUnderscores(t[1..])
  }

  function ParseNumeral(t: string): (r: Option<nat>)
    ensures r.Some? <==> IsNumeral(t)
    ensures (forall i :: 0 <= i < |t| ==> IsDigit(t[i])) && t != [] ==> r == Some(DigitsValue(t))
  {
    if IsNumeral(t) then
      forall i | 0 <= i < |t| ensures IsDigit(t[i]) || t[i] == '_' {
        assert IsDigit(t[i]) || (t[i] == '_' && 0 < i < |t| - 1 && IsDigit(t[i + 1]));
      }
      var d := DropUnderscores(t);
      Some(DigitsValue(d))
    else None
  }

  /** `int(str(n))` is n, and `int("-" + str(n))` is -n. */
  lemma ParseIntRoundTrip(n: nat)
    ensures ParseInt(NatToString(n)) == Some(n)
    ensures ParseInt("-" + NatToString(n)) == Some(-(n as int))
  {
    var s := NatToString(n);
    NatToStringRoundTrip(n);
    assert IsNumeral(s);
    assert ("-" + s)[1..] == s;
  }
}
