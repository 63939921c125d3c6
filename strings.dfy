/** Text helpers shared by the whole pipeline: substring search (Python's `in`),
    prefix and suffix tests, `str.join`, `str.replace` of one character,
    `str.removesuffix`, `str.strip()` and the decimal rendering of `str(int)`. */
module Strings {

  // ---------------------------------------------------------------------------
  // Occurrences
  // ---------------------------------------------------------------------------

  /** `p` occurs in `s` starting at index `i`. */
  predicate OccursAt(s: string, p: string, i: int) {
    0 <= i && i + |p| <= |s| && s[i..i + |p|] == p
  }

  /** Python's `p in s`. */
  ghost predicate Contains(s: string, p: string) {
    exists i :: OccursAt(s, p, i)
  }

  predicate StartsWith(s: string, p: string) {
    |p| <= |s| && s[..|p|] == p
  }

  predicate EndsWith(s: string, p: string) {
    |p| <= |s| && s[|s| - |p|..] == p
  }

  /** `x` occurs in any text that has it as a middle part. */
  lemma ContainsPart(a: string, x: string, b: string)
    ensures Contains(a + x + b, x)
  {
    assert (a + x + b)[|a|..|a| + |x|] == x;
    assert OccursAt(a + x + b, x, |a|);
  }

  /** An occurrence inside a slice is an occurrence in the whole text. */
  lemma ContainsSlice(s: string, i: int, j: int, p: string)
    requires 0 <= i <= j <= |s|
    requires Contains(s[i..j], p)
    ensures Contains(s, p)
  {
    var k :| OccursAt(s[i..j], p, k);
    forall m | 0 <= m < |p| ensures s[i + k + m] == p[m] {
      assert s[i..j][k..k + |p|][m] == s[i + k + m];
    }
    assert s[i + k..i + k + |p|] == p;
    assert OccursAt(s, p, i + k);
  }

  /** Text may be added on both sides without losing an occurrence. */
  lemma ContainsWiden(a: string, s: string, b: string, p: string)
    requires Contains(s, p)
    ensures Contains(a + s + b, p)
  {
    var t := a + s + b;
    assert t[|a|..|a| + |s|] == s;
    ContainsSlice(t, |a|, |a| + |s|, p);
  }

  /** Containment is transitive. */
  lemma ContainsTrans(s: string, q: string, p: string)
    requires Contains(s, q) && Contains(q, p)
    ensures Contains(s, p)
  {
    var i :| OccursAt(s, q, i);
    assert s[i..i + |q|] == q;
    ContainsSlice(s, i, i + |q|, p);
  }

  /** The empty text contains no non-empty pattern. */
  lemma EmptyContainsNothing(p: string)
    requires p != []
    ensures !Contains([], p)
  {
    forall i ensures !OccursAt([], p, i) {
    }
  }

  /** If some character of `p` never appears in `s`, `p` does not occur in `s`. */
  lemma AbsentChar(s: string, p: string, k: nat)
    requires k < |p|
    requires forall j :: 0 <= j < |s| ==> s[j] != p[k]
    ensures !Contains(s, p)
  {
    forall i ensures !OccursAt(s, p, i) {
      if 0 <= i && i + |p| <= |s| {
        assert s[i..i + |p|][k] == s[i + k];
      }
    }
  }

  /** The texts of `lines` one after another. */
  function Concat(lines: seq<string>): string
    decreases |lines|
  {
    if lines == [] then [] else lines[0] + Concat(lines[1..])
  }

  lemma {:induction false} ConcatAppend(a: seq<string>, b: seq<string>)
    ensures Concat(a + b) == Concat(a) + Concat(b)
    decreases |a|
  {
    if a == [] {
      assert a + b == b;
    } else {
      assert (a + b)[1..] == a[1..] + b;
      ConcatAppend(a[1..], b);
    }
  }

  lemma SplitThree<T>(xs: seq<T>, i: int, j: int)
    requires 0 <= i <= j <= |xs|
    ensures xs == xs[..i] + xs[i..j] + xs[j..]
  {
  }

  lemma ConcatThree(p: seq<string>, m: seq<string>, q: seq<string>)
    ensures Concat(p + m + q) == Concat(p) + Concat(m) + Concat(q)
  {
    ConcatAppend(p + m, q);
    ConcatAppend(p, m);
  }

  /** Consecutive lines occur, together, in the concatenation of all lines. */
  lemma ConcatContains(lines: seq<string>, i: int, j: int)
    requires 0 <= i <= j <= |lines|
    ensures Contains(Concat(lines), Concat(lines[i..j]))
  {
    var p, m, q := lines[..i], lines[i..j], lines[j..];
    SplitThree(lines, i, j);
    ConcatThree(p, m, q);
    ContainsPart(Concat(p), Concat(m), Concat(q));
  }

  /** The concatenation starts with its first line. */
  lemma ConcatStartsWith(lines: seq<string>)
    requires lines != []
    ensures StartsWith(Concat(lines), lines[0])
  {
    assert Concat(lines)[..|lines[0]|] == lines[0];
  }

  // ---------------------------------------------------------------------------
  // str.join, str.replace, str.removesuffix
  // ---------------------------------------------------------------------------

  /** Python's `sep.join(parts)`. */
  function Join(parts: seq<string>, sep: string): string
    decreases |parts|
  {
    if |parts| == 0 then []
    else if |parts| == 1 then parts[0]
    else Join(parts[..|parts| - 1], sep) + sep + parts[|parts| - 1]
  }

  /** `Join(parts + [last])` is `last` alone or ends with the separator and `last`. */
  lemma JoinSnoc(parts: seq<string>, last: string, sep: string)
    ensures parts == [] ==> Join(parts + [last], sep) == last
    ensures parts != [] ==> Join(parts + [last], sep) == Join(parts, sep) + sep + last
  {
    assert (parts + [last])[..|parts|] == parts;
  }

  /** The first part of a join with at least two parts is followed by the separator. */
  lemma JoinHead(parts: seq<string>, sep: string)
    requires |parts| >= 2
    ensures StartsWith(Join(parts, sep), parts[0] + sep)
    decreases |parts|
  {
    var init := parts[..|parts| - 1];
    var n := |parts[0] + sep|;
    if |parts| > 2 {
      JoinHead(init, sep);
      assert Join(parts, sep) == Join(init, sep) + sep + parts[|parts| - 1];
      assert Join(parts, sep)[..n] == Join(init, sep)[..n];
    } else {
      assert Join(parts, sep) == parts[0] + sep + parts[1];
      assert Join(parts, sep)[..n] == parts[0] + sep;
    }
  }

  /** Python's `s.replace(a, b)` for a one-character `a` and `b`. */
  function ReplaceChar(s: string, a: char, b: char): (r: string)
    ensures |r| == |s|
    ensures forall i :: 0 <= i < |s| ==> r[i] == if s[i] == a then b else s[i]
  {
    seq(|s|, i requires 0 <= i < |s| => if s[i] == a then b else s[i])
  }

  /** Replacing the separator character of a join re-joins with the new one. */
  lemma {:induction false} ReplaceJoin(parts: seq<string>, a: char, b: char)
    requires forall k, j :: 0 <= k < |parts| && 0 <= j < |parts[k]| ==> parts[k][j] != a
    ensures ReplaceChar(Join(parts, [a]), a, b) == Join(parts, [b])
    decreases |parts|
  {
    if |parts| == 1 {
      assert ReplaceChar(parts[0], a, b) == parts[0];
    } else if |parts| > 1 {
      var init, last := parts[..|parts| - 1], parts[|parts| - 1];
      ReplaceJoin(init, a, b);
      var l, r := Join(init, [a]), Join(init, [b]);
      assert ReplaceChar(l + [a] + last, a, b) == ReplaceChar(l, a, b) + [b] + ReplaceChar(last, a, b);
      assert ReplaceChar(last, a, b) == last;
    }
  }

  /** Python's `s.removesuffix(suffix)`. */
  function RemoveSuffix(s: string, suffix: string): (r: string)
    ensures suffix != [] && EndsWith(s, suffix) ==> r + suffix == s
    ensures !(suffix != [] && EndsWith(s, suffix)) ==> r == s
  {
    if suffix != [] && EndsWith(s, suffix) then s[..|s| - |suffix|] else s
  }

  // ---------------------------------------------------------------------------
  // str.strip()
  // ---------------------------------------------------------------------------

  /** The code points for which Python's `str.isspace()` holds: the
      characters that `str.strip()` with no argument removes and that the
      regular expression `\s` matches. */
  predicate IsSpace(c: char) {
    ('\U{9}' <= c <= '\U{D}') || ('\U{1C}' <= c <= '\U{20}') || c == '\U{85}' || c == '\U{A0}'
    || c == '\U{1680}' || ('\U{2000}' <= c <= '\U{200A}') || c == '\U{2028}' || c == '\U{2029}'
    || c == '\U{202F}' || c == '\U{205F}' || c == '\U{3000}'
  }

  /** Python's `s.lstrip()`: the suffix left after dropping leading whitespace. */
  function TrimLeft(s: string): (r: string)
    ensures |r| <= |s| && r == s[|s| - |r|..]
    ensures forall j :: 0 <= j < |s| - |r| ==> IsSpace(s[j])
    ensures r == [] || !IsSpace(r[0])
    decreases |s|
  {
    if s != [] && IsSpace(s[0]) then TrimLeft(s[1..]) else s
  }

  /** Python's `s.rstrip()`: the prefix left after dropping trailing whitespace. */
  function TrimRight(s: string): (r: string)
    ensures |r| <= |s| && r == s[..|r|]
    ensures forall j :: |r| <= j < |s| ==> IsSpace(s[j])
    ensures r == [] || !IsSpace(r[|r| - 1])
    decreases |s|
  {
    if s != [] && IsSpace(s[|s| - 1]) then TrimRight(s[..|s| - 1]) else s
  }

  /** Python's `s.strip()`. */
  function Strip(s: string): (r: string)
    ensures r == [] || (!IsSpace(r[0]) && !IsSpace(r[|r| - 1]))
  {
    TrimRight(TrimLeft(s))
  }

  /** A prefix of a suffix is a slice. */
  lemma TakeOfDrop(s: string, a: nat, n: nat)
    requires a + n <= |s|
    ensures s[a..][..n] == s[a..a + n]
  {
  }

  /** Whitespace at the end of a suffix is whitespace at the end of the whole. */
  lemma SpacesOfDrop(s: string, a: nat, n: nat)
    requires a + n <= |s|
    requires forall j :: n <= j < |s| - a ==> IsSpace(s[a..][j])
    ensures forall j :: a + n <= j < |s| ==> IsSpace(s[j])
  {
    forall j | a + n <= j < |s| ensures IsSpace(s[j]) {
      assert s[a..][j - a] == s[j];
    }
  }

  /** `strip()` keeps a contiguous piece of its input. */
  lemma StripSlice(s: string) returns (a: nat, b: nat)
    ensures a <= b <= |s| && Strip(s) == s[a..b]
    ensures forall j :: 0 <= j < a ==> IsSpace(s[j])
    ensures forall j :: b <= j < |s| ==> IsSpace(s[j])
  {
    var l := TrimLeft(s);
    a := |s| - |l|;
    var r := TrimRight(l);
    b := a + |r|;
    TakeOfDrop(s, a, |r|);
    SpacesOfDrop(s, a, |r|);
  }

  /** Whatever occurs in the stripped text occurs in the original. */
  lemma StripContained(s: string, p: string)
    ensures Contains(Strip(s), p) ==> Contains(s, p)
  {
    var a, b := StripSlice(s);
    if Contains(Strip(s), p) {
      ContainsSlice(s, a, b, p);
    }
  }

  /** `strip()` yields the empty text exactly when its input is all whitespace. */
  lemma StripEmpty(s: string)
    ensures Strip(s) == [] <==> forall j :: 0 <= j < |s| ==> IsSpace(s[j])
  {
    var a, b := StripSlice(s);
    if Strip(s) != [] {
      assert Strip(s)[0] == s[a];
    }
  }

  /** Text without surrounding whitespace is a fixed point of `strip()`. */
  lemma StripTrimmed(s: string)
    requires s == [] || (!IsSpace(s[0]) && !IsSpace(s[|s| - 1]))
    ensures Strip(s) == s
  {
  }

  /** An occurrence that lies inside `[a, b)` is an occurrence in `s[a..b]`. */
  lemma OccursInSlice(s: string, p: string, i: int, a: int, b: int)
    requires OccursAt(s, p, i)
    requires 0 <= a <= i && i + |p| <= b <= |s|
    ensures OccursAt(s[a..b], p, i - a)
  {
    var t := s[a..b];
    forall m | 0 <= m < |p| ensures t[i - a + m] == p[m] {
      assert s[i + m] == s[i..i + |p|][m];
    }
    assert t[i - a..i - a + |p|] == p;
  }

  /** The first and last characters of an occurrence are those of the pattern. */
  lemma OccursEnds(s: string, p: string, i: int)
    requires p != [] && OccursAt(s, p, i)
    ensures s[i] == p[0] && s[i + |p| - 1] == p[|p| - 1]
  {
    assert s[i] == s[i..i + |p|][0];
    assert s[i + |p| - 1] == s[i..i + |p|][|p| - 1];
  }

  /** A non-whitespace character lies between the whitespace runs `[0, a)` and `[b, |s|)`. */
  lemma OutsideSpaces(s: string, a: nat, b: nat, i: int)
    requires a <= b <= |s|
    requires 0 <= i < |s| && !IsSpace(s[i])
    requires forall j :: 0 <= j < a ==> IsSpace(s[j])
    requires forall j :: b <= j < |s| ==> IsSpace(s[j])
    ensures a <= i < b
  {
  }

  /** An occurrence that starts and ends with non-whitespace survives cutting
      off whitespace runs `[0, a)` and `[b, |s|)`. */
  lemma KeepsInSlice(s: string, p: string, a: nat, b: nat, i: int)
    requires a <= b <= |s|
    requires p != [] && !IsSpace(p[0]) && !IsSpace(p[|p| - 1])
    requires OccursAt(s, p, i)
    requires forall j :: 0 <= j < a ==> IsSpace(s[j])
    requires forall j :: b <= j < |s| ==> IsSpace(s[j])
    ensures OccursAt(s[a..b], p, i - a)
  {
    OccursEnds(s, p, i);
    OutsideSpaces(s, a, b, i);
    OutsideSpaces(s, a, b, i + |p| - 1);
    OccursInSlice(s, p, i, a, b);
  }

  /** `strip()` keeps every occurrence of a pattern that starts and ends with
      non-whitespace. */
  lemma StripKeeps(s: string, p: string)
    requires p != [] && !IsSpace(p[0]) && !IsSpace(p[|p| - 1])
    requires Contains(s, p)
    ensures Contains(Strip(s), p)
  {
    var a, b := StripSlice(s);
    var i :| OccursAt(s, p, i);
    KeepsInSlice(s, p, a, b, i);
  }

  // ---------------------------------------------------------------------------
  // Decimal digits
  // ---------------------------------------------------------------------------

  /** An ASCII decimal digit. */
  predicate IsDigit(c: char) {
    '0' <= c <= '9'
  }

  predicate AllDigits(s: string) {
    forall j :: 0 <= j < |s| ==> IsDigit(s[j])
  }

  function DigitChar(d: nat): (c: char)
    requires d < 10
    ensures IsDigit(c) && c as int - '0' as int == d
  {
    ('0' as int + d) as char
  }

  /** The number a run of decimal digits denotes. */
  function DigitsValue(s: string): nat
    requires AllDigits(s)
    decreases |s|
  {
    if s == [] then 0
    else DigitsValue(s[..|s| - 1]) * 10 + (s[|s| - 1] as int - '0' as int)
  }

  /** Python's `str(n)` for a non-negative integer: decimal, no leading zero. */
  function NatToString(n: nat): (r: string)
    ensures r != [] && AllDigits(r)
    ensures |r| > 1 ==> r[0] != '0'
    decreases n
  {
    if n < 10 then [DigitChar(n)] else NatToString(n / 10) + [DigitChar(n % 10)]
  }

  /** Reading back the decimal rendering gives the number. */
  lemma {:induction false} NatToStringValue(n: nat)
    ensures DigitsValue(NatToString(n)) == n
    decreases n
  {
    if n >= 10 {
      NatToStringValue(n / 10);
      var r := NatToString(n);
      assert r[..|r| - 1] == NatToString(n / 10);
    }
  }
}
