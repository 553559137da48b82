/**
 * The small part of JavaScript's string library the core relies on: the white-space class shared by
 * the regular-expression escape `\s` and `String.prototype.trim`, trimming, ASCII case mapping,
 * `includes`, `join`, `split(c).pop()`, the decimal rendering of non-negative numbers, the array
 * methods `filter` and duplicate-freedom, and the bytes a `Buffer` holds.
 */
module Js {

  /** One byte of a `Buffer` or `ArrayBuffer`. */
  type Byte = bv8

  /** A code point JavaScript counts as WhiteSpace or LineTerminator. */
  predicate IsSpace(c: char) {
    || c == '\t' || c == '\n' || c == '\U{B}' || c == '\U{C}' || c == '\r' || c == ' '
    || c == '\U{A0}' || c == '\U{1680}' || ('\U{2000}' <= c <= '\U{200A}')
    || c == '\U{2028}' || c == '\U{2029}' || c == '\U{202F}' || c == '\U{205F}'
    || c == '\U{3000}' || c == '\U{FEFF}'
  }

  predicate AllSpace(s: string) {
    forall i :: 0 <= i < |s| ==> IsSpace(s[i])
  }

  predicate NoSpace(s: string) {
    forall i :: 0 <= i < |s| ==> !IsSpace(s[i])
  }

  /** Neither the first nor the last character is white space. */
  predicate Trimmed(s: string) {
    s == [] || (!IsSpace(s[0]) && !IsSpace(s[|s| - 1]))
  }

  /** Length of the longest all-white-space prefix of `s`. */
  function LeadingSpaces(s: string): (n: nat)
    ensures n <= |s| && AllSpace(s[..n])
    ensures n < |s| ==> !IsSpace(s[n])
  {
    if s == [] || !IsSpace(s[0]) then 0 else 1 + LeadingSpaces(s[1..])
  }

  /** Length of the longest all-white-space suffix of `s`. */
  function TrailingSpaces(s: string): (n: nat)
    ensures n <= |s| && AllSpace(s[|s| - n..])
    ensures n < |s| ==> !IsSpace(s[|s| - n - 1])
  {
    if s == [] || !IsSpace(s[|s| - 1]) then 0 else 1 + TrailingSpaces(s[..|s| - 1])
  }

  /** `s` splits as white space, then `r` starting at index `i`, then white space. */
  ghost predicate SpaceAround(r: string, s: string, i: int) {
    0 <= i <= |s| - |r| && s[i..i + |r|] == r && AllSpace(s[..i]) && AllSpace(s[i + |r|..])
  }

  /** `r` is what is left of `s` once white space is taken off both ends. */
  ghost predicate IsTrimOf(r: string, s: string) {
    Trimmed(r) && exists i :: SpaceAround(r, s, i)
  }

  /** `String.prototype.trim`. */
  function Trim(s: string): (r: string)
    ensures IsTrimOf(r, s)
    ensures LeadingSpaces(s) + |r| <= |s| && s[LeadingSpaces(s)..LeadingSpaces(s) + |r|] == r
  {
    var lead := LeadingSpaces(s);
    var t := s[lead..];
    var trail := TrailingSpaces(t);
    var r := t[..|t| - trail];
    assert s[lead..lead + |r|] == r;
    assert s[lead + |r|..] == t[|t| - trail..];
    assert r != [] ==> r[0] == t[0] && r[|r| - 1] == t[|t| - trail - 1];
    assert SpaceAround(r, s, lead);
    r
  }

  /** If a non-empty trimmed `r` sits between white space at `i`, no white space-only prefix reaches past `i`. */
  lemma SpaceAroundStart(r: string, s: string, i: int, j: int)
    requires Trimmed(r) && r != [] && SpaceAround(r, s, i)
    requires 0 <= j <= |s| && AllSpace(s[..j])
    ensures j <= i
  {
  }

  /** The mirror image of SpaceAroundStart at the end of `r`. */
  lemma SpaceAroundEnd(r: string, s: string, i: int, e: int)
    requires Trimmed(r) && r != [] && SpaceAround(r, s, i)
    requires 0 <= e <= |s| && AllSpace(s[e..])
    ensures i + |r| <= e
  {
  }

  /** The trim of a string is unique: any two ways of peeling white space off both ends that leave no white space at either end agree. */
  lemma TrimUnique(r1: string, r2: string, s: string)
    requires IsTrimOf(r1, s) && IsTrimOf(r2, s)
    ensures r1 == r2
  {
    var i1 :| SpaceAround(r1, s, i1);
    var i2 :| SpaceAround(r2, s, i2);
    if r1 != [] && r2 != [] {
      SpaceAroundStart(r1, s, i1, i2);
      SpaceAroundStart(r2, s, i2, i1);
      SpaceAroundEnd(r1, s, i1, i2 + |r2|);
      SpaceAroundEnd(r2, s, i2, i1 + |r1|);
    } else if r1 != [] {
      SpaceAroundStart(r1, s, i1, i2);
      SpaceAroundEnd(r1, s, i1, i2);
    } else if r2 != [] {
      SpaceAroundStart(r2, s, i2, i1);
      SpaceAroundEnd(r2, s, i2, i1);
    }
  }

  /** Trimming changes nothing in a string with no white space at either end. */
  lemma TrimOfTrimmed(s: string)
    requires Trimmed(s)
    ensures Trim(s) == s
  {
    assert SpaceAround(s, s, 0);
    TrimUnique(Trim(s), s, s);
  }

  /** ASCII-only `toLowerCase` of one character. */
  function LowerChar(c: char): char {
    if 'A' <= c <= 'Z' then (c as int + 32) as char else c
  }

  /** ASCII-only `toUpperCase` of one character. */
  function UpperChar(c: char): char {
    if 'a' <= c <= 'z' then (c as int - 32) as char else c
  }

  function ToLower(s: string): (r: string)
    ensures |r| == |s| && forall i :: 0 <= i < |s| ==> r[i] == LowerChar(s[i])
  {
    if s == [] then [] else [LowerChar(s[0])] + ToLower(s[1..])
  }

  function ToUpper(s: string): (r: string)
    ensures |r| == |s| && forall i :: 0 <= i < |s| ==> r[i] == UpperChar(s[i])
  {
    if s == [] then [] else [UpperChar(s[0])] + ToUpper(s[1..])
  }

  /** `sub` occurs in `s` starting at index `i`. */
  predicate OccursAt(s: string, sub: string, i: int) {
    0 <= i <= |s| - |sub| && s[i..i + |sub|] == sub
  }

  /** `s.includes(sub)`. */
  predicate Contains(s: string, sub: string) {
    exists i | 0 <= i <= |s| - |sub| :: OccursAt(s, sub, i)
  }

  /** Every string includes the empty string. */
  lemma ContainsEmpty(s: string)
    ensures Contains(s, "")
  {
    assert OccursAt(s, "", 0);
  }

  /** `xs.filter(keep)`: the elements `keep` accepts, in their order. */
  function Filter<T(!new)>(xs: seq<T>, keep: T -> bool): (r: seq<T>)
    ensures |r| <= |xs|
    ensures forall x :: x in r <==> x in xs && keep(x)
  {
    if xs == [] then []
    else if keep(xs[0]) then [xs[0]] + Filter(xs[1..], keep)
    else Filter(xs[1..], keep)
  }

  /**
   * Filtering a concatenation filters each part and concatenates the results; with the filter of
   * the empty list and of one element, this fixes the result: the kept elements, each as often as
   * it occurs, in their order.
   */
  lemma {:induction false} FilterAppend<T(!new)>(xs: seq<T>, ys: seq<T>, keep: T -> bool)
    ensures Filter(xs + ys, keep) == Filter(xs, keep) + Filter(ys, keep)
    decreases |xs|
  {
    if xs == [] {
      assert xs + ys == ys;
    } else {
      var head := if keep(xs[0]) then [xs[0]] else [];
      var zs := xs + ys;
      assert zs[0] == xs[0] && zs[1..] == xs[1..] + ys;
      FilterStep(xs, keep);
      FilterStep(zs, keep);
      FilterAppend(xs[1..], ys, keep);
      AppendAssociative(head, Filter(xs[1..], keep), Filter(ys, keep));
    }
  }

  /** How `Filter` takes the first element. */
  lemma FilterStep<T(!new)>(xs: seq<T>, keep: T -> bool)
    requires xs != []
    ensures Filter(xs, keep) == (if keep(xs[0]) then [xs[0]] else []) + Filter(xs[1..], keep)
  {
    if !keep(xs[0]) {
      assert [] + Filter(xs[1..], keep) == Filter(xs[1..], keep);
    }
  }

  /** `+` on sequences is associative. */
  lemma AppendAssociative<T>(a: seq<T>, b: seq<T>, c: seq<T>)
    ensures (a + b) + c == a + (b + c)
  {
  }

  /** A filter keeps every occurrence of an accepted element and none of a refused one. */
  lemma {:induction false} FilterCount<T(!new)>(xs: seq<T>, keep: T -> bool, x: T)
    ensures multiset(Filter(xs, keep))[x] == if keep(x) then multiset(xs)[x] else 0
    decreases |xs|
  {
    if xs != [] {
      FilterCount(xs[1..], keep, x);
      assert xs == [xs[0]] + xs[1..];
    }
  }

  /** `xs.some(keep)`. */
  predicate Any<T(==,!new)>(xs: seq<T>, keep: T -> bool) {
    exists x :: x in xs && keep(x)
  }

  /** The filtered list is non-empty exactly when some element passes. */
  lemma FilterNonEmpty<T(!new)>(xs: seq<T>, keep: T -> bool)
    ensures |Filter(xs, keep)| > 0 <==> Any(xs, keep)
  {
    var r := Filter(xs, keep);
    if |r| > 0 {
      assert r[0] in r;
    }
  }

  /** No element occurs twice. */
  predicate Distinct<T(==)>(s: seq<T>) {
    forall i, j :: 0 <= i < j < |s| ==> s[i] != s[j]
  }

  /**
   * A prefix one longer is the shorter prefix and one more element. Stated for any element
   * type, so that using it on strings does not compare strings character by character.
   */
  lemma TakeSnoc<T>(s: seq<T>, n: nat)
    requires 0 < n <= |s|
    ensures s[..n] == s[..n - 1] + [s[n - 1]]
    ensures forall x :: x in s[..n] <==> x in s[..n - 1] || x == s[n - 1]
  {
    assert s[..n] == s[..n - 1] + [s[n - 1]];
  }

  /** Two duplicate-free sequences with no element in common concatenate to a duplicate-free one. */
  lemma DistinctAppend<T>(a: seq<T>, b: seq<T>)
    requires Distinct(a) && Distinct(b)
    requires forall x :: x in a ==> x !in b
    ensures Distinct(a + b)
  {
    forall i, j | 0 <= i < j < |a + b| ensures (a + b)[i] != (a + b)[j] {
      if i < |a| && j >= |a| {
        assert (a + b)[i] in a && (a + b)[j] in b;
      }
    }
  }

  /** `parts.join(sep)`. */
  function Join(parts: seq<string>, sep: string): string {
    if |parts| == 0 then ""
    else if |parts| == 1 then parts[0]
    else parts[0] + sep + Join(parts[1..], sep)
  }

  /** The text after the last `c`, or all of `s` if `c` does not occur: `s.split(c).pop()`. */
  function AfterLast(s: string, c: char): (r: string)
    ensures |r| <= |s| && r == s[|s| - |r|..]
    ensures c !in r
    ensures |r| < |s| ==> s[|s| - |r| - 1] == c
    ensures c !in s ==> r == s
  {
    if s == [] then []
    else if s[|s| - 1] == c then []
    else AfterLast(s[..|s| - 1], c) + [s[|s| - 1]]
  }

  /** What `split(c).pop()` returns is exactly the part after the last separator. */
  lemma {:induction false} AfterLastOf(a: string, c: char, b: string)
    requires c !in b
    ensures AfterLast(a + [c] + b, c) == b
  {
    if b != [] {
      var s := a + [c] + b;
      assert s[..|s| - 1] == a + [c] + b[..|b| - 1];
      AfterLastOf(a, c, b[..|b| - 1]);
    } else {
      assert (a + [c] + b)[|a|] == c;
    }
  }

  predicate IsDigit(c: char) {
    '0' <= c <= '9'
  }

  predicate AllDigits(s: string) {
    forall i :: 0 <= i < |s| ==> IsDigit(s[i])
  }

  function DigitChar(d: nat): char
    requires d < 10
  {
    ('0' as int + d) as char
  }

  function DigitValue(c: char): nat
    requires IsDigit(c)
  {
    c as int - '0' as int
  }

  /** The decimal rendering JavaScript gives a non-negative integer in a template literal. */
  function NatToString(n: nat): (r: string)
    ensures r != [] && AllDigits(r)
    ensures r[0] == '0' ==> n == 0 && r == "0"
  {
    if n < 10 then [DigitChar(n)] else NatToString(n / 10) + [DigitChar(n % 10)]
  }

  /** Reads a string of decimal digits back as a number. */
  function ParseNat(s: string): nat
    requires AllDigits(s)
  {
    if s == [] then 0 else ParseNat(s[..|s| - 1]) * 10 + DigitValue(s[|s| - 1])
  }

  /** Rendering a number in decimal loses nothing: reading it back gives the number. */
  lemma {:induction false} ParseNatToString(n: nat)
    ensures ParseNat(NatToString(n)) == n
  {
    if n >= 10 {
      var s := NatToString(n);
      assert s[..|s| - 1] == NatToString(n / 10);
      ParseNatToString(n / 10);
    }
  }

  /** Different numbers render differently. */
  lemma NatToStringInjective(m: nat, n: nat)
    requires NatToString(m) == NatToString(n)
    ensures m == n
  {
    ParseNatToString(m);
    ParseNatToString(n);
  }

  /** `s.replace(/\s+/g, rep)`: every maximal run of white space becomes one copy of `rep`. */
  function ReplaceSpaceRuns(s: string, rep: string): (r: string)
    ensures NoSpace(rep) ==> NoSpace(r)
    ensures NoSpace(s) ==> r == s
    decreases |s|
  {
    if s == [] then []
    else if IsSpace(s[0]) then rep + ReplaceSpaceRuns(s[LeadingSpaces(s)..], rep)
    else [s[0]] + ReplaceSpaceRuns(s[1..], rep)
  }

  /** A non-empty run of white space followed by a non-space is measured whole. */
  lemma {:induction false} LeadingSpacesOfRun(w: string, b: string)
    requires w != [] && AllSpace(w) && (b == [] || !IsSpace(b[0]))
    ensures LeadingSpaces(w + b) == |w|
    decreases |w|
  {
    assert (w + b)[0] == w[0];
    if |w| == 1 {
      assert (w + b)[1..] == b;
    } else {
      assert (w + b)[1..] == w[1..] + b;
      assert forall i :: 0 <= i < |w| - 1 ==> w[1..][i] == w[i + 1];
      LeadingSpacesOfRun(w[1..], b);
    }
  }

  /** How `ReplaceSpaceRuns` takes a first character that is not white space. */
  lemma ReplaceKeepsHead(s: string, rep: string)
    requires s != [] && !IsSpace(s[0])
    ensures ReplaceSpaceRuns(s, rep) == [s[0]] + ReplaceSpaceRuns(s[1..], rep)
  {
  }

  /** How `ReplaceSpaceRuns` takes a leading run of white space. */
  lemma ReplaceLeadingRun(s: string, rep: string)
    requires s != [] && IsSpace(s[0])
    ensures ReplaceSpaceRuns(s, rep) == rep + ReplaceSpaceRuns(s[LeadingSpaces(s)..], rep)
  {
  }

  /** Regrouping a character in front of two strings. */
  lemma ConsAppend(c: char, x: string, y: string, z: string)
    ensures [c] + (x + y + z) == [c] + x + y + z
  {
  }

  /**
   * One maximal run of white space, after text without white space, becomes one copy of `rep`;
   * the text before it is kept as it is.
   */
  lemma {:induction false} RunBecomesOne(a: string, w: string, b: string, rep: string)
    requires NoSpace(a) && w != [] && AllSpace(w) && (b == [] || !IsSpace(b[0]))
    ensures ReplaceSpaceRuns(a + w + b, rep) == a + rep + ReplaceSpaceRuns(b, rep)
    decreases |a|
  {
    var t := ReplaceSpaceRuns(b, rep);
    if a == [] {
      RunAtStart(w, b, rep);
      EmptyFront(a, w, b);
      EmptyFront(a, rep, t);
    } else {
      var s := a + w + b;
      var a' := a[1..];
      assert s[0] == a[0] && s[1..] == a' + w + b;
      ReplaceKeepsHead(s, rep);
      assert NoSpace(a') by {
        forall i | 0 <= i < |a'| ensures !IsSpace(a'[i]) {
          assert a'[i] == a[i + 1];
        }
      }
      RunBecomesOne(a', w, b, rep);
      assert ReplaceSpaceRuns(s, rep) == [a[0]] + (a' + rep + t);
      ConsAppend(a[0], a', rep, t);
      assert [a[0]] + a' == a;
    }
  }

  /** Nothing in front of two joined strings changes nothing. */
  lemma EmptyFront(e: string, x: string, y: string)
    requires e == []
    ensures e + x + y == x + y
  {
  }

  /** A leading run of white space becomes one copy of `rep`. */
  lemma RunAtStart(w: string, b: string, rep: string)
    requires w != [] && AllSpace(w) && (b == [] || !IsSpace(b[0]))
    ensures ReplaceSpaceRuns(w + b, rep) == rep + ReplaceSpaceRuns(b, rep)
  {
    var s := w + b;
    assert s[0] == w[0];
    ReplaceLeadingRun(s, rep);
    LeadingSpacesOfRun(w, b);
    assert s[|w|..] == b;
  }

  /** The index of the first `c` in `s`, or `|s|` when there is none. */
  function IndexOf(s: string, c: char): (i: nat)
    ensures i <= |s| && c !in s[..i]
    ensures i < |s| ==> s[i] == c
  {
    if s == [] then 0
    else if s[0] == c then 0
    else
      var i := 1 + IndexOf(s[1..], c);
      assert s[..i] == [s[0]] + s[1..][..i - 1];
      i
  }

  /** `s.split(c)` for a one-character separator. */
  function Split(s: string, c: char): (parts: seq<string>)
    ensures |parts| > 0
    decreases |s|
  {
    var i := IndexOf(s, c);
    if i == |s| then [s] else [s[..i]] + Split(s[i + 1..], c)
  }

  /** Splitting on the separator undoes joining with it, when no part contains the separator. */
  lemma {:induction false} SplitJoin(parts: seq<string>, c: char)
    requires |parts| > 0
    requires forall k :: 0 <= k < |parts| ==> c !in parts[k]
    ensures Split(Join(parts, [c]), c) == parts
  {
    if |parts| == 1 {
      assert IndexOf(parts[0], c) == |parts[0]|;
    } else {
      var s := Join(parts, [c]);
      var rest := Join(parts[1..], [c]);
      assert s == parts[0] + [c] + rest;
      IndexOfAfter(parts[0], c, rest);
      assert s[..|parts[0]|] == parts[0];
      assert s[|parts[0]| + 1..] == rest;
      SplitJoin(parts[1..], c);
    }
  }

  /** In `a + [c] + b` with no `c` in `a`, the first `c` is the one right after `a`. */
  lemma {:induction false} IndexOfAfter(a: string, c: char, b: string)
    requires c !in a
    ensures IndexOf(a + [c] + b, c) == |a|
  {
    if a != [] {
      assert (a + [c] + b)[1..] == a[1..] + [c] + b;
      IndexOfAfter(a[1..], c, b);
    }
  }

  /** No white-space suffix is longer than the one TrailingSpaces measures. */
  lemma {:induction false} TrailingSpacesMax(s: string, q: nat)
    requires q <= |s| && AllSpace(s[q..])
    ensures |s| - q <= TrailingSpaces(s)
  {
    if q < |s| {
      assert s[q..][|s| - 1 - q] == s[|s| - 1];
      assert s[..|s| - 1][q..] == s[q..|s| - 1];
      TrailingSpacesMax(s[..|s| - 1], q);
    }
  }

  /** `b` occurs in `a + b + c` right after `a`. */
  lemma OccursInMiddle(a: string, b: string, c: string)
    ensures OccursAt(a + b + c, b, |a|)
  {
    assert (a + b + c)[|a|..|a| + |b|] == b;
  }

  /** Each of `u`, `v` and `w` occurs in `x + u + y + v + z + w + t`. */
  lemma ThreeInside(x: string, u: string, y: string, v: string, z: string, w: string, t: string)
    ensures Contains(x + u + y + v + z + w + t, u)
    ensures Contains(x + u + y + v + z + w + t, v)
    ensures Contains(x + u + y + v + z + w + t, w)
  {
    var s := x + u + y + v + z + w + t;
    OccursInMiddle(x, u, y + v + z + w + t);
    assert x + u + (y + v + z + w + t) == s;
    OccursInMiddle(x + u + y, v, z + w + t);
    assert x + u + y + v + (z + w + t) == s;
    OccursInMiddle(x + u + y + v + z, w, t);
  }

  /** A prefix of an all-white-space prefix is all white space. */
  lemma AllSpacePrefix(s: string, k: nat, m: nat)
    requires m <= k <= |s| && AllSpace(s[..k])
    ensures AllSpace(s[..m])
  {
    forall i | 0 <= i < m ensures IsSpace(s[..m][i]) {
      assert s[..m][i] == s[..k][i];
    }
  }

  /** An occurrence inside a piece of `s` is an occurrence in `s`. */
  lemma OccursWithin(s: string, o: nat, u: string, r: string, i: nat)
    requires o + |u| <= |s| && u == s[o..o + |u|]
    requires i + |r| <= |u| && u[i..i + |r|] == r
    ensures OccursAt(s, r, o + i)
  {
    forall k | 0 <= k < |r| ensures s[o + i..o + i + |r|][k] == r[k] {
      assert u[i..i + |r|][k] == u[i + k] == s[o + i + k];
    }
    assert s[o + i..o + i + |r|] == r;
  }
}
