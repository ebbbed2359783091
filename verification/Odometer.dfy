/** The password odometer as a number system.

    A generator position is a fixed row of ten digits, least significant first.  A digit is an
    index into the four character ranges, or -1 for a position not yet used.  This module says
    what one successful advance does to the row, and proves that it is "+1" in bijective base k,
    where k is the number of enabled characters. */
module Odometer {
  import opened Arithmetic

  const MAX_PWD_LEN := 10
  const LA_COUNT := 26
  const UA_COUNT := 26
  const NUM_COUNT := 10
  const NA_COUNT := 24
  const RANGE_LA_LOWER := 0
  const RANGE_LA_UPPER := LA_COUNT - 1
  const RANGE_UA_LOWER := LA_COUNT
  const RANGE_UA_UPPER := LA_COUNT + UA_COUNT - 1
  const RANGE_NUM_LOWER := LA_COUNT + UA_COUNT
  const RANGE_NUM_UPPER := LA_COUNT + UA_COUNT + NUM_COUNT - 1
  const RANGE_NA_LOWER := LA_COUNT + UA_COUNT + NUM_COUNT
  const RANGE_NA_UPPER := LA_COUNT + UA_COUNT + NUM_COUNT + NA_COUNT - 1

  const BLANK := -1

  /** Which of the four character ranges are switched on. */
  datatype Flags = Flags(lower: bool, upper: bool, numeric: bool, nonAlpha: bool) {
    predicate Any() {
      lower || upper || numeric || nonAlpha
    }
  }

  predicate Enabled(f: Flags, d: int) {
    || (f.lower && RANGE_LA_LOWER <= d <= RANGE_LA_UPPER)
    || (f.upper && RANGE_UA_LOWER <= d <= RANGE_UA_UPPER)
    || (f.numeric && RANGE_NUM_LOWER <= d <= RANGE_NUM_UPPER)
    || (f.nonAlpha && RANGE_NA_LOWER <= d <= RANGE_NA_UPPER)
  }

  /** k: the number of enabled characters. */
  function Base(f: Flags): nat {
    (if f.lower then LA_COUNT else 0) + (if f.upper then UA_COUNT else 0)
    + (if f.numeric then NUM_COUNT else 0) + (if f.nonAlpha then NA_COUNT else 0)
  }

  /** How many enabled indices lie below d: the place of d in the enabled alphabet. */
  function Place(f: Flags, d: int): (p: nat)
    requires Enabled(f, d)
    ensures p < Base(f)
  {
    if d <= RANGE_LA_UPPER then d
    else
      var la := if f.lower then LA_COUNT else 0;
      if d <= RANGE_UA_UPPER then la + d - RANGE_UA_LOWER
      else
        var ua := la + if f.upper then UA_COUNT else 0;
        if d <= RANGE_NUM_UPPER then ua + d - RANGE_NUM_LOWER
        else ua + (if f.numeric then NUM_COUNT else 0) + d - RANGE_NA_LOWER
  }

  /** The enabled index at place p: the inverse of Place. */
  function AtPlace(f: Flags, p: nat): (d: int)
    requires p < Base(f)
    ensures Enabled(f, d) && Place(f, d) == p
  {
    var la := if f.lower then LA_COUNT else 0;
    var ua := la + if f.upper then UA_COUNT else 0;
    var nu := ua + if f.numeric then NUM_COUNT else 0;
    if p < la then RANGE_LA_LOWER + p
    else if p < ua then RANGE_UA_LOWER + p - la
    else if p < nu then RANGE_NUM_LOWER + p - ua
    else RANGE_NA_LOWER + p - nu
  }

  /** Place numbers the enabled indices in increasing order without gaps. */
  lemma PlaceIsOrderIsomorphism(f: Flags, d: int, e: int)
    requires Enabled(f, d) && Enabled(f, e)
    ensures d < e <==> Place(f, d) < Place(f, e)
    ensures AtPlace(f, Place(f, d)) == d
  {
  }

  /** The smallest enabled index. */
  function Lowest(f: Flags): int
    requires f.Any()
  {
    if f.lower then RANGE_LA_LOWER
    else if f.upper then RANGE_UA_LOWER
    else if f.numeric then RANGE_NUM_LOWER
    else RANGE_NA_LOWER
  }

  /** The largest enabled index. */
  function Top(f: Flags): int
    requires f.Any()
  {
    if f.nonAlpha then RANGE_NA_UPPER
    else if f.numeric then RANGE_NUM_UPPER
    else if f.upper then RANGE_UA_UPPER
    else RANGE_LA_UPPER
  }

  /** Lowest and Top are the two ends of the enabled alphabet. */
  lemma EndsOfAlphabet(f: Flags)
    requires f.Any()
    ensures Enabled(f, Lowest(f)) && Place(f, Lowest(f)) == 0
    ensures Enabled(f, Top(f)) && Place(f, Top(f)) == Base(f) - 1
  {
  }

  /** The number of leading digits that are at the end of the alphabet. */
  function Carries(f: Flags, ds: seq<int>): (n: nat)
    requires f.Any()
    ensures n <= |ds|
    ensures forall i :: 0 <= i < n ==> ds[i] == Top(f)
    ensures n < |ds| ==> ds[n] != Top(f)
  {
    if ds == [] || ds[0] != Top(f) then 0 else 1 + Carries(f, ds[1..])
  }

  /** The next enabled index after d; a blank becomes the first character. */
  function Bump(f: Flags, d: int): int
    requires f.Any()
    requires d == BLANK || (Enabled(f, d) && d != Top(f))
  {
    if d == BLANK then Lowest(f)
    else if Enabled(f, d + 1) then d + 1
    else if d < RANGE_NUM_LOWER && f.numeric then RANGE_NUM_LOWER
    else RANGE_NA_LOWER
  }

  /** Bump moves one place up in the enabled alphabet. */
  lemma BumpIsNextPlace(f: Flags, d: int)
    requires f.Any() && Enabled(f, d) && d != Top(f)
    ensures Enabled(f, Bump(f, d)) && Place(f, Bump(f, d)) == Place(f, d) + 1
  {
  }

  /** The carry stops on a digit that can be advanced, or runs off the row. */
  predicate CanAdvance(f: Flags, ds: seq<int>)
    requires f.Any()
  {
    var n := Carries(f, ds);
    n == |ds| || ds[n] == BLANK || Enabled(f, ds[n])
  }

  function Repeat(d: int, n: nat): (s: seq<int>)
    ensures |s| == n && forall i :: 0 <= i < n ==> s[i] == d
  {
    seq(n, _ => d)
  }

  /** The row after a successful advance. */
  function Advance(f: Flags, ds: seq<int>): (r: seq<int>)
    requires f.Any() && CanAdvance(f, ds) && Carries(f, ds) < |ds|
    ensures |r| == |ds|
  {
    var n := Carries(f, ds);
    Repeat(Lowest(f), n) + [Bump(f, ds[n])] + ds[n + 1..]
  }

  // ---- bijective base-k numerals ----

  ghost predicate AllEnabled(f: Flags, ds: seq<int>) {
    forall i :: 0 <= i < |ds| ==> Enabled(f, ds[i])
  }

  /** The bijective base-k value of a numeral, least significant digit first. */
  ghost function Rank(f: Flags, ds: seq<int>): nat
    requires AllEnabled(f, ds)
  {
    if ds == [] then 0 else Place(f, ds[0]) + 1 + Base(f) * Rank(f, ds[1..])
  }

  ghost function Pow(k: nat, n: nat): nat {
    if n == 0 then 1 else k * Pow(k, n - 1)
  }

  /** k + k^2 + ... + k^n: the number of words of length 1..n over k characters. */
  ghost function WordCount(k: nat, n: nat): nat {
    if n == 0 then 0 else WordCount(k, n - 1) + Pow(k, n)
  }

  lemma {:induction false} WordCountUnfolds(k: nat, n: nat)
    requires n > 0
    ensures WordCount(k, n) == k + k * WordCount(k, n - 1)
  {
    if n == 1 {
      assert Pow(k, 1) == k * Pow(k, 0);
    } else {
      WordCountUnfolds(k, n - 1);
      Distribute(k, WordCount(k, n - 2), Pow(k, n - 1));
    }
  }

  lemma Distribute(k: int, a: int, b: int)
    ensures k * (a + b) == k * a + k * b
  {
  }

  lemma {:induction false} WordCountMonotone(k: nat, m: nat, n: nat)
    requires m <= n
    ensures WordCount(k, m) <= WordCount(k, n)
  {
    if m < n {
      WordCountMonotone(k, m, n - 1);
    }
  }

  /** Numerals of n digits have exactly the ranks after those of n-1 digits. */
  lemma {:induction false} RankBounds(f: Flags, ds: seq<int>)
    requires AllEnabled(f, ds)
    ensures Rank(f, ds) <= WordCount(Base(f), |ds|)
    ensures ds != [] ==> WordCount(Base(f), |ds| - 1) < Rank(f, ds)
  {
    if ds != [] {
      var k, n := Base(f), |ds|;
      RankBounds(f, ds[1..]);
      WordCountUnfolds(k, n);
      if n > 1 {
        WordCountUnfolds(k, n - 1);
      }
      DigitBounds(k, Place(f, ds[0]), Rank(f, ds[1..]),
        if n > 1 then WordCount(k, n - 2) else -1, WordCount(k, n - 1));
    }
  }

  lemma DigitBounds(k: int, p: int, r: int, lo: int, hi: int)
    requires 0 <= p < k && lo < r <= hi
    ensures k + k * lo < p + 1 + k * r <= k + k * hi
  {
    MulMonotone(k, lo + 1, r);
    MulMonotone(k, r, hi);
  }

  /** A numeral of n digits that are all last in the alphabet is the largest of its length. */
  lemma {:induction false} RankOfTops(f: Flags, ds: seq<int>)
    requires f.Any() && AllEnabled(f, ds)
    requires forall i :: 0 <= i < |ds| ==> ds[i] == Top(f)
    ensures Rank(f, ds) == WordCount(Base(f), |ds|)
  {
    if ds != [] {
      RankOfTops(f, ds[1..]);
      WordCountUnfolds(Base(f), |ds|);
    }
  }

  /** The numeral after ds, which is one digit longer when every digit carries. */
  function Successor(f: Flags, ds: seq<int>): (r: seq<int>)
    requires f.Any() && AllEnabled(f, ds)
    ensures AllEnabled(f, r)
    ensures |r| == |ds| + if Carries(f, ds) == |ds| then 1 else 0
  {
    EndsOfAlphabet(f);
    var n := Carries(f, ds);
    if n == |ds| then Repeat(Lowest(f), n + 1)
    else Repeat(Lowest(f), n) + [Bump(f, ds[n])] + ds[n + 1..]
  }

  /** Advancing adds exactly one to the bijective base-k value. */
  lemma {:induction false} SuccessorAddsOne(f: Flags, ds: seq<int>)
    requires f.Any() && AllEnabled(f, ds)
    ensures Rank(f, Successor(f, ds)) == Rank(f, ds) + 1
  {
    hide Base, Place, Enabled, Top, Lowest, Bump;
    var r := Successor(f, ds);
    EndsOfAlphabet(f);
    if ds == [] {
      assert r == [Lowest(f)];
      assert r[1..] == [];
    } else if ds[0] != Top(f) {
      assert r == [Bump(f, ds[0])] + ds[1..];
      BumpIsNextPlace(f, ds[0]);
      assert r[1..] == ds[1..];
    } else {
      SuccessorAddsOne(f, ds[1..]);
      assert Carries(f, ds) == 1 + Carries(f, ds[1..]);
      assert r[1..] == Successor(f, ds[1..]);
      assert Rank(f, r) == 1 + Base(f) * (Rank(f, ds[1..]) + 1);
    }
  }

  /** Different numerals have different ranks. */
  lemma {:induction false} RankInjective(f: Flags, a: seq<int>, b: seq<int>)
    requires AllEnabled(f, a) && AllEnabled(f, b)
    requires Rank(f, a) == Rank(f, b)
    ensures a == b
  {
    if a != [] && b != [] {
      DivisionUnique(Base(f), Place(f, a[0]), Rank(f, a[1..]), Place(f, b[0]), Rank(f, b[1..]));
      PlaceIsOrderIsomorphism(f, a[0], b[0]);
      PlaceIsOrderIsomorphism(f, b[0], a[0]);
      RankInjective(f, a[1..], b[1..]);
      assert a == [a[0]] + a[1..] && b == [b[0]] + b[1..];
    }
  }

  // ---- shortest first, then alphabet order ----

  /** The order of words: a shorter word first; words of one length by the first place, counted
      from the most significant end, where they differ.  Numerals are stored least significant
      first, so that place is the largest differing index. */
  ghost predicate Before(a: seq<int>, b: seq<int>) {
    || |a| < |b|
    || (|a| == |b| && exists i :: DiffersFirstAt(a, b, i) && a[i] < b[i])
  }

  ghost predicate DiffersFirstAt(a: seq<int>, b: seq<int>, i: int) {
    0 <= i < |a| == |b| && a[i] != b[i] && a[i + 1..] == b[i + 1..]
  }

  /** Any two different numerals of one length differ first somewhere. */
  lemma {:induction false} FirstDifference(a: seq<int>, b: seq<int>) returns (i: int)
    requires |a| == |b| && a != b
    ensures DiffersFirstAt(a, b, i)
  {
    if a[1..] == b[1..] {
      assert a == [a[0]] + a[1..] && b == [b[0]] + b[1..];
      i := 0;
    } else {
      var j := FirstDifference(a[1..], b[1..]);
      i := j + 1;
      assert a[1..][j + 1..] == a[i + 1..] && b[1..][j + 1..] == b[i + 1..];
    }
  }

  lemma {:induction false} SmallerAtFirstDifference(f: Flags, a: seq<int>, b: seq<int>, i: int)
    requires AllEnabled(f, a) && AllEnabled(f, b)
    requires DiffersFirstAt(a, b, i) && a[i] < b[i]
    ensures Rank(f, a) < Rank(f, b)
    decreases i
  {
    PlaceIsOrderIsomorphism(f, a[i], b[i]);
    if i > 0 {
      assert a[1..][i..] == a[i + 1..] && b[1..][i..] == b[i + 1..];
      SmallerAtFirstDifference(f, a[1..], b[1..], i - 1);
      DigitBelow(Base(f), Place(f, a[0]), Rank(f, a[1..]), Place(f, b[0]), Rank(f, b[1..]));
    }
  }

  lemma BeforeRaisesRank(f: Flags, a: seq<int>, b: seq<int>)
    requires AllEnabled(f, a) && AllEnabled(f, b) && Before(a, b)
    ensures Rank(f, a) < Rank(f, b)
  {
    if |a| < |b| {
      RankBounds(f, a);
      RankBounds(f, b);
      WordCountMonotone(Base(f), |a|, |b| - 1);
    } else {
      var i :| DiffersFirstAt(a, b, i) && a[i] < b[i];
      SmallerAtFirstDifference(f, a, b, i);
    }
  }

  /** Rank order is exactly shortest-first, alphabet order. */
  lemma RankOrderIsWordOrder(f: Flags, a: seq<int>, b: seq<int>)
    requires AllEnabled(f, a) && AllEnabled(f, b)
    ensures Before(a, b) <==> Rank(f, a) < Rank(f, b)
  {
    if Before(a, b) {
      BeforeRaisesRank(f, a, b);
    } else if a != b {
      if |a| == |b| {
        var i := FirstDifference(a, b);
        assert DiffersFirstAt(b, a, i);
      }
      BeforeRaisesRank(f, b, a);
    }
  }
}
