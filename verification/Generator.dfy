/** Whole runs of the password generator: what n calls of setNext from a fresh object produce.
    The row of digits has ten places in the program; the theorems hold for a row of any width. */
module Generator {
  import opened Odometer
  import opened Characters

  datatype Code = Success | Done | NoOption

  /** The abstract value of a generator object.  `done` is its permute status. */
  datatype Gen = Gen(flags: Flags, digits: seq<int>, len: int, done: bool)

  /** The digits in use. */
  function Numeral(g: Gen): seq<int>
    requires 0 <= g.len <= |g.digits|
  {
    g.digits[..g.len]
  }

  /** The digits in use are enabled, and the others are blank. */
  ghost predicate WellFormed(g: Gen) {
    && 0 <= g.len <= |g.digits|
    && AllEnabled(g.flags, Numeral(g))
    && (forall i :: g.len <= i < |g.digits| ==> g.digits[i] == BLANK)
  }

  function Fresh(f: Flags, width: nat): Gen {
    Gen(f, Repeat(BLANK, width), 0, false)
  }

  /** Exactly the states in which setNext returns. */
  predicate Returns(g: Gen) {
    !g.flags.Any() || g.done || CanAdvance(g.flags, g.digits)
  }

  /** One call of setNext: the new state and the value returned. */
  function Next(g: Gen): (Gen, Code)
    requires Returns(g)
  {
    if !g.flags.Any() then (g, NoOption)
    else if g.done then (g, Done)
    else
      var n := Carries(g.flags, g.digits);
      if n == |g.digits| then (g.(done := true), Done)
      else (g.(digits := Advance(g.flags, g.digits), len := if n + 1 > g.len then n + 1 else g.len), Success)
  }

  /** The three codes: NO_OPTION exactly without a range, and then, as after the end, nothing changes. */
  lemma CodeTells(g: Gen)
    requires Returns(g)
    ensures Next(g).1 == NoOption <==> !g.flags.Any()
    ensures Next(g).1 == NoOption ==> Next(g).0 == g
    ensures Next(g).1 == Done ==> Next(g).0 == g.(done := true)
    ensures Next(g).1 == Success ==> !g.done && !Next(g).0.done && Next(g).0.digits != g.digits
  {
    if g.flags.Any() && !g.done {
      var n := Carries(g.flags, g.digits);
      if n < |g.digits| {
        assert Advance(g.flags, g.digits)[n] == Bump(g.flags, g.digits[n]) != g.digits[n];
      }
    }
  }

  lemma {:induction false} CarriesOfPrefix(f: Flags, ds: seq<int>, len: nat)
    requires f.Any() && len <= |ds|
    requires len < |ds| ==> ds[len] == BLANK
    ensures Carries(f, ds) == Carries(f, ds[..len])
  {
    if len > 0 && ds[0] == Top(f) {
      CarriesOfPrefix(f, ds[1..], len - 1);
      assert ds[..len][1..] == ds[1..][..len - 1];
    }
  }

  /** In a well-formed state the call returns; on success the numeral becomes its successor, and
      the call fails exactly when all the digits are last in the alphabet. */
  lemma NextIsSuccessor(g: Gen)
    requires WellFormed(g) && g.flags.Any() && !g.done
    ensures Returns(g)
    ensures WellFormed(Next(g).0) && Next(g).0.flags == g.flags && |Next(g).0.digits| == |g.digits|
    ensures Next(g).1 == Success <==> !(forall i :: 0 <= i < |g.digits| ==> g.digits[i] == Top(g.flags))
    ensures Next(g).1 == Success ==>
      Numeral(Next(g).0) == Successor(g.flags, Numeral(g)) && !Next(g).0.done
    ensures Next(g).1 != Success ==>
      Next(g) == (g.(done := true), Done)
  {
    var f, ds, n := g.flags, Numeral(g), Carries(g.flags, g.digits);
    CarriesOfPrefix(f, g.digits, g.len);
    assert n < g.len ==> g.digits[n] == ds[n];
    if n < |g.digits| {
      var h := Next(g).0;
      var r := Advance(f, g.digits);
      if n < g.len {
        assert r[..g.len] == Successor(f, ds);
      } else {
        assert r[..n + 1] == Successor(f, ds);
      }
      assert Numeral(h) == Successor(f, ds);
    }
  }

  /** A successful call raises the bijective base-k rank by exactly one. */
  lemma NextAddsOne(g: Gen)
    requires WellFormed(g) && g.flags.Any() && !g.done
    ensures Returns(g) && WellFormed(Next(g).0)
    ensures Next(g).0.flags == g.flags && |Next(g).0.digits| == |g.digits|
    ensures Next(g).1 == Success ==>
      Rank(g.flags, Numeral(Next(g).0)) == Rank(g.flags, Numeral(g)) + 1
  {
    NextIsSuccessor(g);
    SuccessorAddsOne(g.flags, Numeral(g));
  }

  lemma BlankIsNotTop(g: Gen)
    requires WellFormed(g) && g.flags.Any() && g.len < |g.digits|
    ensures !(forall i :: 0 <= i < |g.digits| ==> g.digits[i] == Top(g.flags))
  {
    assert g.digits[g.len] != Top(g.flags);
  }

  /** The call fails exactly at the last rank, k + k^2 + ... + k^width. */
  lemma DoneAtLastRank(g: Gen)
    requires WellFormed(g) && g.flags.Any() && !g.done
    ensures Returns(g)
    ensures Next(g).1 == Done <==> Rank(g.flags, Numeral(g)) == WordCount(Base(g.flags), |g.digits|)
  {
    NextAddsOne(g);
    NextIsSuccessor(g);
    if Next(g).1 == Success {
      RankBounds(g.flags, Numeral(Next(g).0));
      WordCountMonotone(Base(g.flags), |Numeral(Next(g).0)|, |g.digits|);
    } else {
      if g.len < |g.digits| {
        BlankIsNotTop(g);
      }
      assert Numeral(g) == g.digits;
      RankOfTops(g.flags, g.digits);
    }
  }

  /** The state after n calls on a fresh generator. */
  ghost function After(f: Flags, width: nat, n: nat): (g: Gen)
    requires f.Any()
    ensures WellFormed(g) && g.flags == f && |g.digits| == width
  {
    if n == 0 then Fresh(f, width)
    else
      var g := After(f, width, n - 1);
      NextStaysWellFormed(g);
      Next(g).0
  }

  lemma NextStaysWellFormed(g: Gen)
    requires WellFormed(g) && g.flags.Any()
    ensures Returns(g) && WellFormed(Next(g).0)
    ensures Next(g).0.flags == g.flags && |Next(g).0.digits| == |g.digits|
  {
    if !g.done {
      NextIsSuccessor(g);
    }
  }

  /** The number of passwords the generator has. */
  ghost function Total(f: Flags, width: nat): nat {
    WordCount(Base(f), width)
  }

  /** One call of a run, by rank: success below the last rank, and then Done for ever. */
  lemma StepByRank(g: Gen)
    requires WellFormed(g) && g.flags.Any() && !g.done
    ensures Returns(g) && WellFormed(Next(g).0) && Next(g).0.flags == g.flags
    ensures Rank(g.flags, Numeral(g)) <= Total(g.flags, |g.digits|)
    ensures Rank(g.flags, Numeral(g)) < Total(g.flags, |g.digits|) ==>
      Next(g).1 == Success && !Next(g).0.done
      && Rank(g.flags, Numeral(Next(g).0)) == Rank(g.flags, Numeral(g)) + 1
    ensures Rank(g.flags, Numeral(g)) == Total(g.flags, |g.digits|) ==>
      Next(g) == (g.(done := true), Done)
  {
    RankBounds(g.flags, Numeral(g));
    WordCountMonotone(Base(g.flags), g.len, |g.digits|);
    NextIsSuccessor(g);
    NextAddsOne(g);
    DoneAtLastRank(g);
  }

  lemma StartsAtZero(f: Flags, width: nat)
    ensures Rank(f, Numeral(Fresh(f, width))) == 0
  {
  }

  lemma DoneStays(g: Gen)
    requires g.done && g.flags.Any()
    ensures Returns(g) && Next(g).0 == g
  {
  }

  /** The n-th call succeeds exactly for n up to k + k^2 + ... + k^width, and then leaves rank n. */
  lemma {:induction false} RunReachesEveryRank(f: Flags, width: nat, n: nat)
    requires f.Any()
    ensures n <= Total(f, width) ==> !After(f, width, n).done && Rank(f, Numeral(After(f, width, n))) == n
    ensures n > Total(f, width) ==>
      After(f, width, n) == After(f, width, Total(f, width)).(done := true)
  {
    hide Next, Returns, Rank, Total;
    if n == 0 {
      StartsAtZero(f, width);
    } else {
      RunReachesEveryRank(f, width, n - 1);
      var g := After(f, width, n - 1);
      NextStaysWellFormed(g);
      assert After(f, width, n) == Next(g).0;
      if g.done {
        DoneStays(g);
      } else {
        StepByRank(g);
      }
    }
  }

  /** What the n-th call returns, over the whole run: Success up to the last word, Done ever after. */
  lemma CallsSucceedExactlyTotalTimes(f: Flags, width: nat, n: nat)
    requires f.Any() && n > 0
    ensures Returns(After(f, width, n - 1))
    ensures Next(After(f, width, n - 1)).1 == (if n <= Total(f, width) then Success else Done)
  {
    hide Total, After, Rank, Advance;
    RunReachesEveryRank(f, width, n - 1);
    var g := After(f, width, n - 1);
    if !g.done {
      StepByRank(g);
    }
  }

  /** The password after n calls. */
  ghost function Password(f: Flags, width: nat, n: nat): string
    requires f.Any()
  {
    Spell(Numeral(After(f, width, n)))
  }

  ghost predicate ProducedBy(f: Flags, width: nat, w: string, n: nat)
    requires f.Any()
  {
    1 <= n <= Total(f, width) && Password(f, width, n) == w
  }

  /** Every word of one to width enabled characters is produced, by exactly one successful call. */
  lemma EveryWordExactlyOnce(f: Flags, width: nat, w: string)
    requires f.Any() && IsWord(f, w) && 1 <= |w| <= width
    ensures exists n :: ProducedBy(f, width, w, n) && forall m :: ProducedBy(f, width, w, m) ==> m == n
  {
    SpellUnspell(f, w);
    var ds := Unspell(w);
    RankBounds(f, ds);
    WordCountMonotone(Base(f), |w|, width);
    var n := Rank(f, ds);
    RunReachesEveryRank(f, width, n);
    RankInjective(f, ds, Numeral(After(f, width, n)));
    assert ProducedBy(f, width, w, n);
    forall m | ProducedBy(f, width, w, m) ensures m == n {
      RunReachesEveryRank(f, width, m);
      UnspellSpell(f, Numeral(After(f, width, m)));
    }
  }

  /** Each password is a word of one to width enabled characters, and the passwords come shortest
      first and in alphabet order. */
  lemma PasswordsInWordOrder(f: Flags, width: nat, m: nat, n: nat)
    requires f.Any() && 1 <= m <= Total(f, width) && 1 <= n <= Total(f, width)
    ensures IsWord(f, Password(f, width, m)) && 1 <= |Password(f, width, m)| <= width
    ensures m < n ==> WordBefore(Password(f, width, m), Password(f, width, n))
  {
    var a, b := Numeral(After(f, width, m)), Numeral(After(f, width, n));
    RunReachesEveryRank(f, width, m);
    RunReachesEveryRank(f, width, n);
    UnspellSpell(f, a);
    if m < n {
      RankOrderIsWordOrder(f, a, b);
      BeforeSpelled(f, a, b);
    }
  }
}
