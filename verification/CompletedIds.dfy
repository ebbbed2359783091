/** The consumer's duplicate cache: a recency list and a set kept in step, bounded in size. */
module CompletedIds {

  const MAX_COMPLETED_IDS := 3000

  /** A work unit id. */
  datatype Id = Id(text: string)

  ghost function Elements(s: seq<Id>): set<Id> {
    set x | x in s
  }

  ghost predicate NoRepeats(s: seq<Id>) {
    s == [] || (s[0] !in s[1..] && NoRepeats(s[1..]))
  }

  /** list::remove: every occurrence of x taken out. */
  function Without(s: seq<Id>, x: Id): (r: seq<Id>)
    ensures |r| <= |s|
  {
    if s == [] then []
    else if s[0] == x then Without(s[1..], x)
    else [s[0]] + Without(s[1..], x)
  }

  lemma {:induction false} WithoutElements(s: seq<Id>, x: Id)
    ensures forall y :: y in Without(s, x) <==> y in s && y != x
    ensures NoRepeats(s) ==> NoRepeats(Without(s, x))
    ensures x !in s ==> Without(s, x) == s
  {
    if s != [] {
      WithoutElements(s[1..], x);
      var rest := Without(s[1..], x);
      assert ([s[0]] + rest)[1..] == rest;
      assert s == [s[0]] + s[1..];
    }
  }

  lemma {:induction false} Pairwise(s: seq<Id>)
    requires NoRepeats(s)
    ensures forall i, j :: 0 <= i < j < |s| ==> s[i] != s[j]
  {
    if s != [] {
      Pairwise(s[1..]);
    }
  }

  lemma {:induction false} PrefixNoRepeats(s: seq<Id>, n: nat)
    requires NoRepeats(s) && n <= |s|
    ensures NoRepeats(s[..n])
  {
    if n > 0 {
      PrefixNoRepeats(s[1..], n - 1);
      assert s[..n][1..] == s[1..][..n - 1];
    }
  }

  lemma DropLast(s: seq<Id>)
    requires NoRepeats(s) && s != []
    ensures NoRepeats(s[..|s| - 1])
    ensures Elements(s[..|s| - 1]) == Elements(s) - {s[|s| - 1]}
  {
    Pairwise(s);
    PrefixNoRepeats(s, |s| - 1);
    assert s == s[..|s| - 1] + [s[|s| - 1]];
  }

  function Trim(s: seq<Id>, cap: nat): seq<Id> {
    if |s| > cap then s[..cap] else s
  }

  /** The list after one more mark. */
  function Touch(lru: seq<Id>, x: Id, cap: nat): seq<Id> {
    Trim([x] + Without(lru, x), cap)
  }

  // ---- the cache as a function of everything ever marked ----

  /** The different ids of a history, most recently marked first. */
  ghost function Recency(history: seq<Id>): (r: seq<Id>)
    ensures NoRepeats(r)
    ensures forall y :: y in r <==> y in history
  {
    if history == [] then []
    else
      var last, before := history[|history| - 1], history[..|history| - 1];
      var rest := Without(Recency(before), last);
      WithoutElements(Recency(before), last);
      assert ([last] + rest)[1..] == rest;
      assert forall y :: y in history <==> y in before || y == last;
      [last] + rest
  }

  /** The different ids marked after the last mark of x. */
  ghost function MarkedSince(history: seq<Id>, x: Id): set<Id> {
    if history == [] || history[|history| - 1] == x then {}
    else {history[|history| - 1]} + MarkedSince(history[..|history| - 1], x)
  }

  /** The part of a list before the first x. */
  ghost function Before(s: seq<Id>, x: Id): (r: seq<Id>)
    ensures r <= s
    ensures x in s ==> |r| < |s| && s[|r|] == x
  {
    if s == [] || s[0] == x then [] else [s[0]] + Before(s[1..], x)
  }

  lemma {:induction false} BeforeWithout(s: seq<Id>, y: Id, x: Id)
    requires x != y
    ensures Before(Without(s, y), x) == Without(Before(s, x), y)
  {
    if s != [] {
      BeforeWithout(s[1..], y, x);
      if s[0] != x {
        assert Before(s, x)[1..] == Before(s[1..], x);
      }
      if s[0] != y {
        assert Without(s, y)[1..] == Without(s[1..], y);
      }
    }
  }

  /** What stands before x in the recency list is exactly what was marked since x. */
  lemma {:induction false} BeforeIsMarkedSince(history: seq<Id>, x: Id)
    requires x in history
    ensures Elements(Before(Recency(history), x)) == MarkedSince(history, x)
  {
    var last, before := history[|history| - 1], history[..|history| - 1];
    assert history == before + [last];
    if last != x {
      BeforeIsMarkedSince(before, x);
      BeforeWithout(Recency(before), last, x);
      WithoutElements(Before(Recency(before), x), last);
      BeforeCons(last, Without(Recency(before), last), x);
    }
  }

  lemma BeforeCons(a: Id, s: seq<Id>, x: Id)
    requires a != x
    ensures Before([a] + s, x) == [a] + Before(s, x)
  {
    assert ([a] + s)[1..] == s;
  }

  lemma {:induction false} CountElements(s: seq<Id>)
    requires NoRepeats(s)
    ensures |Elements(s)| == |s|
  {
    if s != [] {
      CountElements(s[1..]);
      assert Elements(s) == Elements(s[1..]) + {s[0]};
    }
  }

  /** Each id stands in the recency list after as many others as were marked since its last mark. */
  lemma RecencyPlace(history: seq<Id>, x: Id)
    requires x in history
    ensures |MarkedSince(history, x)| < |Recency(history)|
    ensures Recency(history)[|MarkedSince(history, x)|] == x
  {
    hide Recency, MarkedSince, NoRepeats;
    var r := Recency(history);
    BeforeIsMarkedSince(history, x);
    PrefixNoRepeats(r, |Before(r, x)|);
    assert Before(r, x) == r[..|Before(r, x)|];
    CountElements(Before(r, x));
  }

  lemma {:induction false} WithoutPrefix(s: seq<Id>, n: nat, x: Id)
    requires n <= |s|
    ensures Without(s[..n], x) <= Without(s, x)
  {
    if n > 0 {
      assert s[..n][0] == s[0] && s[..n][1..] == s[1..][..n - 1];
      WithoutPrefix(s[1..], n - 1, x);
    }
  }

  lemma TrimPrefix(u: seq<Id>, v: seq<Id>, cap: nat)
    requires |u| >= cap && u <= v
    ensures Trim(v, cap) == Trim(u, cap)
  {
    assert v[..cap] == u[..cap];
  }

  /** Trimming between marks loses nothing: the bounded list stays a prefix of the full one. */
  lemma TouchTrimmed(full: seq<Id>, x: Id, cap: nat)
    requires NoRepeats(full) && cap > 0
    ensures Touch(Trim(full, cap), x, cap) == Trim([x] + Without(full, x), cap)
  {
    if |full| > cap {
      var a := full[..cap];
      WithoutPrefix(full, cap, x);
      WithoutElements(a, x);
      if x in a {
        PrefixNoRepeats(full, cap);
        WithoutOne(a, x);
      }
      assert [x] + Without(a, x) <= [x] + Without(full, x);
      TrimPrefix([x] + Without(a, x), [x] + Without(full, x), cap);
    }
  }

  lemma {:induction false} WithoutOne(s: seq<Id>, x: Id)
    requires NoRepeats(s) && x in s
    ensures |Without(s, x)| == |s| - 1
  {
    if s[0] == x {
      WithoutElements(s[1..], x);
    } else {
      WithoutOne(s[1..], x);
    }
  }

  /** What the cache holds after a history: the recency list cut off at the bound. */
  ghost function Cached(history: seq<Id>, cap: nat): seq<Id> {
    Trim(Recency(history), cap)
  }

  lemma CachedStep(history: seq<Id>, x: Id, cap: nat)
    requires cap > 0
    ensures Cached(history + [x], cap) == Touch(Cached(history, cap), x, cap)
  {
    assert (history + [x])[..|history|] == history;
    TouchTrimmed(Recency(history), x, cap);
  }

  lemma CachedNoRepeats(history: seq<Id>, cap: nat)
    ensures NoRepeats(Cached(history, cap)) && |Cached(history, cap)| <= cap
  {
    if |Recency(history)| > cap {
      PrefixNoRepeats(Recency(history), cap);
    }
  }

  /** An id is cached exactly when it was marked and fewer than cap different ids were marked since. */
  lemma CachedIff(history: seq<Id>, x: Id, cap: nat)
    ensures x in Cached(history, cap) <==> x in history && |MarkedSince(history, x)| < cap
  {
    var r := Recency(history);
    if x in history {
      RecencyPlace(history, x);
      var p := |MarkedSince(history, x)|;
      Pairwise(r);
      assert forall i :: 0 <= i < |r| && r[i] == x ==> i == p;
      if p < cap {
        assert Cached(history, cap)[p] == x;
      }
    }
  }

  /** The cache is full only when that many different ids have been marked. */
  lemma CachedSize(history: seq<Id>, cap: nat)
    ensures |Cached(history, cap)| == if |Elements(history)| < cap then |Elements(history)| else cap
  {
    CountElements(Recency(history));
    assert Elements(Recency(history)) == Elements(history);
  }

  class CompletedCache {
    var completedIdsLru: seq<Id>
    var completedIdsSet: set<Id>
    ghost var history: seq<Id>

    ghost predicate Valid()
      reads this
    {
      && completedIdsLru == Cached(history, MAX_COMPLETED_IDS)
      && completedIdsSet == Elements(completedIdsLru)
    }

    constructor ()
      ensures Valid() && history == []
    {
      completedIdsLru, completedIdsSet, history := [], {}, [];
    }

    method IsCompleted(workUnitId: Id) returns (r: bool)
      requires Valid()
      ensures r <==> workUnitId in history && |MarkedSince(history, workUnitId)| < MAX_COMPLETED_IDS
    {
      CachedIff(history, workUnitId, MAX_COMPLETED_IDS);
      r := workUnitId in completedIdsSet;
    }

    /** The loop that drops the oldest ids. */
    method DropOldest(ghost full: seq<Id>)
      requires completedIdsLru == full && NoRepeats(full) && completedIdsSet == Elements(full)
      modifies this`completedIdsLru, this`completedIdsSet
      ensures completedIdsLru == Trim(full, MAX_COMPLETED_IDS) && completedIdsSet == Elements(completedIdsLru)
    {
      hide NoRepeats, Elements;
      while |completedIdsLru| > MAX_COMPLETED_IDS
        invariant |completedIdsLru| >= MAX_COMPLETED_IDS || completedIdsLru == full
        invariant |completedIdsLru| <= |full| && completedIdsLru == full[..|completedIdsLru|]
        invariant NoRepeats(completedIdsLru) && completedIdsSet == Elements(completedIdsLru)
      {
        DropLast(completedIdsLru);
        var oldest := completedIdsLru[|completedIdsLru| - 1];
        completedIdsLru := completedIdsLru[..|completedIdsLru| - 1];
        completedIdsSet := completedIdsSet - {oldest};
      }
    }

    method MarkCompleted(workUnitId: Id)
      requires Valid()
      modifies this
      ensures Valid() && history == old(history) + [workUnitId]
    {
      hide Without, Recency, NoRepeats, Elements;
      CachedStep(history, workUnitId, MAX_COMPLETED_IDS);
      CachedNoRepeats(history, MAX_COMPLETED_IDS);
      FrontAdded(completedIdsLru, workUnitId);
      ghost var full := [workUnitId] + Without(completedIdsLru, workUnitId);
      history := history + [workUnitId];
      if workUnitId in completedIdsSet {
        completedIdsLru := Without(completedIdsLru, workUnitId);
      }
      completedIdsLru := [workUnitId] + completedIdsLru;
      completedIdsSet := completedIdsSet + {workUnitId};
      DropOldest(full);
    }
  }

  /** Moving an id to the front keeps the list free of repeats, and the set is the old one and the id. */
  lemma FrontAdded(lru: seq<Id>, x: Id)
    requires NoRepeats(lru)
    ensures NoRepeats([x] + Without(lru, x))
    ensures Elements([x] + Without(lru, x)) == Elements(lru) + {x}
    ensures x in Elements(lru) <==> x in lru
    ensures x !in lru ==> Without(lru, x) == lru
  {
    hide Without;
    WithoutElements(lru, x);
    assert ([x] + Without(lru, x))[1..] == Without(lru, x);
  }
}
