/** The producer's table of work units: the transitions as functions, and the class whose methods make them
    under the tracker's lock. */
module WorkTracker {
  import opened CompletedIds
  import opened Wrappers

  datatype Status = Pending | Sent | Completed

  datatype Entry = Entry(id: Id, seqNo: int, status: Status, owner: string)

  datatype Table = Table(entries: map<Id, Entry>, lastCompletedSeq: int, completedCount: int, failedCount: int)

  /** The tracker's part of a checkpoint. */
  datatype Summary = Summary(totalJobs: int, lastCompletedSeq: int, completedCount: int, failedCount: int, pending: int)

  function EmptyTable(): Table {
    Table(map[], -1, 0, 0)
  }

  function AddPending(t: Table, e: Entry): Table {
    t.(entries := t.entries[e.id := e])
  }

  function MarkSent(t: Table, id: Id, consumer: string): Table {
    if id in t.entries then t.(entries := t.entries[id := t.entries[id].(status := Sent, owner := consumer)]) else t
  }

  /** Every result for a known id counts, the repeated ones too, and sets the last completed number. */
  function MarkCompleted(t: Table, id: Id): Table {
    if id in t.entries then
      t.(entries := t.entries[id := t.entries[id].(status := Completed)],
         lastCompletedSeq := t.entries[id].seqNo,
         completedCount := t.completedCount + 1)
    else t
  }

  function MarkFailed(t: Table, id: Id): Table {
    if id in t.entries then
      t.(entries := t.entries[id := t.entries[id].(status := Pending, owner := "")], failedCount := t.failedCount + 1)
    else t
  }

  function Reclaimed(e: Entry, consumer: string): Entry {
    if e.status.Sent? && e.owner == consumer then e.(status := Pending, owner := "") else e
  }

  /** get_failed_for_consumer: the consumer's sent units become pending. */
  function Reclaim(t: Table, consumer: string): Table {
    t.(entries := map id | id in t.entries :: Reclaimed(t.entries[id], consumer))
  }

  function ReclaimedIds(t: Table, consumer: string): set<Id> {
    set id | id in t.entries && t.entries[id].status.Sent? && t.entries[id].owner == consumer
  }

  /** Neither completed nor lost: what pending_count counts. */
  function Open(t: Table): set<Id> {
    set id | id in t.entries && !t.entries[id].status.Completed?
  }

  function Done(t: Table): set<Id> {
    set id | id in t.entries && t.entries[id].status.Completed?
  }

  function Waiting(t: Table): set<Id> {
    set id | id in t.entries && t.entries[id].status.Pending?
  }

  /** Open and completed units are all units. */
  lemma OpenAndDone(t: Table)
    ensures |Open(t)| + |Done(t)| == |t.entries|
  {
    assert Open(t) + Done(t) == t.entries.Keys;
    assert Open(t) !! Done(t);
    assert |t.entries.Keys| == |t.entries|;
  }

  /** How many units are completed changes only with the marks, and by one at most. */
  lemma DoneChanges(t: Table, e: Entry, id: Id, consumer: string)
    ensures e.id !in t.entries && !e.status.Completed? ==> Done(AddPending(t, e)) == Done(t)
    ensures Done(MarkSent(t, id, consumer)) == Done(t) - {id}
    ensures Done(MarkCompleted(t, id)) == if id in t.entries then Done(t) + {id} else Done(t)
    ensures Done(MarkFailed(t, id)) == Done(t) - {id}
    ensures Done(Reclaim(t, consumer)) == Done(t)
  {
  }

  /** A unit waits from its entry, from a failure and from a reclaim on, until it is sent or completed. */
  lemma WaitingChanges(t: Table, e: Entry, id: Id, consumer: string)
    ensures e.status.Pending? ==> Waiting(AddPending(t, e)) == Waiting(t) + {e.id}
    ensures Waiting(MarkSent(t, id, consumer)) == Waiting(t) - {id}
    ensures Waiting(MarkCompleted(t, id)) == Waiting(t) - {id}
    ensures Waiting(MarkFailed(t, id)) == if id in t.entries then Waiting(t) + {id} else Waiting(t)
  {
  }

  /** No transition but the entry changes which units there are, nor any unit but the one it names; a unit that waits
      again has no owner, and one that is completed keeps it. */
  lemma OthersUnchanged(t: Table, id: Id, consumer: string, other: Id)
    requires other in t.entries && other != id
    ensures other in MarkSent(t, id, consumer).entries && MarkSent(t, id, consumer).entries[other] == t.entries[other]
    ensures other in MarkCompleted(t, id).entries && MarkCompleted(t, id).entries[other] == t.entries[other]
    ensures other in MarkFailed(t, id).entries && MarkFailed(t, id).entries[other] == t.entries[other]
    ensures id in t.entries ==> MarkFailed(t, id).entries[id].owner == ""
    ensures id in t.entries ==> MarkCompleted(t, id).entries[id].owner == t.entries[id].owner
  {
  }

  // ---- the last completed number ----

  /** A result message: an id, known or not, and whether it reports a success. */
  datatype Outcome = Outcome(id: Id, ok: bool)

  function TakeOutcome(t: Table, r: Outcome): Table {
    if r.ok then MarkCompleted(t, r.id) else MarkFailed(t, r.id)
  }

  /** The table after a list of results, in the order they arrived. */
  function TakeOutcomes(t: Table, rs: seq<Outcome>): Table
    decreases |rs|
  {
    if rs == [] then t else TakeOutcomes(TakeOutcome(t, rs[0]), rs[1..])
  }

  /** The numbers completed by a list of results, in order, with repetitions. */
  function Marked(t: Table, rs: seq<Outcome>): seq<int> {
    if rs == [] then []
    else (if rs[0].ok && rs[0].id in t.entries then [t.entries[rs[0].id].seqNo] else []) + Marked(t, rs[1..])
  }

  /** How many of the results are about units in the table and have the verdict. */
  function Known(t: Table, rs: seq<Outcome>, ok: bool): nat {
    if rs == [] then 0
    else (if rs[0].ok == ok && rs[0].id in t.entries then 1 else 0) + Known(t, rs[1..], ok)
  }

  lemma {:induction false} KnownSame(t: Table, u: Table, rs: seq<Outcome>, ok: bool)
    requires u.entries.Keys == t.entries.Keys
    ensures Known(u, rs, ok) == Known(t, rs, ok)
  {
    if rs != [] {
      KnownSame(t, u, rs[1..], ok);
    }
  }

  /** A list of results raises each count by the number of its verdicts for known units, repeated ones too. */
  lemma {:induction false} OutcomesCounted(t: Table, rs: seq<Outcome>)
    ensures TakeOutcomes(t, rs).completedCount == t.completedCount + Known(t, rs, true)
    ensures TakeOutcomes(t, rs).failedCount == t.failedCount + Known(t, rs, false)
    ensures TakeOutcomes(t, rs).entries.Keys == t.entries.Keys
    decreases |rs|
  {
    if rs != [] {
      var u := TakeOutcome(t, rs[0]);
      KnownSame(t, u, rs[1..], true);
      KnownSame(t, u, rs[1..], false);
      OutcomesCounted(u, rs[1..]);
    }
  }

  /** Results for unknown ids change nothing; on a new tracker that is all of them, and its counts stay at zero. */
  lemma {:induction false} StrayResults(t: Table, rs: seq<Outcome>)
    requires forall i :: 0 <= i < |rs| ==> rs[i].id !in t.entries
    ensures TakeOutcomes(t, rs) == t
    ensures t == EmptyTable() ==> t.completedCount == t.failedCount == 0 && t.lastCompletedSeq == -1 && t.entries == map[]
    decreases |rs|
  {
    if rs != [] {
      StrayResults(t, rs[1..]);
    }
  }

  /** The last verdict about a known unit in a list of results. */
  function LastVerdict(rs: seq<Outcome>, id: Id): Option<bool> {
    if rs == [] then None
    else if rs[|rs| - 1].id == id then Some(rs[|rs| - 1].ok)
    else LastVerdict(rs[..|rs| - 1], id)
  }

  lemma {:induction false} OutcomesSnoc(t: Table, rs: seq<Outcome>, r: Outcome)
    ensures TakeOutcomes(t, rs + [r]) == TakeOutcome(TakeOutcomes(t, rs), r)
    decreases |rs|
  {
    hide TakeOutcome;
    if rs == [] {
      assert ([r])[1..] == [] && rs + [r] == [r];
      assert TakeOutcomes(t, [r]) == TakeOutcomes(TakeOutcome(t, r), []);
    } else {
      OutcomesSnoc(TakeOutcome(t, rs[0]), rs[1..], r);
      assert (rs + [r])[1..] == rs[1..] + [r];
    }
  }

  /** The last result about a unit decides: after a success it is completed, after a failure it waits again, also when
      it had been completed before. */
  lemma {:induction false} LastVerdictDecides(t: Table, rs: seq<Outcome>, id: Id)
    requires id in t.entries
    ensures var u, last := TakeOutcomes(t, rs), LastVerdict(rs, id);
      && (id in Done(u) <==> if last.Some? then last.value else id in Done(t))
      && (id in Waiting(u) <==> if last.Some? then !last.value else id in Waiting(t))
    decreases |rs|
  {
    hide Done, Waiting, MarkCompleted, MarkFailed, TakeOutcomes;
    if rs == [] {
      NoOutcomes(t);
    } else {
      var before, r := rs[..|rs| - 1], rs[|rs| - 1];
      assert rs == before + [r];
      OutcomesSnoc(t, before, r);
      LastVerdictDecides(t, before, id);
      OutcomesCounted(t, before);
      DoneChanges(TakeOutcomes(t, before), Entry(id, 0, Pending, ""), r.id, "");
      WaitingChanges(TakeOutcomes(t, before), Entry(id, 0, Pending, ""), r.id, "");
    }
  }

  lemma NoOutcomes(t: Table)
    ensures TakeOutcomes(t, []) == t
  {
  }

  predicate SameNumbers(t: Table, u: Table) {
    && u.entries.Keys == t.entries.Keys
    && forall id :: id in t.entries ==> u.entries[id].seqNo == t.entries[id].seqNo
  }

  lemma OutcomeKeepsNumbers(t: Table, r: Outcome)
    ensures SameNumbers(t, TakeOutcome(t, r))
  {
  }

  lemma {:induction false} MarkedSame(t: Table, u: Table, rs: seq<Outcome>)
    requires SameNumbers(t, u)
    ensures Marked(u, rs) == Marked(t, rs)
  {
    if rs != [] {
      MarkedSame(t, u, rs[1..]);
    }
  }

  /** The last completed number is that of the last success, whatever failed or was unknown in between. */
  lemma {:induction false} LastIsLastMarked(t: Table, rs: seq<Outcome>)
    ensures var marked := Marked(t, rs);
      TakeOutcomes(t, rs).lastCompletedSeq == if marked == [] then t.lastCompletedSeq else marked[|marked| - 1]
    decreases |rs|
  {
    if rs != [] {
      var u := TakeOutcome(t, rs[0]);
      OutcomeKeepsNumbers(t, rs[0]);
      MarkedSame(t, u, rs[1..]);
      LastIsLastMarked(u, rs[1..]);
    }
  }

  /** After reclaiming, nothing sent belongs to the consumer, and only what did has changed: it waits again. */
  lemma ReclaimReturnsAll(t: Table, consumer: string)
    ensures ReclaimedIds(Reclaim(t, consumer), consumer) == {}
    ensures Waiting(Reclaim(t, consumer)) == Waiting(t) + ReclaimedIds(t, consumer)
    ensures forall id :: id in t.entries && id !in ReclaimedIds(t, consumer) ==>
              Reclaim(t, consumer).entries[id] == t.entries[id]
  {
  }

  // ---- get_pending ----

  ghost predicate SortedBySeq(s: seq<Entry>) {
    forall i, j :: 0 <= i < j < |s| ==> s[i].seqNo <= s[j].seqNo
  }

  /** Where the entry goes in a sorted list: behind those of the same number. */
  function Insert(e: Entry, s: seq<Entry>): (r: seq<Entry>)
    ensures |r| == |s| + 1
  {
    if s == [] || e.seqNo < s[0].seqNo then [e] + s else [s[0]] + Insert(e, s[1..])
  }

  lemma {:induction false} InsertElements(e: Entry, s: seq<Entry>)
    ensures multiset(Insert(e, s)) == multiset(s) + multiset{e}
  {
    if !(s == [] || e.seqNo < s[0].seqNo) {
      InsertElements(e, s[1..]);
      assert s == [s[0]] + s[1..];
    }
  }

  lemma {:induction false} InsertSorts(e: Entry, s: seq<Entry>, low: int)
    requires SortedBySeq(s) && (s != [] ==> low <= s[0].seqNo) && low <= e.seqNo
    ensures SortedBySeq(Insert(e, s)) && low <= Insert(e, s)[0].seqNo
  {
    if !(s == [] || e.seqNo < s[0].seqNo) {
      InsertSorts(e, s[1..], s[0].seqNo);
      SortedCons(s[0], Insert(e, s[1..]));
    }
  }

  lemma SortedCons(e: Entry, s: seq<Entry>)
    requires SortedBySeq(s) && s != [] && e.seqNo <= s[0].seqNo
    ensures SortedBySeq([e] + s)
  {
    var r := [e] + s;
    forall i, j | 0 <= i < j < |r|
      ensures r[i].seqNo <= r[j].seqNo
    {
      assert s[0].seqNo <= s[j - 1].seqNo;
    }
  }

  /** The entries of a table whose keys are their ids, as a sorted list: nothing missing, nothing twice. */
  ghost predicate ListsPending(t: Table, s: seq<Entry>) {
    && SortedBySeq(s)
    && multiset(s) == multiset(EntriesOf(t, Waiting(t)))
  }

  ghost function EntriesOf(t: Table, ids: set<Id>): set<Entry> {
    set id | id in ids && id in t.entries :: t.entries[id]
  }

  /** get_pending: the pending entries with the lowest numbers, in order; None stands for the exception that
      resizing to a negative count raises. */
  ghost predicate IsGetPending(t: Table, count: int, r: Option<seq<Entry>>) {
    exists s :: ListsPending(t, s) && r == if |s| <= count then Some(s) else if count < 0 then None else Some(s[..count])
  }

  /** It throws exactly for a negative count, whatever the table holds. */
  lemma GetPendingThrowsIff(t: Table, count: int, r: Option<seq<Entry>>)
    requires IsGetPending(t, count, r)
    ensures r.None? <==> count < 0
    ensures r.Some? ==> |r.value| <= count
  {
  }

  /** What is left out is pending with a number at least as high as everything handed out. */
  lemma LowestFirst(t: Table, count: nat, r: seq<Entry>, id: Id)
    requires IsGetPending(t, count, Some(r)) && id in Waiting(t) && t.entries[id] !in r
    ensures |r| == count && forall i :: 0 <= i < count ==> r[i].seqNo <= t.entries[id].seqNo
  {
    var s :| ListsPending(t, s) && Some(r) == if |s| <= count then Some(s) else Some(s[..count]);
    assert t.entries[id] in EntriesOf(t, Waiting(t));
    assert t.entries[id] in multiset(s);
    var k :| 0 <= k < |s| && s[k] == t.entries[id];
    assert forall j :: 0 <= j < |r| ==> s[j] == r[j];
  }

  // ---- going through the table ----

  lemma Visit<T>(seen: set<T>, x: T, chosen: set<T>)
    requires x !in seen
    ensures (seen + {x}) * chosen == if x in chosen then seen * chosen + {x} else seen * chosen
    ensures |(seen + {x}) * chosen| == |seen * chosen| + if x in chosen then 1 else 0
  {
    if x in chosen {
      assert (seen + {x}) * chosen == seen * chosen + {x};
    } else {
      assert (seen + {x}) * chosen == seen * chosen;
    }
  }

  lemma Listed<T>(s: seq<T>, a: set<T>, x: T)
    requires multiset(s) == multiset(a) && x !in a
    ensures multiset(s + [x]) == multiset(a + {x})
  {
    assert multiset(a + {x}) == multiset(a) + multiset{x};
  }

  lemma ReclaimedIdsAre(t: Table, consumer: string)
    ensures ReclaimedIds(t, consumer) <= t.entries.Keys
  {
  }

  /** The table when the entries in seen have been gone through. */
  ghost function ReclaimedIn(t: Table, seen: set<Id>, consumer: string): map<Id, Entry> {
    map id | id in t.entries :: if id in seen then Reclaimed(t.entries[id], consumer) else t.entries[id]
  }

  lemma ReclaimStarts(t: Table, consumer: string)
    ensures ReclaimedIn(t, {}, consumer) == t.entries
    ensures ReclaimedIn(t, t.entries.Keys, consumer) == Reclaim(t, consumer).entries
  {
    hide Reclaimed;
  }

  lemma ReclaimGoesOn(t: Table, seen: set<Id>, id: Id, consumer: string)
    requires id in t.entries && id !in seen
    ensures id in ReclaimedIn(t, seen, consumer) && ReclaimedIn(t, seen, consumer)[id] == t.entries[id]
    ensures ReclaimedIn(t, seen + {id}, consumer)
         == ReclaimedIn(t, seen, consumer)[id := Reclaimed(t.entries[id], consumer)]
  {
    hide Reclaimed;
  }

  lemma WaitingAre(t: Table)
    ensures Waiting(t) <= t.entries.Keys
  {
  }

  lemma EntriesOfNone(t: Table)
    ensures EntriesOf(t, {}) == {}
  {
  }

  lemma EntriesGrow(t: Table, ids: set<Id>, id: Id)
    requires id in t.entries && id !in ids && forall x :: x in t.entries ==> t.entries[x].id == x
    ensures EntriesOf(t, ids + {id}) == EntriesOf(t, ids) + {t.entries[id]}
    ensures t.entries[id] !in EntriesOf(t, ids)
  {
  }

  // ---- the class ----

  class WorkTracker {
    var entries: map<Id, Entry>
    var lastCompletedSeq: int
    var completedCount: int
    var failedCount: int

    function View(): Table
      reads this
    {
      Table(entries, lastCompletedSeq, completedCount, failedCount)
    }

    constructor ()
      ensures View() == EmptyTable()
    {
      entries, lastCompletedSeq, completedCount, failedCount := map[], -1, 0, 0;
    }

    method Add(entry: Entry)
      modifies this
      ensures View() == AddPending(old(View()), entry)
    {
      entries := entries[entry.id := entry];
    }

    method Send(id: Id, consumer: string)
      modifies this
      ensures View() == MarkSent(old(View()), id, consumer)
    {
      if id in entries {
        entries := entries[id := entries[id].(status := Sent, owner := consumer)];
      }
    }

    method Complete(id: Id)
      modifies this
      ensures View() == MarkCompleted(old(View()), id)
    {
      if id in entries {
        entries := entries[id := entries[id].(status := Completed)];
        lastCompletedSeq := entries[id].seqNo;
        completedCount := completedCount + 1;
      }
    }

    method Fail(id: Id)
      modifies this
      ensures View() == MarkFailed(old(View()), id)
    {
      if id in entries {
        entries := entries[id := entries[id].(status := Pending, owner := "")];
        failedCount := failedCount + 1;
      }
    }

    method Find(id: Id) returns (entry: Option<Entry>)
      ensures entry == if id in View().entries then Some(View().entries[id]) else None
    {
      entry := if id in entries then Some(entries[id]) else None;
    }

    /** The loop over the table, in whatever order it comes. */
    method PendingCount() returns (count: int)
      ensures count == |Open(View())|
    {
      count := 0;
      var left := entries.Keys;
      ghost var seen: set<Id> := {};
      while left != {}
        modifies {}
        invariant seen !! left && seen + left == entries.Keys
        invariant count == |seen * Open(View())|
        decreases left
      {
        var id :| id in left;
        left := left - {id};
        Visit(seen, id, Open(View()));
        if entries[id].status.Pending? || entries[id].status.Sent? {
          count := count + 1;
        }
        seen := seen + {id};
      }
      assert seen * Open(View()) == Open(View());
    }

    /** The loop's body: one entry, reclaimed when it is the consumer's. */
    method ReclaimOne(id: Id, consumer: string, found: seq<Id>, ghost before: Table, ghost seen: set<Id>)
      returns (result: seq<Id>)
      requires id in entries && id in before.entries && entries[id] == before.entries[id] && id !in seen
      requires multiset(found) == multiset(seen * ReclaimedIds(before, consumer))
      modifies this`entries
      ensures entries == old(entries)[id := Reclaimed(before.entries[id], consumer)]
      ensures multiset(result) == multiset((seen + {id}) * ReclaimedIds(before, consumer))
    {
      ghost var wanted := ReclaimedIds(before, consumer);
      Visit(seen, id, wanted);
      if entries[id].status.Sent? && entries[id].owner == consumer {
        Listed(found, seen * wanted, id);
        entries := entries[id := entries[id].(status := Pending, owner := "")];
        result := found + [id];
      } else {
        assert entries == entries[id := entries[id]];
        result := found;
      }
    }

    method GetFailedForConsumer(consumer: string) returns (result: seq<Id>)
      modifies this
      ensures View() == Reclaim(old(View()), consumer)
      ensures multiset(result) == multiset(ReclaimedIds(old(View()), consumer))
    {
      hide Reclaimed, ReclaimedIds, ReclaimedIn;
      result := [];
      ghost var before := View();
      ReclaimedIdsAre(before, consumer);
      ReclaimStarts(before, consumer);
      var left := entries.Keys;
      ghost var seen: set<Id> := {};
      while left != {}
        modifies this`entries
        invariant seen !! left && seen + left == before.entries.Keys
        invariant entries == ReclaimedIn(before, seen, consumer)
        invariant multiset(result) == multiset(seen * ReclaimedIds(before, consumer))
        decreases left
      {
        var id :| id in left;
        left := left - {id};
        ReclaimGoesOn(before, seen, id, consumer);
        result := ReclaimOne(id, consumer, result, before, seen);
        seen := seen + {id};
      }
      assert seen * ReclaimedIds(before, consumer) == ReclaimedIds(before, consumer);
    }

    method ToCheckpoint(totalJobs: int) returns (c: Summary)
      ensures c == Summary(totalJobs, View().lastCompletedSeq, View().completedCount, View().failedCount, |Open(View())|)
    {
      var open := PendingCount();
      c := Summary(totalJobs, lastCompletedSeq, completedCount, failedCount, open);
    }

    static method SortBySeq(s: seq<Entry>) returns (r: seq<Entry>)
      ensures SortedBySeq(r) && multiset(r) == multiset(s)
    {
      r := [];
      for i := 0 to |s|
        invariant SortedBySeq(r) && multiset(r) == multiset(s[..i])
      {
        InsertElements(s[i], r);
        InsertSorts(s[i], r, if r != [] && r[0].seqNo < s[i].seqNo then r[0].seqNo else s[i].seqNo);
        assert s[..i + 1] == s[..i] + [s[i]];
        r := Insert(s[i], r);
      }
      assert s[..|s|] == s;
    }

    /** The loop's body: one entry, collected when it is pending. */
    method CollectOne(id: Id, found: seq<Entry>, ghost seen: set<Id>) returns (pending: seq<Entry>)
      requires forall x :: x in entries ==> entries[x].id == x
      requires id in entries && id !in seen
      requires multiset(found) == multiset(EntriesOf(View(), seen * Waiting(View())))
      ensures multiset(pending) == multiset(EntriesOf(View(), (seen + {id}) * Waiting(View())))
    {
      hide EntriesOf;
      ghost var t, wanted := View(), Waiting(View());
      Visit(seen, id, wanted);
      pending := found;
      if entries[id].status.Pending? {
        EntriesGrow(t, seen * wanted, id);
        Listed(found, EntriesOf(t, seen * wanted), entries[id]);
        pending := found + [entries[id]];
      }
    }

    /** The loop that collects the pending entries. */
    method Collect() returns (pending: seq<Entry>)
      requires forall id :: id in entries ==> entries[id].id == id
      ensures multiset(pending) == multiset(EntriesOf(View(), Waiting(View())))
    {
      hide EntriesOf, Waiting;
      pending := [];
      ghost var wanted := Waiting(View());
      WaitingAre(View());
      EntriesOfNone(View());
      assert {} * wanted == {};
      var left := entries.Keys;
      ghost var seen: set<Id> := {};
      while left != {}
        modifies {}
        invariant seen !! left && seen + left == entries.Keys
        invariant multiset(pending) == multiset(EntriesOf(View(), seen * wanted))
        decreases left
      {
        var id :| id in left;
        left := left - {id};
        pending := CollectOne(id, pending, seen);
        seen := seen + {id};
      }
      assert seen * wanted == wanted;
    }

    method GetPending(count: int) returns (r: Option<seq<Entry>>)
      requires forall id :: id in entries ==> entries[id].id == id
      ensures IsGetPending(View(), count, r)
    {
      var pending := Collect();
      pending := SortBySeq(pending);
      assert ListsPending(View(), pending);
      if |pending| > count {
        if count < 0 {
          return None;
        }
        return Some(pending[..count]);
      }
      r := Some(pending);
    }
  }
}
