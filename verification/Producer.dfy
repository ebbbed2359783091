/** The producer's side of the protocol: numbering, dispatch, results and reclaiming. */
module Producer {
  import opened Arithmetic
  import opened CompletedIds
  import opened Decimal
  import opened WorkTracker
  import opened Wrappers

  datatype State = State(table: Table, producerId: string, start: int, nextSeq: int, generated: int, dispatched: int)

  /** A producer that starts numbering at start: 0, or one above the checkpoint's last completed number. */
  function Begin(producerId: string, start: int): State {
    State(EmptyTable(), producerId, start, start, 0, 0)
  }

  function IdOf(producerId: string, n: int): Id {
    Id(producerId + "-" + ToString(n))
  }

  lemma IdOfInjective(producerId: string, m: int, n: int)
    requires IdOf(producerId, m) == IdOf(producerId, n)
    ensures m == n
  {
    hide ToString;
    var a := producerId + "-";
    assert (a + ToString(m))[|a|..] == ToString(m);
    assert (a + ToString(n))[|a|..] == ToString(n);
    ToStringInjective(m, n);
  }

  /** The first half of a dispatch: the unit is counted as generated and added as pending. */
  function AddUnit(p: State): State {
    p.(table := AddPending(p.table, Entry(IdOf(p.producerId, p.nextSeq), p.nextSeq, Pending, "")),
       generated := p.generated + 1)
  }

  /** The second half: it is marked as sent and the number is used up. */
  function SendUnit(p: State, consumer: string): State {
    p.(table := MarkSent(p.table, IdOf(p.producerId, p.nextSeq), consumer),
       dispatched := p.dispatched + 1,
       nextSeq := p.nextSeq + 1)
  }

  /** handle_result on the table. */
  function TakeResult(p: State, id: Id, ok: bool): State {
    p.(table := if ok then MarkCompleted(p.table, id) else MarkFailed(p.table, id))
  }

  /** A disconnect, or the monitor's timeout. */
  function ReclaimUnits(p: State, consumer: string): State {
    p.(table := Reclaim(p.table, consumer))
  }

  // ---- the ids from start up to a number ----

  ghost function Ids(producerId: string, start: int, end: int): set<Id>
    decreases end - start
  {
    if end <= start then {} else Ids(producerId, start, end - 1) + {IdOf(producerId, end - 1)}
  }

  lemma {:induction false} InIds(producerId: string, start: int, end: int, n: int)
    ensures IdOf(producerId, n) in Ids(producerId, start, end) <==> start <= n < end
    decreases end - start
  {
    hide IdOf;
    if start < end {
      InIds(producerId, start, end - 1, n);
      if IdOf(producerId, n) == IdOf(producerId, end - 1) {
        IdOfInjective(producerId, n, end - 1);
      }
    }
  }

  lemma {:induction false} CountIds(producerId: string, start: int, end: int)
    requires start <= end
    ensures |Ids(producerId, start, end)| == end - start
    decreases end - start
  {
    hide IdOf;
    if start < end {
      CountIds(producerId, start, end - 1);
      InIds(producerId, start, end - 1, end - 1);
    }
  }

  /** Every member is the id of some number in the range. */
  lemma {:induction false} NumberOf(producerId: string, start: int, end: int, id: Id) returns (n: int)
    requires id in Ids(producerId, start, end)
    ensures start <= n < end && id == IdOf(producerId, n)
    decreases end - start
  {
    hide IdOf;
    if id == IdOf(producerId, end - 1) {
      n := end - 1;
    } else {
      n := NumberOf(producerId, start, end - 1, id);
    }
  }

  // ---- what all four transitions keep; adding says that a unit is between its two halves ----

  function Extra(adding: bool): int {
    if adding then 1 else 0
  }

  /** The keys are exactly the ids of the numbers used, and both counters say how many. */
  ghost predicate Counted(p: State, adding: bool) {
    && p.start <= p.nextSeq
    && p.table.entries.Keys == Ids(p.producerId, p.start, p.nextSeq + Extra(adding))
    && p.generated == p.nextSeq - p.start + Extra(adding)
    && p.dispatched == p.nextSeq - p.start
  }

  /** Every entry carries the number its id was made from. */
  ghost predicate Numbered(p: State) {
    forall id :: id in p.table.entries ==>
      p.table.entries[id].id == id && id == IdOf(p.producerId, p.table.entries[id].seqNo)
  }

  ghost predicate PendingUnowned(t: Table) {
    forall id :: id in t.entries && t.entries[id].status.Pending? ==> t.entries[id].owner == ""
  }

  ghost predicate Consistent(p: State, adding: bool) {
    && Counted(p, adding) && Numbered(p) && PendingUnowned(p.table)
    && |Done(p.table)| <= p.table.completedCount
  }

  lemma BeginConsistent(producerId: string, start: int)
    ensures Consistent(Begin(producerId, start), false)
  {
    assert Done(EmptyTable()) == {};
  }

  /** Same units, whatever happened to their status. */
  ghost predicate SameUnits(t: Table, u: Table) {
    && u.entries.Keys == t.entries.Keys
    && forall id :: id in t.entries ==>
         u.entries[id].id == t.entries[id].id && u.entries[id].seqNo == t.entries[id].seqNo
  }

  lemma MarksKeepUnits(t: Table, id: Id, consumer: string)
    ensures SameUnits(t, MarkSent(t, id, consumer))
    ensures SameUnits(t, MarkCompleted(t, id))
    ensures SameUnits(t, MarkFailed(t, id))
    ensures SameUnits(t, Reclaim(t, consumer))
  {
  }

  lemma MarksKeepUnowned(t: Table, id: Id, consumer: string)
    requires PendingUnowned(t)
    ensures PendingUnowned(MarkSent(t, id, consumer))
    ensures PendingUnowned(MarkCompleted(t, id))
    ensures PendingUnowned(MarkFailed(t, id))
    ensures PendingUnowned(Reclaim(t, consumer))
  {
  }

  /** No mark, not even a repeated one, lets the completed units outrun the count. */
  lemma MarksKeepCount(t: Table, id: Id, consumer: string)
    requires |Done(t)| <= t.completedCount
    ensures |Done(MarkSent(t, id, consumer))| <= MarkSent(t, id, consumer).completedCount
    ensures |Done(MarkCompleted(t, id))| <= MarkCompleted(t, id).completedCount
    ensures |Done(MarkFailed(t, id))| <= MarkFailed(t, id).completedCount
    ensures |Done(Reclaim(t, consumer))| <= Reclaim(t, consumer).completedCount
  {
    hide Done;
    DoneChanges(t, Entry(id, 0, Pending, ""), id, consumer);
    if id in Done(t) {
      assert Done(t) + {id} == Done(t);
      assert Done(t) - {id} < Done(t);
    } else {
      assert Done(t) - {id} == Done(t);
    }
  }

  lemma SameUnitsKeep(p: State, u: Table, adding: bool)
    requires Consistent(p, adding) && SameUnits(p.table, u) && PendingUnowned(u) && |Done(u)| <= u.completedCount
    ensures Consistent(p.(table := u), adding)
  {
    hide IdOf, Ids, Done, PendingUnowned;
  }

  /** The unit added waits, under a new id. */
  lemma AddKeeps(p: State)
    requires Consistent(p, false)
    ensures Consistent(AddUnit(p), true)
    ensures IdOf(p.producerId, p.nextSeq) !in p.table.entries
    ensures Waiting(AddUnit(p).table) == Waiting(p.table) + {IdOf(p.producerId, p.nextSeq)}
  {
    hide IdOf, Done, Waiting, PendingUnowned, Numbered;
    var id := IdOf(p.producerId, p.nextSeq);
    var e := Entry(id, p.nextSeq, Pending, "");
    InIds(p.producerId, p.start, p.nextSeq, p.nextSeq);
    DoneChanges(p.table, e, id, "");
    WaitingChanges(p.table, e, id, "");
    AddCounts(p);
    AddNumbers(p);
    AddUnowned(p.table, e);
  }

  lemma AddNumbers(p: State)
    requires Numbered(p)
    ensures Numbered(AddUnit(p))
  {
    hide IdOf;
  }

  lemma AddUnowned(t: Table, e: Entry)
    requires PendingUnowned(t) && e.owner == ""
    ensures PendingUnowned(AddPending(t, e))
  {
  }

  lemma AddCounts(p: State)
    requires Counted(p, false)
    ensures Counted(AddUnit(p), true)
  {
    hide IdOf;
  }

  lemma SendKeeps(p: State, consumer: string)
    requires Consistent(p, true)
    ensures Consistent(SendUnit(p, consumer), false)
  {
    hide IdOf, Ids, Done, PendingUnowned, SameUnits, MarkSent, Numbered;
    var id := IdOf(p.producerId, p.nextSeq);
    MarksKeepUnits(p.table, id, consumer);
    MarksKeepUnowned(p.table, id, consumer);
    MarksKeepCount(p.table, id, consumer);
    var q := p.(table := MarkSent(p.table, id, consumer));
    SameUnitsKeep(p, q.table, true);
    NumberUsedUp(q, SendUnit(p, consumer));
  }

  lemma NumberUsedUp(q: State, r: State)
    requires Consistent(q, true) && r == q.(dispatched := q.dispatched + 1, nextSeq := q.nextSeq + 1)
    ensures Consistent(r, false)
  {
    hide IdOf, Ids, Done, PendingUnowned;
  }

  lemma ResultKeeps(p: State, adding: bool, id: Id, ok: bool)
    requires Consistent(p, adding)
    ensures Consistent(TakeResult(p, id, ok), adding)
  {
    hide IdOf, Ids, Done, PendingUnowned, SameUnits, MarkCompleted, MarkFailed, Counted, Numbered;
    MarksKeepUnits(p.table, id, "");
    MarksKeepUnowned(p.table, id, "");
    MarksKeepCount(p.table, id, "");
    SameUnitsKeep(p, MarkCompleted(p.table, id), adding);
    SameUnitsKeep(p, MarkFailed(p.table, id), adding);
  }

  lemma ReclaimKeeps(p: State, adding: bool, consumer: string)
    requires Consistent(p, adding)
    ensures Consistent(ReclaimUnits(p, consumer), adding)
  {
    hide IdOf, Ids, Done, PendingUnowned, SameUnits, Reclaim, Counted, Numbered;
    MarksKeepUnits(p.table, Id(""), consumer);
    MarksKeepUnowned(p.table, Id(""), consumer);
    MarksKeepCount(p.table, Id(""), consumer);
    SameUnitsKeep(p, Reclaim(p.table, consumer), adding);
  }

  /** Between messages: one entry for every number from start below next_seq_, as many as were generated and
      dispatched, all of them open or completed, and no more completed than results counted. */
  lemma TableMatchesCounters(p: State)
    requires Consistent(p, false)
    ensures forall n :: IdOf(p.producerId, n) in p.table.entries <==> p.start <= n < p.nextSeq
    ensures forall id :: id in p.table.entries ==> p.start <= p.table.entries[id].seqNo < p.nextSeq
    ensures |p.table.entries| == p.generated == p.dispatched == p.nextSeq - p.start
    ensures |Open(p.table)| + |Done(p.table)| == p.dispatched
    ensures |Done(p.table)| <= p.table.completedCount
  {
    hide IdOf, Ids, Open, Done;
    CountIds(p.producerId, p.start, p.nextSeq);
    assert |p.table.entries| == |p.table.entries.Keys|;
    OpenAndDone(p.table);
    forall n
      ensures IdOf(p.producerId, n) in p.table.entries <==> p.start <= n < p.nextSeq
    {
      InIds(p.producerId, p.start, p.nextSeq, n);
    }
    forall id | id in p.table.entries
      ensures p.start <= p.table.entries[id].seqNo < p.nextSeq
    {
      InIds(p.producerId, p.start, p.nextSeq, p.table.entries[id].seqNo);
    }
  }

  // ---- the checkpoint's number ----

  /** load_checkpoint: where a resumed producer starts numbering. */
  function ResumeStart(t: Table): int {
    t.lastCompletedSeq + 1
  }

  // ---- the handlers ----

  /** After k passes of the dispatch loop. */
  ghost function Dispatch(p: State, consumer: string, k: nat): State {
    if k == 0 then p else SendUnit(AddUnit(Dispatch(p, consumer, k - 1)), consumer)
  }

  /** A request answered with k units leaves a consistent state with k more of everything. */
  lemma {:induction false} DispatchKeeps(p: State, consumer: string, k: nat)
    requires Consistent(p, false)
    ensures Consistent(Dispatch(p, consumer, k), false)
    ensures Dispatch(p, consumer, k).nextSeq == p.nextSeq + k
    ensures Dispatch(p, consumer, k).generated == p.generated + k
    ensures Dispatch(p, consumer, k).producerId == p.producerId && Dispatch(p, consumer, k).start == p.start
  {
    hide Consistent;
    if k > 0 {
      DispatchKeeps(p, consumer, k - 1);
      AddKeeps(Dispatch(p, consumer, k - 1));
      SendKeeps(AddUnit(Dispatch(p, consumer, k - 1)), consumer);
    }
  }

  lemma DispatchNumber(p: State, consumer: string, k: nat)
    ensures Dispatch(p, consumer, k + 1) == SendUnit(AddUnit(Dispatch(p, consumer, k)), consumer)
    ensures Dispatch(p, consumer, k + 1).nextSeq == Dispatch(p, consumer, k).nextSeq + 1
  {
  }

  /** The k units are numbered in order and belong to the consumer that asked; nothing else has changed. */
  lemma {:induction false} DispatchedEntries(p: State, consumer: string, k: nat, n: int)
    requires Consistent(p, false)
    ensures var q, id := Dispatch(p, consumer, k), IdOf(p.producerId, n);
      && (p.nextSeq <= n < p.nextSeq + k ==>
            id in q.table.entries && q.table.entries[id] == Entry(id, n, Sent, consumer))
      && (p.start <= n < p.nextSeq ==>
            id in p.table.entries && id in q.table.entries && q.table.entries[id] == p.table.entries[id])
  {
    hide IdOf, Consistent, Dispatch;
    var id := IdOf(p.producerId, n);
    if k == 0 {
      DispatchNone(p, consumer);
      TableMatchesCounters(p);
    } else {
      var q := Dispatch(p, consumer, k - 1);
      DispatchedEntries(p, consumer, k - 1, n);
      DispatchNumber(p, consumer, k - 1);
      DispatchKeeps(p, consumer, k - 1);
      if n != q.nextSeq && id == IdOf(p.producerId, q.nextSeq) {
        IdOfInjective(p.producerId, n, q.nextSeq);
      }
      OneMoreEntry(q, consumer, id);
    }
  }

  lemma DispatchNone(p: State, consumer: string)
    ensures Dispatch(p, consumer, 0) == p
  {
  }

  lemma OneMoreEntry(q: State, consumer: string, id: Id)
    ensures var r, next := SendUnit(AddUnit(q), consumer), IdOf(q.producerId, q.nextSeq);
      && next in r.table.entries && r.table.entries[next] == Entry(next, q.nextSeq, Sent, consumer)
      && (id != next ==> (id in r.table.entries <==> id in q.table.entries))
      && (id != next && id in q.table.entries ==> r.table.entries[id] == q.table.entries[id])
  {
    hide IdOf;
  }

  /** The passes that dispatch: as many as threads are free, until the plugin is exhausted or a send fails. */
  function Passes(threads: int, supply: nat, firstFailure: nat): (k: nat)
    ensures k <= supply && k <= firstFailure + 1
  {
    if threads <= 0 then 0 else Min(threads, Min(supply, firstFailure + 1))
  }

  /** A work unit message without its time stamp; the job is the plugin's document as text. */
  datatype Message = Message(
    testType: string, sourceFile: string, sourceHash: Option<string>, id: Id, seqNo: int, producerId: string, job: string)

  /** The table has the unit under the message's id and number, sent to the consumer. */
  ghost predicate StandsFor(m: Message, t: Table, consumer: string) {
    m.id in t.entries && t.entries[m.id] == Entry(m.id, m.seqNo, Sent, consumer)
  }

  class Producer {
    const producerId: string
    const start: int
    const testType: string
    const sourceFile: string
    const sourceHash: string
    const tracker: WorkTracker
    var nextSeq: int
    var generated: int
    var dispatched: int
    var running: bool

    function View(): State
      reads this, tracker
    {
      State(tracker.View(), producerId, start, nextSeq, generated, dispatched)
    }

    /** The message for a number and a job; an empty source hash is not sent. */
    function MessageFor(n: int, job: string): Message {
      Message(testType, sourceFile, if sourceHash == "" then None else Some(sourceHash), IdOf(producerId, n), n,
              producerId, job)
    }

    /** The fields of a message about the unit with a number. */
    ghost predicate DescribesUnit(m: Message, n: int, job: string) {
      && m.seqNo == n && m.job == job
      && m.producerId == producerId && m.testType == testType && m.sourceFile == sourceFile
      && (sourceHash == "" ==> m.sourceHash.None?)
      && (sourceHash != "" ==> m.sourceHash == Some(sourceHash))
    }

    lemma MessageStands(before: State, consumer: string, k: nat, n: int, job: string)
      requires before.producerId == producerId && before.nextSeq <= n < before.nextSeq + k
      ensures DescribesUnit(MessageFor(n, job), n, job)
      ensures Consistent(before, false) ==>
        StandsFor(MessageFor(n, job), Dispatch(before, consumer, k).table, consumer)
    {
      hide Consistent, Dispatch, IdOf;
      if Consistent(before, false) {
        DispatchedEntries(before, consumer, k, n);
      }
    }

    constructor (producerId: string, start: int, testType: string, sourceFile: string, sourceHash: string)
      ensures View() == Begin(producerId, start) && fresh(tracker) && running
      ensures this.testType == testType && this.sourceFile == sourceFile && this.sourceHash == sourceHash
    {
      running := true;
      this.testType, this.sourceFile, this.sourceHash := testType, sourceFile, sourceHash;
      this.producerId, this.start, nextSeq, generated, dispatched := producerId, start, start, 0, 0;
      tracker := new WorkTracker();
    }

    /** One pass of the loop up to the send. */
    method DispatchOne(consumer: string)
      modifies this, tracker
      ensures View() == SendUnit(AddUnit(old(View())), consumer)
    {
      var id := IdOf(producerId, nextSeq);
      generated := generated + 1;
      tracker.Add(Entry(id, nextSeq, Pending, ""));
      tracker.Send(id, consumer);
      dispatched := dispatched + 1;
      nextSeq := nextSeq + 1;
    }

    /** handle_work_request; supply are the jobs the plugin still has, firstFailure is the pass whose send throws,
        and delivered are the messages sent without a failure: the units dispatched, each with the next job and the
        number and id under which the tracker has it. */
    method HandleWorkRequest(consumer: string, threads: int, supply: seq<string>, firstFailure: nat)
      returns (delivered: seq<Message>)
      modifies this, tracker
      ensures View() == Dispatch(old(View()), consumer, Passes(threads, |supply|, firstFailure))
      ensures |delivered| == Min(Passes(threads, |supply|, firstFailure), firstFailure)
      ensures forall j :: 0 <= j < |delivered| ==> delivered[j] == MessageFor(old(nextSeq) + j, supply[j])
      ensures forall j :: 0 <= j < |delivered| ==> DescribesUnit(delivered[j], old(nextSeq) + j, supply[j])
      ensures old(Consistent(View(), false)) ==>
        forall j :: 0 <= j < |delivered| ==> StandsFor(delivered[j], View().table, consumer)
    {
      hide Consistent, Dispatch, StandsFor, DescribesUnit,  AddUnit, SendUnit, MessageFor;
      delivered := [];
      ghost var before := View();
      DispatchNone(before, consumer);
      var i := 0;
      while i < threads
        modifies this, tracker
        invariant 0 <= i && (i > 0 ==> i <= threads) && i <= |supply| && i <= firstFailure
        invariant View() == Dispatch(before, consumer, i) && nextSeq == before.nextSeq + i
        invariant |delivered| == i
        invariant forall j :: 0 <= j < i ==> delivered[j] == MessageFor(before.nextSeq + j, supply[j])
      {
        if i == |supply| {
          break;
        }
        var msg := MessageFor(nextSeq, supply[i]);
        DispatchNumber(before, consumer, i);
        DispatchOne(consumer);
        if i == firstFailure {
          break;
        }
        delivered := delivered + [msg];
        i := i + 1;
      }
      forall j | 0 <= j < |delivered|
        ensures DescribesUnit(delivered[j], before.nextSeq + j, supply[j])
        ensures Consistent(before, false) ==> StandsFor(delivered[j], View().table, consumer)
      {
        MessageStands(before, consumer, Passes(threads, |supply|, firstFailure), before.nextSeq + j, supply[j]);
      }
    }

    /** A success that found the password, or a failure with a file error, also ends the producer. */
    method HandleResult(id: Id, ok: bool, found: bool, fileError: bool)
      modifies this`running, tracker
      ensures View() == TakeResult(old(View()), id, ok)
      ensures running == (old(running) && !(ok && found) && !(!ok && fileError))
    {
      if ok {
        tracker.Complete(id);
        if found {
          running := false;
        }
      } else {
        tracker.Fail(id);
        if fileError {
          running := false;
        }
      }
    }
  }
}
