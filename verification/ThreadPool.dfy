/** The consumer's thread pool as a state machine.  One step is one region under a lock or one update of an
    atomic counter; submit, drain_pending, shutdown and the stop signal may come between any two. */
module ThreadPool {
  import opened BoundedQueue
  import opened Wrappers

  const QUEUE_CAPACITY := 4096

  datatype Unit = Unit(id: string, seqNo: int)

  /** Where a worker is in its loop, and the unit in its hands. */
  datatype Pc =
    | Checking                       // about to test the stop signal
    | Waiting                        // in pop
    | Taken(unit: Unit)              // popped
    | Activated(unit: Unit)          // active_count_ raised
    | Busy(unit: Unit)               // idle_count_ lowered
    | Listed(unit: Unit)             // entered in active_work_
    | Handling(unit: Unit)           // in the handler, callback lock held
    | Handled(unit: Unit, ok: bool)  // handler done
    | Unlisted(unit: Unit, ok: bool) // removed from active_work_
    | Settled(unit: Unit, ok: bool)  // active_count_ lowered
    | Reporting(unit: Unit, ok: bool) // in the result callback, callback lock held
    | Reported(unit: Unit, ok: bool) // result callback done
    | Counted                        // total_completed_ or total_failed_ raised
    | Idling                         // idle_count_ raised
    | WantsWork                      // queue seen empty
    | Calling                        // in the idle callback, callback lock held
    | Exited

  /** The shared state.  The fields from accepted on record the past: the units accepted, finished and drained, how
      often a handler succeeded or failed, how often the result callback ran, how often a worker saw the queue empty
      after a unit and how often it did not, how often the idle callback ran, and whether a drain cleared
      active_work_. */
  datatype Pool = Pool(
    queue: Queue<Unit>,
    workers: seq<Pc>,
    active: int,
    idle: int,
    completed: int,
    failed: int,
    listing: map<string, Unit>,
    lock: Option<nat>,
    stop: bool,
    accepted: multiset<Unit>,
    finished: multiset<Unit>,
    drained: multiset<Unit>,
    successes: int,
    failures: int,
    reports: int,
    seenEmpty: int,
    seenFilled: int,
    asks: int,
    cleared: bool)

  datatype Step =
    | Work(worker: nat, ok: bool)
    | Submit(unit: Unit)
    | DrainPop
    | DrainClear
    | Shutdown
    | RaiseStop

  /** start, with n workers. */
  function Start(n: nat): Pool {
    Pool(Queue([], QUEUE_CAPACITY, false), seq(n, _ => Checking), 0, n, 0, 0, map[], None, false,
         multiset{}, multiset{}, multiset{}, 0, 0, 0, 0, 0, 0, false)
  }

  // ---- steps ----

  predicate NeedsLock(pc: Pc) {
    pc.Listed? || pc.Settled? || pc.WantsWork?
  }

  predicate HoldsLock(pc: Pc) {
    pc.Handling? || pc.Reporting? || pc.Calling?
  }

  predicate CanWork(p: Pool, i: nat) {
    && i < |p.workers|
    && !p.workers[i].Exited?
    && (p.workers[i].Waiting? ==> p.queue.CanPop())
    && (NeedsLock(p.workers[i]) ==> p.lock.None?)
  }

  predicate Enabled(p: Pool, s: Step) {
    match s
    case Work(i, _) => CanWork(p, i)
    case Submit(_) => p.queue.CanPush()
    case DrainPop => p.queue.items != []
    case _ => true
  }

  /** The next place in the loop; ok is the handler's verdict. */
  function NextPc(p: Pool, i: nat, ok: bool): Pc
    requires CanWork(p, i)
  {
    match p.workers[i]
    case Checking => if p.stop then Exited else Waiting
    case Waiting => if p.queue.items == [] then Exited else Taken(p.queue.items[0])
    case Taken(u) => Activated(u)
    case Activated(u) => Busy(u)
    case Busy(u) => Listed(u)
    case Listed(u) => Handling(u)
    case Handling(u) => Handled(u, ok)
    case Handled(u, v) => Unlisted(u, v)
    case Unlisted(u, v) => Settled(u, v)
    case Settled(u, v) => Reporting(u, v)
    case Reporting(u, v) => Reported(u, v)
    case Reported(_, _) => Counted
    case Counted => Idling
    case Idling => if p.queue.items == [] then WantsWork else Checking
    case WantsWork => Calling
    case Calling => Checking
  }

  /** One step of worker i, field by field: which places change what. */
  function Worked(p: Pool, i: nat, ok: bool): Pool
    requires CanWork(p, i)
  {
    var pc := p.workers[i];
    p.(workers := p.workers[i := NextPc(p, i, ok)],
       queue := if pc.Waiting? && p.queue.items != [] then p.queue.Popped() else p.queue,
       active := p.active + if pc.Taken? then 1 else if pc.Unlisted? then -1 else 0,
       idle := p.idle + if pc.Counted? then 1 else if pc.Activated? then -1 else 0,
       completed := p.completed + if pc.Reported? && pc.ok then 1 else 0,
       failed := p.failed + if pc.Reported? && !pc.ok then 1 else 0,
       finished := p.finished + if pc.Reported? then multiset{pc.unit} else multiset{},
       successes := p.successes + if pc.Handling? && ok then 1 else 0,
       failures := p.failures + if pc.Handling? && !ok then 1 else 0,
       reports := p.reports + if pc.Reporting? then 1 else 0,
       seenEmpty := p.seenEmpty + if pc.Idling? && p.queue.items == [] then 1 else 0,
       seenFilled := p.seenFilled + if pc.Idling? && p.queue.items != [] then 1 else 0,
       asks := p.asks + if pc.Calling? then 1 else 0,
       listing := if pc.Busy? then p.listing[pc.unit.id := pc.unit]
                  else if pc.Handled? then p.listing - {pc.unit.id}
                  else p.listing,
       lock := if NeedsLock(pc) then Some(i) else if HoldsLock(pc) then None else p.lock)
  }

  function Apply(p: Pool, s: Step): Pool
    requires Enabled(p, s)
  {
    match s
    case Work(i, ok) => Worked(p, i, ok)
    case Submit(u) =>
      if p.queue.closed then p else p.(queue := p.queue.Pushed(u), accepted := p.accepted + multiset{u})
    case DrainPop => p.(queue := p.queue.Popped(), drained := p.drained + multiset{p.queue.items[0]})
    case DrainClear => p.(listing := map[], cleared := true)
    case Shutdown => p.(queue := p.queue.(closed := true))
    case RaiseStop => p.(stop := true)
  }

  /** The state after a sequence of steps, each enabled in its turn. */
  ghost predicate IsRun(p: Pool, steps: seq<Step>, q: Pool)
    decreases |steps|
  {
    if steps == [] then q == p
    else Enabled(p, steps[0]) && IsRun(Apply(p, steps[0]), steps[1..], q)
  }

  // ---- sums over workers ----

  ghost function Sum(ws: seq<Pc>, f: Pc -> int): int {
    if ws == [] then 0 else Sum(ws[..|ws| - 1], f) + f(ws[|ws| - 1])
  }

  ghost function Hands(ws: seq<Pc>): multiset<Unit> {
    if ws == [] then multiset{} else Hands(ws[..|ws| - 1]) + Hand(ws[|ws| - 1])
  }

  /** A unit is in a worker's hands from the pop to the count. */
  ghost function Hand(pc: Pc): multiset<Unit> {
    if HasUnit(pc) then multiset{pc.unit} else multiset{}
  }

  predicate HasUnit(pc: Pc) {
    !(pc.Checking? || pc.Waiting? || pc.Counted? || pc.Idling? || pc.WantsWork? || pc.Calling? || pc.Exited?)
  }

  /** Between the decrement and the increment of idle_count_. */
  function Dipped(pc: Pc): int {
    match pc
    case Checking | Waiting | Taken(_) | Activated(_) | Idling | WantsWork | Calling | Exited => 0
    case _ => 1
  }

  /** Between the increment and the decrement of active_count_. */
  function Bracketed(pc: Pc): int {
    match pc
    case Activated(_) | Busy(_) | Listed(_) | Handling(_) | Handled(_, _) | Unlisted(_, _) => 1
    case _ => 0
  }

  /** The handler's verdict is out and not yet counted. */
  function Carries(ok: bool): Pc -> int {
    pc => if HasVerdict(pc) && pc.ok == ok then 1 else 0
  }

  predicate HasVerdict(pc: Pc) {
    pc.Handled? || pc.Unlisted? || pc.Settled? || pc.Reporting? || pc.Reported?
  }

  /** The result callback has run for a unit not yet counted. */
  function Uncounted(pc: Pc): int {
    if pc.Reported? then 1 else 0
  }

  /** A unit is counted and the look at the queue is still to come. */
  function Unlooked(pc: Pc): int {
    if pc.Counted? || pc.Idling? then 1 else 0
  }

  /** The queue was seen empty and the idle callback has not returned. */
  function Unasked(pc: Pc): int {
    if pc.WantsWork? || pc.Calling? then 1 else 0
  }

  /** Between the entry in active_work_ and its removal. */
  predicate InListing(pc: Pc) {
    pc.Listed? || pc.Handling? || pc.Handled?
  }

  lemma {:induction false} SumUpdate(ws: seq<Pc>, i: nat, pc: Pc, f: Pc -> int)
    requires i < |ws|
    ensures Sum(ws[i := pc], f) == Sum(ws, f) - f(ws[i]) + f(pc)
  {
    var n := |ws| - 1;
    if i == n {
      assert ws[i := pc][..n] == ws[..n];
    } else {
      SumUpdate(ws[..n], i, pc, f);
      assert ws[i := pc][..n] == ws[..n][i := pc];
    }
  }

  lemma {:induction false} HandsUpdate(ws: seq<Pc>, i: nat, pc: Pc)
    requires i < |ws|
    ensures Hands(ws[i := pc]) + Hand(ws[i]) == Hands(ws) + Hand(pc)
  {
    hide Hand;
    var n, vs := |ws| - 1, ws[i := pc];
    if i == n {
      assert vs[..n] == ws[..n];
      Exchange(Hands(ws[..n]), Hand(pc), Hand(ws[n]));
    } else {
      HandsUpdate(ws[..n], i, pc);
      assert vs[..n] == ws[..n][i := pc];
      AddOne(Hands(vs[..n]), Hands(ws[..n]), Hand(ws[i]), Hand(pc), Hand(ws[n]));
    }
  }

  lemma Exchange<T>(a: multiset<T>, b: multiset<T>, c: multiset<T>)
    ensures a + b + c == a + c + b
  {
  }

  lemma AddOne<T>(a: multiset<T>, b: multiset<T>, x: multiset<T>, y: multiset<T>, z: multiset<T>)
    requires a + x == b + y
    ensures a + z + x == b + z + y
  {
    Exchange(a, z, x);
    Exchange(b, z, y);
  }

  lemma {:induction false} SumAll(ws: seq<Pc>, f: Pc -> int, v: int)
    requires forall i :: 0 <= i < |ws| ==> f(ws[i]) == v
    ensures Sum(ws, f) == v * |ws|
  {
    if ws != [] {
      SumAll(ws[..|ws| - 1], f, v);
    }
  }

  lemma {:induction false} NoHands(ws: seq<Pc>)
    requires forall i :: 0 <= i < |ws| ==> Hand(ws[i]) == multiset{}
    ensures Hands(ws) == multiset{}
  {
    hide Hand;
    if ws != [] {
      NoHands(ws[..|ws| - 1]);
    }
  }

  // ---- what every step keeps ----

  /** Every accepted unit is queued, in a worker's hands, finished, or drained from the queue: once. */
  ghost predicate Conserved(p: Pool) {
    p.accepted == multiset(p.queue.items) + Hands(p.workers) + p.finished + p.drained
  }

  ghost predicate CountersAgree(p: Pool) {
    && p.idle + Sum(p.workers, Dipped) == |p.workers|
    && p.active == Sum(p.workers, Bracketed)
    && p.completed >= 0 && p.failed >= 0
    && p.completed + p.failed == |p.finished|
    && p.successes == p.completed + Sum(p.workers, Carries(true))
    && p.failures == p.failed + Sum(p.workers, Carries(false))
    && p.reports == p.completed + p.failed + Sum(p.workers, Uncounted)
  }

  /** After every unit counted a worker looks at the queue once, and the idle callback runs once for each time it was
      empty, and for no other. */
  ghost predicate AsksAgree(p: Pool) {
    && p.seenEmpty + p.seenFilled + Sum(p.workers, Unlooked) == p.completed + p.failed
    && p.asks + Sum(p.workers, Unasked) == p.seenEmpty
  }

  /** The lock has at most one holder, and it is in a callback; so at most one callback runs. */
  ghost predicate Exclusive(p: Pool) {
    && (p.lock.Some? ==> p.lock.value < |p.workers| && HoldsLock(p.workers[p.lock.value]))
    && (forall i :: 0 <= i < |p.workers| && HoldsLock(p.workers[i]) ==> p.lock == Some(i))
  }

  /** Every entry of active_work_ is the unit of a worker between its entry and its removal. */
  ghost predicate ListingHeld(p: Pool) {
    forall id :: id in p.listing ==> HeldAs(p.workers, id, p.listing[id])
  }

  ghost predicate HeldAs(ws: seq<Pc>, id: string, u: Unit) {
    exists i :: 0 <= i < |ws| && InListing(ws[i]) && ws[i].unit == u && u.id == id
  }

  ghost predicate DistinctIds(m: multiset<Unit>) {
    && (forall u :: u in m ==> m[u] == 1)
    && (forall u, v :: u in m && v in m && u.id == v.id ==> u == v)
  }

  /** Every worker between entry and removal has its entry. */
  ghost predicate ListingComplete(p: Pool) {
    forall i :: 0 <= i < |p.workers| && InListing(p.workers[i]) ==> p.workers[i].unit.id in p.listing
  }

  /** No two workers between entry and removal hold the same id. */
  ghost predicate DistinctInFlight(p: Pool) {
    forall i, j :: 0 <= i < j < |p.workers| && InListing(p.workers[i]) && InListing(p.workers[j]) ==>
      p.workers[i].unit.id != p.workers[j].unit.id
  }

  /** And so in every state of a run. */
  ghost predicate DistinctAlong(p: Pool, steps: seq<Step>)
    decreases |steps|
  {
    && DistinctInFlight(p)
    && (steps != [] ==> Enabled(p, steps[0]) && DistinctAlong(Apply(p, steps[0]), steps[1..]))
  }

  /** Without a stop signal a worker leaves only after shutdown, and then the queue stays empty. */
  ghost predicate ExitsLast(p: Pool) {
    (exists i :: 0 <= i < |p.workers| && p.workers[i].Exited?) && !p.stop ==>
      p.queue.closed && p.queue.items == []
  }

  ghost predicate Invariant(p: Pool) {
    && |p.queue.items| <= p.queue.capacity
    && Conserved(p) && CountersAgree(p) && AsksAgree(p) && Exclusive(p) && ListingHeld(p) && ExitsLast(p)
  }

  lemma StartInvariant(n: nat)
    ensures Invariant(Start(n)) && |Start(n).workers| == n
  {
    hide Sum, Hands;
    NoHands(Start(n).workers);
    SumAll(Start(n).workers, Dipped, 0);
    SumAll(Start(n).workers, Bracketed, 0);
    SumAll(Start(n).workers, Carries(true), 0);
    SumAll(Start(n).workers, Carries(false), 0);
    SumAll(Start(n).workers, Uncounted, 0);
    SumAll(Start(n).workers, Unlooked, 0);
    SumAll(Start(n).workers, Unasked, 0);
  }

  lemma Uncons(s: seq<Unit>)
    requires s != []
    ensures multiset(s) == multiset{s[0]} + multiset(s[1..])
  {
    assert s == [s[0]] + s[1..];
  }

  lemma UnitFollows(p: Pool, i: nat, ok: bool)
    requires CanWork(p, i)
    ensures var pc, now := p.workers[i], NextPc(p, i, ok);
      && (pc.Waiting? && p.queue.items != [] ==> HasUnit(now) && now.unit == p.queue.items[0])
      && (pc.Reported? ==> !HasUnit(now))
      && (HasUnit(pc) && !pc.Reported? ==> HasUnit(now) && now.unit == pc.unit)
      && (!HasUnit(pc) && !(pc.Waiting? && p.queue.items != []) ==> !HasUnit(now))
  {
  }

  /** A worker's hands change only at the pop and at the count. */
  lemma HandFollows(p: Pool, i: nat, ok: bool)
    requires CanWork(p, i)
    ensures var pc := p.workers[i];
      Hand(NextPc(p, i, ok)) ==
      if pc.Waiting? && p.queue.items != [] then multiset{p.queue.items[0]}
      else if pc.Reported? then multiset{}
      else Hand(pc)
    ensures p.workers[i].Waiting? ==> Hand(p.workers[i]) == multiset{}
    ensures p.workers[i].Reported? ==> Hand(p.workers[i]) == multiset{p.workers[i].unit}
  {
    hide NextPc;
    UnitFollows(p, i, ok);
  }

  lemma WorkMoves(p: Pool, i: nat, ok: bool)
    requires CanWork(p, i)
    ensures var q := Worked(p, i, ok);
      multiset(q.queue.items) + Hand(NextPc(p, i, ok)) + q.finished
      == multiset(p.queue.items) + Hand(p.workers[i]) + p.finished
  {
    hide Hand, NextPc;
    HandFollows(p, i, ok);
    if p.workers[i].Waiting? && p.queue.items != [] {
      Uncons(p.queue.items);
    }
  }

  lemma WorkFrame(p: Pool, i: nat, ok: bool)
    requires CanWork(p, i)
    ensures var q := Worked(p, i, ok);
      && q.workers == p.workers[i := NextPc(p, i, ok)]
      && q.accepted == p.accepted && q.drained == p.drained && q.cleared == p.cleared && q.stop == p.stop
  {
  }

  /** If units only move between queue, hands and the finished, the whole stays. */
  lemma Balance<T>(q: multiset<T>, h: multiset<T>, f: multiset<T>, d: multiset<T>,
                   q': multiset<T>, h': multiset<T>, f': multiset<T>, was: multiset<T>, now: multiset<T>)
    requires q' + now + f' == q + was + f && h' + was == h + now
    ensures q' + h' + f' + d == q + h + f + d
  {
    forall x: T
      ensures (q' + h' + f' + d)[x] == (q + h + f + d)[x]
    {
      assert (q' + now + f')[x] == (q + was + f)[x];
      assert (h' + was)[x] == (h + now)[x];
    }
  }

  lemma WorkConserves(p: Pool, i: nat, ok: bool)
    requires Conserved(p) && CanWork(p, i)
    ensures Conserved(Worked(p, i, ok))
  {
    hide Hands, Hand, Worked, NextPc;
    var q, next := Worked(p, i, ok), NextPc(p, i, ok);
    HandsUpdate(p.workers, i, next);
    WorkMoves(p, i, ok);
    WorkFrame(p, i, ok);
    Balance(multiset(p.queue.items), Hands(p.workers), p.finished, p.drained,
            multiset(q.queue.items), Hands(q.workers), q.finished, Hand(p.workers[i]), Hand(next));
  }

  lemma StepConserves(p: Pool, s: Step)
    requires Conserved(p) && Enabled(p, s)
    ensures Conserved(Apply(p, s))
  {
    hide Hands, Worked;
    match s
    case Work(i, ok) => WorkConserves(p, i, ok);
    case DrainPop => Uncons(p.queue.items);
    case _ =>
  }

  lemma WorkDeltas(p: Pool, i: nat, ok: bool)
    requires CanWork(p, i)
    ensures var q, was, now := Worked(p, i, ok), p.workers[i], NextPc(p, i, ok);
      && q.idle - p.idle == Dipped(was) - Dipped(now)
      && q.active - p.active == Bracketed(now) - Bracketed(was)
      && q.completed >= p.completed && q.failed >= p.failed
      && q.completed + q.failed - |q.finished| == p.completed + p.failed - |p.finished|
  {
  }

  /** The totals follow the verdicts. */
  lemma VerdictDeltas(p: Pool, i: nat, ok: bool)
    requires CanWork(p, i)
    ensures var q, was, now := Worked(p, i, ok), p.workers[i], NextPc(p, i, ok);
      && q.successes - q.completed - (p.successes - p.completed) == Carries(true)(now) - Carries(true)(was)
      && q.failures - q.failed - (p.failures - p.failed) == Carries(false)(now) - Carries(false)(was)
      && q.reports - q.completed - q.failed - (p.reports - p.completed - p.failed) == Uncounted(now) - Uncounted(was)
  {
  }

  lemma StepCounts(p: Pool, s: Step)
    requires CountersAgree(p) && Enabled(p, s)
    ensures CountersAgree(Apply(p, s)) && |Apply(p, s).workers| == |p.workers|
  {
    hide Sum, Worked, NextPc, Carries, Uncounted, Dipped, Bracketed;
    if s.Work? {
      var now := NextPc(p, s.worker, s.ok);
      WorkFrame(p, s.worker, s.ok);
      WorkDeltas(p, s.worker, s.ok);
      VerdictDeltas(p, s.worker, s.ok);
      SumUpdate(p.workers, s.worker, now, Dipped);
      SumUpdate(p.workers, s.worker, now, Bracketed);
      SumUpdate(p.workers, s.worker, now, Carries(true));
      SumUpdate(p.workers, s.worker, now, Carries(false));
      SumUpdate(p.workers, s.worker, now, Uncounted);
    }
  }

  lemma AskDeltas(p: Pool, i: nat, ok: bool)
    requires CanWork(p, i)
    ensures var q, was, now := Worked(p, i, ok), p.workers[i], NextPc(p, i, ok);
      && q.seenEmpty + q.seenFilled - (q.completed + q.failed) - (p.seenEmpty + p.seenFilled - (p.completed + p.failed))
         == Unlooked(was) - Unlooked(now)
      && q.asks - q.seenEmpty - (p.asks - p.seenEmpty) == Unasked(was) - Unasked(now)
  {
  }

  lemma StepAsks(p: Pool, s: Step)
    requires AsksAgree(p) && Enabled(p, s)
    ensures AsksAgree(Apply(p, s))
  {
    hide Sum, Worked, NextPc, Unlooked, Unasked;
    if s.Work? {
      var now := NextPc(p, s.worker, s.ok);
      WorkFrame(p, s.worker, s.ok);
      AskDeltas(p, s.worker, s.ok);
      SumUpdate(p.workers, s.worker, now, Unlooked);
      SumUpdate(p.workers, s.worker, now, Unasked);
    }
  }

  /** The lock follows the worker's steps: taken when free, held through the callback, given back. */
  lemma WorkLocks(p: Pool, i: nat, ok: bool)
    requires CanWork(p, i)
    ensures var q, was, now := Worked(p, i, ok), p.workers[i], NextPc(p, i, ok);
      && !(HoldsLock(was) && HoldsLock(now))
      && (HoldsLock(now) ==> p.lock.None? && q.lock == Some(i))
      && (HoldsLock(was) ==> q.lock.None?)
      && (!HoldsLock(was) && !HoldsLock(now) ==> q.lock == p.lock)
  {
  }

  lemma StepExcludes(p: Pool, s: Step)
    requires Exclusive(p) && Enabled(p, s)
    ensures Exclusive(Apply(p, s))
  {
    hide Worked, NextPc, HoldsLock;
    if s.Work? {
      WorkFrame(p, s.worker, s.ok);
      WorkLocks(p, s.worker, s.ok);
    }
  }

  /** How a worker's step changes active_work_. */
  lemma WorkLists(p: Pool, i: nat, ok: bool)
    requires CanWork(p, i)
    ensures var q, was, now := Worked(p, i, ok), p.workers[i], NextPc(p, i, ok);
      && (InListing(was) && InListing(now) ==> q.listing == p.listing && now.unit == was.unit)
      && (!InListing(was) && InListing(now) ==> q.listing == p.listing[now.unit.id := now.unit])
      && (InListing(was) && !InListing(now) ==> q.listing == p.listing - {was.unit.id})
      && (!InListing(was) && !InListing(now) ==> q.listing == p.listing)
  {
  }

  lemma WorkKeepsListingHeld(p: Pool, i: nat, ok: bool, id: string)
    requires ListingHeld(p) && CanWork(p, i)
    requires id in Worked(p, i, ok).listing
    ensures var q := Worked(p, i, ok); HeldAs(q.workers, id, q.listing[id])
  {
    hide Worked, NextPc;
    var q, now := Worked(p, i, ok), NextPc(p, i, ok);
    WorkFrame(p, i, ok);
    WorkLists(p, i, ok);
    assert q.workers[i] == now;
    if !InListing(p.workers[i]) && InListing(now) && id == now.unit.id {
      assert InListing(q.workers[i]);
    } else {
      assert HeldAs(p.workers, id, p.listing[id]);
      var j :| 0 <= j < |p.workers| && InListing(p.workers[j])
            && p.workers[j].unit == p.listing[id] && p.listing[id].id == id;
      assert InListing(q.workers[j]);
    }
  }

  lemma StepKeepsListingHeld(p: Pool, s: Step)
    requires ListingHeld(p) && Enabled(p, s)
    ensures ListingHeld(Apply(p, s))
  {
    hide HeldAs, Worked;
    if s.Work? {
      forall id | id in Apply(p, s).listing
        ensures HeldAs(Apply(p, s).workers, id, Apply(p, s).listing[id])
      {
        WorkKeepsListingHeld(p, s.worker, s.ok, id);
      }
    }
  }

  lemma {:induction false} HandInHands(ws: seq<Pc>, i: nat)
    requires i < |ws|
    ensures Hand(ws[i]) <= Hands(ws)
  {
    hide Hand;
    if i < |ws| - 1 {
      HandInHands(ws[..|ws| - 1], i);
    }
  }

  lemma {:induction false} TwoHands(ws: seq<Pc>, i: nat, j: nat)
    requires i < j < |ws|
    ensures Hand(ws[i]) + Hand(ws[j]) <= Hands(ws)
  {
    hide Hand;
    if j < |ws| - 1 {
      TwoHands(ws[..|ws| - 1], i, j);
    } else {
      HandInHands(ws[..j], i);
    }
  }

  lemma HandsAccepted(p: Pool, i: nat, j: nat)
    requires Conserved(p) && i < j < |p.workers|
    ensures Hand(p.workers[i]) + Hand(p.workers[j]) <= p.accepted
  {
    hide Hands, Hand;
    TwoHands(p.workers, i, j);
  }

  lemma PairIn<T>(u: T, v: T, m: multiset<T>)
    requires multiset{u} + multiset{v} <= m
    ensures u in m && v in m && (u == v ==> m[u] >= 2)
  {
    assert (multiset{u} + multiset{v})[u] <= m[u];
    assert (multiset{u} + multiset{v})[v] <= m[v];
  }

  /** Two workers never hold units of the same id when the accepted ids are distinct. */
  lemma HandsDistinct(p: Pool, i: nat, j: nat)
    requires Conserved(p) && DistinctIds(p.accepted) && i < |p.workers| && j < |p.workers| && i != j
    requires InListing(p.workers[i]) && InListing(p.workers[j])
    ensures p.workers[i].unit.id != p.workers[j].unit.id
  {
    hide Conserved;
    var x, y := if i < j then i else j, if i < j then j else i;
    HandsAccepted(p, x, y);
    PairIn(p.workers[x].unit, p.workers[y].unit, p.accepted);
  }

  lemma DistinctBefore(p: Pool, s: Step)
    requires Enabled(p, s) && DistinctIds(Apply(p, s).accepted)
    ensures DistinctIds(p.accepted)
  {
    hide Worked;
    if s.Submit? && !p.queue.closed {
      var m := Apply(p, s).accepted;
      forall u | u in p.accepted
        ensures p.accepted[u] == 1 && u in m
      {
        assert p.accepted[u] <= m[u] == 1;
      }
    } else if s.Work? {
      WorkFrame(p, s.worker, s.ok);
    }
  }

  lemma WorkKeepsListed(p: Pool, i: nat, ok: bool, j: nat)
    requires ListingComplete(p) && DistinctInFlight(p) && CanWork(p, i) && j < |p.workers|
    requires Worked(p, i, ok).workers == p.workers[i := NextPc(p, i, ok)] && InListing(Worked(p, i, ok).workers[j])
    ensures Worked(p, i, ok).workers[j].unit.id in Worked(p, i, ok).listing
  {
    hide Worked, NextPc, InListing;
    WorkLists(p, i, ok);
  }

  /** While the ids in flight are distinct, a step that does not clear active_work_ keeps every entry. */
  lemma StepKeepsListingComplete(p: Pool, s: Step)
    requires ListingComplete(p) && DistinctInFlight(p) && Enabled(p, s) && !s.DrainClear?
    ensures ListingComplete(Apply(p, s))
  {
    hide Worked, DistinctInFlight;
    var q := Apply(p, s);
    if s.Work? {
      WorkFrame(p, s.worker, s.ok);
      forall j | 0 <= j < |q.workers| && InListing(q.workers[j])
        ensures q.workers[j].unit.id in q.listing
      {
        WorkKeepsListed(p, s.worker, s.ok, j);
      }
    }
  }

  /** Exactly then: a worker that removes its entry takes another's with it if and only if another holds its id. */
  lemma RemovalIsSafeIff(p: Pool, i: nat, ok: bool)
    requires ListingComplete(p) && CanWork(p, i) && p.workers[i].Handled?
    ensures ListingComplete(Worked(p, i, ok)) <==>
            forall j :: 0 <= j < |p.workers| && j != i && InListing(p.workers[j]) ==>
              p.workers[j].unit.id != p.workers[i].unit.id
  {
    var q := Worked(p, i, ok);
    assert forall j :: 0 <= j < |p.workers| && j != i ==> q.workers[j] == p.workers[j];
    assert !InListing(q.workers[i]);
  }

  lemma StepExitsLast(p: Pool, s: Step)
    requires ExitsLast(p) && Enabled(p, s)
    ensures ExitsLast(Apply(p, s))
  {
    if s.Work? {
      var ws, vs := p.workers, Apply(p, s).workers;
      assert forall i :: 0 <= i < |vs| && i != s.worker ==> vs[i] == ws[i];
    }
  }

  lemma StepQueueBounded(p: Pool, s: Step)
    requires |p.queue.items| <= p.queue.capacity && Enabled(p, s)
    ensures |Apply(p, s).queue.items| <= Apply(p, s).queue.capacity
  {
  }

  /** Every step of a worker, the submitter, the drainer or shutdown keeps the invariant. */
  lemma StepKeepsInvariant(p: Pool, s: Step)
    requires Invariant(p) && Enabled(p, s)
    ensures Invariant(Apply(p, s))
  {
    hide Apply, Enabled, Conserved, CountersAgree, AsksAgree, Exclusive, ListingHeld, ExitsLast;
    StepQueueBounded(p, s);
    StepConserves(p, s);
    StepCounts(p, s);
    StepAsks(p, s);
    StepExcludes(p, s);
    StepKeepsListingHeld(p, s);
    StepExitsLast(p, s);
  }

  lemma {:induction false} RunKeepsInvariant(p: Pool, steps: seq<Step>, q: Pool)
    requires Invariant(p) && IsRun(p, steps, q)
    ensures Invariant(q) && |q.workers| == |p.workers|
    decreases |steps|
  {
    hide Apply, Enabled, Conserved, CountersAgree, AsksAgree, Exclusive, ListingHeld, ExitsLast;
    if steps != [] {
      StepKeepsInvariant(p, steps[0]);
      StepCounts(p, steps[0]);
      RunKeepsInvariant(Apply(p, steps[0]), steps[1..], q);
    }
  }

  lemma {:induction false} SumBounds(ws: seq<Pc>, f: Pc -> int)
    requires forall pc :: 0 <= f(pc) <= 1
    ensures 0 <= Sum(ws, f) <= |ws|
  {
    if ws != [] {
      SumBounds(ws[..|ws| - 1], f);
    }
  }

  /** In every interleaving after start: no unit is lost or doubled, neither counter underflows or exceeds the
      worker count, at most one callback runs, and active_work_ holds only units in hand. */
  lemma EveryRun(n: nat, steps: seq<Step>, q: Pool)
    requires IsRun(Start(n), steps, q)
    ensures Invariant(q) && |q.workers| == n
    ensures q.accepted == multiset(q.queue.items) + Hands(q.workers) + q.finished + q.drained
    ensures 0 <= q.idle <= n && q.idle + Sum(q.workers, Dipped) == n
    ensures 0 <= q.active <= n && q.active == Sum(q.workers, Bracketed)
    ensures forall i, j :: 0 <= i < n && 0 <= j < n && HoldsLock(q.workers[i]) && HoldsLock(q.workers[j]) ==> i == j
    ensures forall id :: id in q.listing ==> HeldAs(q.workers, id, q.listing[id])
  {
    hide Sum, Hands, HeldAs, ExitsLast, Start;
    StartInvariant(n);
    RunKeepsInvariant(Start(n), steps, q);
    SumBounds(q.workers, Dipped);
    SumBounds(q.workers, Bracketed);
  }

  lemma StepClears(p: Pool, s: Step)
    requires Enabled(p, s)
    ensures Apply(p, s).cleared == (p.cleared || s.DrainClear?)
  {
  }

  lemma {:induction false} RunKeepsListingComplete(p: Pool, steps: seq<Step>, q: Pool)
    requires ListingComplete(p) && IsRun(p, steps, q) && DistinctAlong(p, steps) && !q.cleared
    ensures ListingComplete(q) && !p.cleared
    decreases |steps|
  {
    hide Apply, Enabled, ListingComplete, DistinctInFlight;
    if steps != [] {
      var s, r := steps[0], Apply(p, steps[0]);
      StepClears(p, s);
      if s.DrainClear? {
        ClearedStays(r, steps[1..], q);
      } else {
        StepKeepsListingComplete(p, s);
        RunKeepsListingComplete(r, steps[1..], q);
      }
    }
  }

  lemma {:induction false} ClearedStays(p: Pool, steps: seq<Step>, q: Pool)
    requires IsRun(p, steps, q) && p.cleared
    ensures q.cleared
    decreases |steps|
  {
    hide Apply, Enabled;
    if steps != [] {
      StepClears(p, steps[0]);
      ClearedStays(Apply(p, steps[0]), steps[1..], q);
    }
  }

  /** With the ids in flight distinct at all times and no drain, the entries of active_work_ are just the ids of the
      workers between entry and removal; a unit may come again as soon as its first copy has left. */
  lemma ListingExact(n: nat, steps: seq<Step>, q: Pool, id: string)
    requires IsRun(Start(n), steps, q) && DistinctAlong(Start(n), steps) && !q.cleared
    ensures id in q.listing <==>
            exists i :: 0 <= i < |q.workers| && InListing(q.workers[i]) && q.workers[i].unit.id == id
  {
    hide Conserved, CountersAgree, AsksAgree, Exclusive, ExitsLast, DistinctAlong, IsRun, Start;
    StartInvariant(n);
    NobodyListed(n);
    RunKeepsInvariant(Start(n), steps, q);
    RunKeepsListingComplete(Start(n), steps, q);
    if id in q.listing {
      assert HeldAs(q.workers, id, q.listing[id]);
    }
  }

  lemma NobodyListed(n: nat)
    ensures ListingComplete(Start(n))
  {
  }

  /** One case of it: if all ids ever accepted are distinct, those in flight always are. */
  lemma {:induction false} DistinctIdsSuffice(p: Pool, steps: seq<Step>, q: Pool)
    requires Conserved(p) && IsRun(p, steps, q) && DistinctIds(q.accepted)
    ensures DistinctAlong(p, steps) && DistinctIds(p.accepted)
    decreases |steps|
  {
    hide Apply, Enabled, Conserved, DistinctIds;
    if steps != [] {
      StepConserves(p, steps[0]);
      DistinctIdsSuffice(Apply(p, steps[0]), steps[1..], q);
      DistinctBefore(p, steps[0]);
    }
    forall i, j | 0 <= i < j < |p.workers| && InListing(p.workers[i]) && InListing(p.workers[j])
      ensures p.workers[i].unit.id != p.workers[j].unit.id
    {
      HandsDistinct(p, i, j);
    }
  }

  // ---- draining after shutdown ----

  /** The steps a worker can still take when it finds the queue empty. */
  function Weight(pc: Pc): (w: int)
    ensures 0 <= w <= 16 && (w == 0 <==> pc.Exited?)
  {
    match pc
    case Exited => 0
    case Waiting => 1
    case Checking => 2
    case Calling => 3
    case WantsWork => 4
    case Idling => 5
    case Counted => 6
    case Reported(_, _) => 7
    case Reporting(_, _) => 8
    case Settled(_, _) => 9
    case Unlisted(_, _) => 10
    case Handled(_, _) => 11
    case Handling(_) => 12
    case Listed(_) => 13
    case Busy(_) => 14
    case Activated(_) => 15
    case Taken(_) => 16
  }

  ghost function Measure(p: Pool): int {
    16 * |p.queue.items| + Sum(p.workers, Weight)
  }

  lemma {:induction false} SumNonNegative(ws: seq<Pc>)
    ensures Sum(ws, Weight) >= 0
  {
    hide Weight;
    if ws != [] {
      SumNonNegative(ws[..|ws| - 1]);
    }
  }

  lemma WeightFalls(p: Pool, i: nat, ok: bool)
    requires CanWork(p, i)
    ensures var q := Worked(p, i, ok);
      && q.queue.closed == p.queue.closed
      && 16 * |q.queue.items| + Weight(NextPc(p, i, ok)) < 16 * |p.queue.items| + Weight(p.workers[i])
  {
  }

  /** Once the queue is shut down it stays so, every worker step lowers the measure, and nothing raises it. */
  lemma StepLowersMeasure(p: Pool, s: Step)
    requires Enabled(p, s) && p.queue.closed
    ensures Apply(p, s).queue.closed
    ensures Measure(Apply(p, s)) <= Measure(p) - if s.Work? then 1 else 0
  {
    hide Sum, Weight, Worked, NextPc;
    if s.Work? {
      WorkFrame(p, s.worker, s.ok);
      WeightFalls(p, s.worker, s.ok);
      SumUpdate(p.workers, s.worker, NextPc(p, s.worker, s.ok), Weight);
    }
  }

  function WorkSteps(steps: seq<Step>): nat {
    if steps == [] then 0 else (if steps[0].Work? then 1 else 0) + WorkSteps(steps[1..])
  }

  /** So in any run after shutdown the workers take at most as many steps as the measure says. */
  lemma {:induction false} WorkIsBounded(p: Pool, steps: seq<Step>, q: Pool)
    requires IsRun(p, steps, q) && p.queue.closed
    ensures q.queue.closed && Measure(q) >= 0 && WorkSteps(steps) <= Measure(p) - Measure(q)
    decreases |steps|
  {
    hide Measure, Apply, Enabled;
    if steps == [] {
      MeasureNonNegative(p);
    } else {
      StepLowersMeasure(p, steps[0]);
      WorkIsBounded(Apply(p, steps[0]), steps[1..], q);
    }
  }

  lemma MeasureNonNegative(p: Pool)
    ensures Measure(p) >= 0
  {
    hide Sum;
    SumNonNegative(p.workers);
  }

  ghost predicate AllExited(p: Pool) {
    forall i :: 0 <= i < |p.workers| ==> p.workers[i].Exited?
  }

  /** After shutdown some worker can always go on until all have left: no deadlock on the callback lock. */
  lemma SomeoneCanWork(p: Pool) returns (i: nat)
    requires Exclusive(p) && p.queue.closed && !AllExited(p)
    ensures CanWork(p, i)
  {
    if p.lock.Some? {
      i := p.lock.value;
    } else {
      i :| i < |p.workers| && !p.workers[i].Exited?;
    }
  }

  lemma NobodyHolds(ws: seq<Pc>, id: string, u: Unit)
    requires forall i :: 0 <= i < |ws| ==> ws[i].Exited?
    ensures !HeldAs(ws, id, u)
  {
  }

  lemma NothingListed(p: Pool)
    requires ListingHeld(p) && AllExited(p)
    ensures p.listing == map[]
  {
    hide HeldAs;
    forall id
      ensures id !in p.listing
    {
      NobodyHolds(p.workers, id, if id in p.listing then p.listing[id] else Unit("", 0));
    }
  }

  /** When all workers have left without a stop signal, every accepted unit was finished or drained, and the two
      totals add up to the accepted ones not drained. */
  lemma AllExitedIsDrained(p: Pool)
    requires Invariant(p) && AllExited(p) && !p.stop && |p.workers| > 0
    ensures p.queue.items == [] && p.listing == map[] && p.lock.None?
    ensures p.accepted == p.finished + p.drained
    ensures p.completed + p.failed == |p.accepted| - |p.drained|
    ensures p.completed == p.successes && p.failed == p.failures && p.reports == p.completed + p.failed
    ensures p.asks == p.seenEmpty == p.completed + p.failed - p.seenFilled
    ensures p.idle == |p.workers| && p.active == 0
  {
    hide Sum, Hands;
    assert p.workers[0].Exited?;
    NoHands(p.workers);
    SumAll(p.workers, Dipped, 0);
    SumAll(p.workers, Bracketed, 0);
    SumAll(p.workers, Carries(true), 0);
    SumAll(p.workers, Carries(false), 0);
    SumAll(p.workers, Uncounted, 0);
    SumAll(p.workers, Unlooked, 0);
    SumAll(p.workers, Unasked, 0);
    NothingListed(p);
    assert multiset(p.queue.items) == multiset{};
    assert |p.finished + p.drained| == |p.finished| + |p.drained|;
  }

  /** From every state of a run after shutdown the workers can finish, by their own steps alone. */
  lemma {:induction false} CanFinish(p: Pool) returns (steps: seq<Step>, q: Pool)
    requires Exclusive(p) && p.queue.closed
    ensures IsRun(p, steps, q) && (forall i :: 0 <= i < |steps| ==> steps[i].Work?)
    ensures AllExited(q) && q.stop == p.stop && q.accepted == p.accepted && q.drained == p.drained
    ensures |steps| <= Measure(p)
    decreases Measure(p)
  {
    hide Measure, Exclusive, Worked, CanWork;
    MeasureNonNegative(p);
    if AllExited(p) {
      steps, q := [], p;
    } else {
      var i := SomeoneCanWork(p);
      var s := Work(i, true);
      StepLowersMeasure(p, s);
      StepExcludes(p, s);
      WorkFrame(p, i, true);
      MeasureNonNegative(Apply(p, s));
      var rest;
      rest, q := CanFinish(Apply(p, s));
      steps := [s] + rest;
      assert steps[1..] == rest;
    }
  }

  /** A run that goes through shutdown without a stop signal and stops only when no worker can step leaves the
      queue empty, all workers gone, and completed + failed = accepted - drained. */
  lemma ShutdownDrains(n: nat, steps: seq<Step>, q: Pool)
    requires n > 0 && IsRun(Start(n), steps, q) && q.queue.closed && !q.stop
    requires forall i: nat :: !CanWork(q, i)
    ensures AllExited(q) && q.queue.items == []
    ensures q.completed + q.failed == |q.accepted| - |q.drained|
    ensures q.completed == q.successes && q.failed == q.failures && q.reports == q.completed + q.failed
  {
    hide CanWork, IsRun, Start;
    EveryRun(n, steps, q);
    if !AllExited(q) {
      var i := SomeoneCanWork(q);
      assert false;
    }
    AllExitedIsDrained(q);
  }

  /** And there is such a run: wherever a run of n workers stands, shutdown and the workers' own steps lead to all
      workers gone and every accepted unit handled or drained; submitting after it accepts nothing. */
  lemma ShutdownEnds(n: nat, steps: seq<Step>, p: Pool) returns (rest: seq<Step>, q: Pool)
    requires n > 0 && IsRun(Start(n), steps, p) && !p.stop
    ensures IsRun(p, [Shutdown] + rest, q) && (forall i :: 0 <= i < |rest| ==> rest[i].Work?)
    ensures AllExited(q) && !q.stop && q.queue.items == [] && q.accepted == p.accepted && q.drained == p.drained
    ensures q.finished + q.drained == p.accepted && q.completed + q.failed == |p.accepted| - |p.drained|
  {
    hide IsRun, Start, Invariant, Exclusive, Worked;
    EveryRun(n, steps, p);
    var s := Apply(p, Shutdown);
    StepKeepsInvariant(p, Shutdown);
    ExclusiveIn(s);
    rest, q := CanFinish(s);
    RunKeepsInvariant(s, rest, q);
    AllExitedIsDrained(q);
    RunCons(p, Shutdown, rest, q);
  }

  lemma ExclusiveIn(p: Pool)
    requires Invariant(p)
    ensures Exclusive(p)
  {
  }

  lemma RunCons(p: Pool, s: Step, rest: seq<Step>, q: Pool)
    requires Enabled(p, s) && IsRun(Apply(p, s), rest, q)
    ensures IsRun(p, [s] + rest, q)
  {
    assert ([s] + rest)[1..] == rest;
  }

  /** A unit submitted while there is room is among those finished at the end. */
  lemma SubmittedIsFinished(n: nat, steps: seq<Step>, p: Pool, u: Unit) returns (rest: seq<Step>, q: Pool)
    requires n > 0 && IsRun(Start(n), steps, p) && !p.stop && !p.queue.closed && p.queue.CanPush()
    ensures IsRun(p, [Submit(u), Shutdown] + rest, q) && (forall i :: 0 <= i < |rest| ==> rest[i].Work?)
    ensures AllExited(q) && q.finished + p.drained == p.accepted + multiset{u}
  {
    hide IsRun, Start, Worked, AllExited;
    var s := Apply(p, Submit(u));
    RunSnoc(Start(n), steps, p, Submit(u));
    rest, q := ShutdownEnds(n, steps + [Submit(u)], s);
    RunCons(p, Submit(u), [Shutdown] + rest, q);
    assert [Submit(u)] + ([Shutdown] + rest) == [Submit(u), Shutdown] + rest;
  }

  lemma {:induction false} RunSnoc(p: Pool, steps: seq<Step>, q: Pool, s: Step)
    requires IsRun(p, steps, q) && Enabled(q, s)
    ensures IsRun(p, steps + [s], Apply(q, s))
    decreases |steps|
  {
    hide Apply, Enabled;
    if steps == [] {
      assert IsRun(Apply(p, s), [], Apply(p, s));
      RunCons(p, s, [], Apply(p, s));
      assert [s] + [] == steps + [s];
    } else {
      RunSnoc(Apply(p, steps[0]), steps[1..], q, s);
      RunCons(p, steps[0], steps[1..] + [s], Apply(q, s));
      assert [steps[0]] + (steps[1..] + [s]) == steps + [s];
    }
  }

  function DrainPops(n: nat): (steps: seq<Step>)
    ensures |steps| == n && forall i :: 0 <= i < n ==> steps[i] == DrainPop
  {
    seq(n, _ => DrainPop)
  }

  /** The state with both queue and active_work_ empty and what was queued drained. */
  function Emptied(p: Pool): Pool {
    p.(queue := p.queue.(items := []), drained := p.drained + multiset(p.queue.items), listing := map[],
       cleared := true)
  }

  lemma EmptiedAfterPop(p: Pool)
    requires p.queue.items != []
    ensures Enabled(p, DrainPop) && |Apply(p, DrainPop).queue.items| == |p.queue.items| - 1
    ensures Emptied(Apply(p, DrainPop)) == Emptied(p)
  {
    Uncons(p.queue.items);
    Regroup(p.drained, multiset{p.queue.items[0]}, multiset(p.queue.items[1..]));
  }

  lemma Regroup<T>(a: multiset<T>, b: multiset<T>, c: multiset<T>)
    ensures a + (b + c) == a + b + c
  {
  }

  lemma EmptiedByClear(p: Pool)
    requires p.queue.items == []
    ensures Enabled(p, DrainClear) && Apply(p, DrainClear) == Emptied(p)
  {
    assert p.drained + multiset([]) == p.drained;
  }

  /** drain_pending without interruption: as many pops as units are queued, then the clearing; what it pops is what
      was queued, and neither the queue nor active_work_ holds anything after it. */
  lemma {:induction false} DrainTakesAll(p: Pool)
    ensures IsRun(p, DrainPops(|p.queue.items|) + [DrainClear], Emptied(p))
    decreases |p.queue.items|
  {
    hide Apply, Enabled, Emptied;
    var n := |p.queue.items|;
    if n == 0 {
      EmptiedByClear(p);
      RunCons(p, DrainClear, [], Emptied(p));
      assert DrainPops(0) + [DrainClear] == [DrainClear] + [];
    } else {
      EmptiedAfterPop(p);
      DrainTakesAll(Apply(p, DrainPop));
      RunCons(p, DrainPop, DrainPops(n - 1) + [DrainClear], Emptied(p));
      assert [DrainPop] + (DrainPops(n - 1) + [DrainClear]) == DrainPops(n) + [DrainClear];
    }
  }

  // ---- after the stop signal ----

  /** The steps a worker can still take once the stop signal is up, whatever the queue holds. */
  function StepsLeft(pc: Pc): (w: int)
    ensures 0 <= w <= 16
  {
    match pc
    case Waiting => 16
    case Exited => 0
    case Checking => 1
    case _ => Weight(pc) - 1
  }

  /** A unit the worker has, or is waiting for, and has not counted. */
  function UnitsLeft(pc: Pc): (n: int)
    ensures 0 <= n <= 1
  {
    if HasUnit(pc) || pc.Waiting? then 1 else 0
  }

  lemma StopDeltas(p: Pool, i: nat, ok: bool)
    requires CanWork(p, i) && p.stop
    ensures var q, was, now := Worked(p, i, ok), p.workers[i], NextPc(p, i, ok);
      && StepsLeft(now) < StepsLeft(was)
      && q.completed + q.failed + UnitsLeft(now) <= p.completed + p.failed + UnitsLeft(was)
  {
  }

  lemma StepAfterStop(p: Pool, s: Step)
    requires Enabled(p, s) && p.stop
    ensures var q := Apply(p, s);
      && q.stop && |q.workers| == |p.workers|
      && Sum(q.workers, StepsLeft) <= Sum(p.workers, StepsLeft) - (if s.Work? then 1 else 0)
      && q.completed + q.failed + Sum(q.workers, UnitsLeft) <= p.completed + p.failed + Sum(p.workers, UnitsLeft)
  {
    hide Sum, Worked, NextPc, StepsLeft, UnitsLeft;
    if s.Work? {
      var now := NextPc(p, s.worker, s.ok);
      WorkFrame(p, s.worker, s.ok);
      StopDeltas(p, s.worker, s.ok);
      SumUpdate(p.workers, s.worker, now, StepsLeft);
      SumUpdate(p.workers, s.worker, now, UnitsLeft);
    }
  }

  lemma {:induction false} RunAfterStop(p: Pool, steps: seq<Step>, q: Pool)
    requires IsRun(p, steps, q) && p.stop
    ensures q.stop && |q.workers| == |p.workers|
    ensures WorkSteps(steps) <= Sum(p.workers, StepsLeft) - Sum(q.workers, StepsLeft)
    ensures q.completed + q.failed + Sum(q.workers, UnitsLeft) <= p.completed + p.failed + Sum(p.workers, UnitsLeft)
    decreases |steps|
  {
    hide Sum, Apply, Enabled;
    if steps != [] {
      StepAfterStop(p, steps[0]);
      RunAfterStop(Apply(p, steps[0]), steps[1..], q);
    }
  }

  lemma {:induction false} SumAtMost(ws: seq<Pc>, f: Pc -> int, v: int)
    requires forall pc :: 0 <= f(pc) <= v
    ensures 0 <= Sum(ws, f) <= v * |ws|
  {
    if ws != [] {
      SumAtMost(ws[..|ws| - 1], f, v);
    }
  }

  /** However long a run goes on after the stop signal, and whatever is submitted in it, each worker counts at most
      one unit more and takes at most sixteen steps. */
  lemma StopEndsWork(p: Pool, steps: seq<Step>, q: Pool)
    requires IsRun(p, [RaiseStop] + steps, q)
    ensures WorkSteps(steps) <= 16 * |p.workers|
    ensures q.completed + q.failed <= p.completed + p.failed + |p.workers|
  {
    hide Sum, StepsLeft, UnitsLeft;
    assert ([RaiseStop] + steps)[1..] == steps;
    var s := Apply(p, RaiseStop);
    RunAfterStop(s, steps, q);
    SumAtMost(p.workers, StepsLeft, 16);
    SumAtMost(q.workers, StepsLeft, 16);
    SumAtMost(p.workers, UnitsLeft, 1);
    SumAtMost(q.workers, UnitsLeft, 1);
  }
}
