/** The thread pool inside the protocol: what the pool's atomic steps do to the world, and that a world in which one
    consumer runs its real pool only makes runs of the protocol. */
module PoolProtocol {
  import opened CompletedIds
  import opened Protocol
  import T = ThreadPool

  // ---- a pool seen as a consumer of the protocol ----

  function IdOfUnit(u: T.Unit): Id {
    Id(u.id)
  }

  /** The ids of the queued units. */
  function Queued(items: seq<T.Unit>): (ids: seq<Id>)
    ensures |ids| == |items|
  {
    seq(|items|, i requires 0 <= i < |items| => IdOfUnit(items[i]))
  }

  /** A worker has the unit and the handler's verdict is not out. */
  predicate InWork(pc: T.Pc) {
    pc.Taken? || pc.Activated? || pc.Busy? || pc.Listed? || pc.Handling?
  }

  /** The verdict is out and the result callback has not run. */
  predicate Judged(pc: T.Pc) {
    pc.Handled? || pc.Unlisted? || pc.Settled? || pc.Reporting?
  }

  ghost function WorkOf(pc: T.Pc): multiset<Id> {
    if InWork(pc) then multiset{IdOfUnit(pc.unit)} else multiset{}
  }

  ghost function VerdictOf(pc: T.Pc): multiset<Reply> {
    if Judged(pc) then multiset{Reply(IdOfUnit(pc.unit), pc.ok)} else multiset{}
  }

  ghost function Bag<X>(ws: seq<T.Pc>, f: T.Pc -> multiset<X>): multiset<X> {
    if ws == [] then multiset{} else Bag(ws[..|ws| - 1], f) + f(ws[|ws| - 1])
  }

  lemma {:induction false} BagUpdate<X>(ws: seq<T.Pc>, i: nat, pc: T.Pc, f: T.Pc -> multiset<X>)
    requires i < |ws|
    ensures Bag(ws[i := pc], f) + f(ws[i]) == Bag(ws, f) + f(pc)
    ensures f(ws[i]) <= Bag(ws, f)
  {
    var n, vs := |ws| - 1, ws[i := pc];
    if i == n {
      assert vs[..n] == ws[..n];
      T.Exchange(Bag(ws[..n], f), f(pc), f(ws[n]));
    } else {
      BagUpdate(ws[..n], i, pc, f);
      assert vs[..n] == ws[..n][i := pc];
      T.AddOne(Bag(vs[..n], f), Bag(ws[..n], f), f(ws[i]), f(pc), f(ws[n]));
    }
  }

  lemma {:induction false} EmptyBag<X>(ws: seq<T.Pc>, f: T.Pc -> multiset<X>)
    requires forall i :: 0 <= i < |ws| ==> f(ws[i]) == multiset{}
    ensures Bag(ws, f) == multiset{}
  {
    if ws != [] {
      EmptyBag(ws[..|ws| - 1], f);
    }
  }

  /** Queued units and those in work are in the protocol's pool, verdicts wait for the callback, and the callback
      marks and sends in one go; marks and the checked units are the receiver's. */
  ghost function AsConsumer(p: T.Pool, marks: seq<Id>, checked: multiset<Id>): Consumer {
    Consumer(marks, checked, multiset(Queued(p.queue.items)) + Bag(p.workers, WorkOf), Bag(p.workers, VerdictOf), multiset{})
  }

  // ---- what a step of the pool does to the world ----

  ghost function HandledBy(p: T.Pool, s: T.Step): set<Id>
    requires T.Enabled(p, s)
  {
    if s.Work? && s.ok && p.workers[s.worker].Handling? then {IdOfUnit(p.workers[s.worker].unit)} else {}
  }

  ghost function MarkedBy(p: T.Pool, s: T.Step): seq<Id>
    requires T.Enabled(p, s)
  {
    if s.Work? && p.workers[s.worker].Reporting? && p.workers[s.worker].ok
    then [IdOfUnit(p.workers[s.worker].unit)] else []
  }

  /** The result callback sends the verdict; drain_pending's units are reported as failures. */
  ghost function SentBy(p: T.Pool, s: T.Step): set<Reply>
    requires T.Enabled(p, s)
  {
    match s
    case Work(i, _) =>
      if p.workers[i].Reporting? then {Reply(IdOfUnit(p.workers[i].unit), p.workers[i].ok)} else {}
    case DrainPop => {Reply(IdOfUnit(p.queue.items[0]), false)}
    case DrainClear => set id | id in p.listing :: Reply(Id(id), false)
    case _ => {}
  }

  /** The unit a submission takes from those the receiver has checked. */
  ghost function PushedBy(s: T.Step): multiset<Id> {
    if s.Submit? then multiset{IdOfUnit(s.unit)} else multiset{}
  }

  ghost function PoolEffect(w: World, c: string, p: T.Pool, s: T.Step): World
    requires c in w.consumers && T.Enabled(p, s)
  {
    w.(consumers := w.consumers[c := AsConsumer(T.Apply(p, s), w.consumers[c].marks + MarkedBy(p, s),
                                                w.consumers[c].checked - PushedBy(s))],
       replies := w.replies + SentBy(p, s),
       handled := w.handled + HandledBy(p, s))
  }

  /** The world's consumer c is the pool p. */
  ghost predicate Linked(w: World, c: string, p: T.Pool) {
    && c in w.consumers && w.consumers[c] == AsConsumer(p, w.consumers[c].marks, w.consumers[c].checked)
    && T.ListingHeld(p)
  }

  /** What the receiver submits is a unit it received and found not to be cached when it looked; by the time of the
      push it may have been marked. */
  ghost predicate MaySubmit(w: World, c: string, s: T.Step)
    requires c in w.consumers
  {
    s.Submit? ==> IdOfUnit(s.unit) in w.consumers[c].checked
  }

  // ---- each step of the pool is a run of the protocol ----

  lemma PlacesFollow(p: T.Pool, i: nat, ok: bool)
    requires T.CanWork(p, i)
    ensures var pc, now := p.workers[i], T.NextPc(p, i, ok);
      && (pc.Waiting? ==> !InWork(pc) && !Judged(pc) && !Judged(now))
      && (pc.Waiting? && p.queue.items != [] ==> InWork(now) && now.unit == p.queue.items[0])
      && (pc.Waiting? && p.queue.items == [] ==> !InWork(now))
      && (pc.Handling? ==> InWork(pc) && !Judged(pc) && !InWork(now) && Judged(now)
                           && now.unit == pc.unit && now.ok == ok)
      && (pc.Reporting? ==> !InWork(pc) && Judged(pc) && !InWork(now) && !Judged(now))
    ensures var pc, now := p.workers[i], T.NextPc(p, i, ok);
      !pc.Waiting? && !pc.Handling? && !pc.Reporting? ==>
        && InWork(now) == InWork(pc) && (InWork(pc) ==> now.unit == pc.unit)
        && Judged(now) == Judged(pc) && (Judged(pc) ==> now.unit == pc.unit && now.ok == pc.ok)
  {
  }

  lemma QueuedPops(items: seq<T.Unit>)
    requires items != []
    ensures multiset(Queued(items)) == multiset{IdOfUnit(items[0])} + multiset(Queued(items[1..]))
    ensures IdOfUnit(items[0]) in multiset(Queued(items))
  {
    assert Queued(items) == [IdOfUnit(items[0])] + Queued(items[1..]);
  }

  lemma QueuedGrows(items: seq<T.Unit>, u: T.Unit)
    ensures multiset(Queued(items + [u])) == multiset(Queued(items)) + multiset{IdOfUnit(u)}
  {
    assert Queued(items + [u]) == Queued(items) + [IdOfUnit(u)];
  }

  lemma TwoSteps(w: World, x: Step, y: Step)
    requires Enabled(w, x) && Enabled(Apply(w, x), y)
    ensures IsRun(w, [x, y], Apply(Apply(w, x), y))
  {
    hide Apply, Enabled;
    OneStep(w, x);
    OneStep(Apply(w, x), y);
    RunAppends(w, [x], Apply(w, x), [y], Apply(Apply(w, x), y));
    assert [x] + [y] == [x, y];
  }

  lemma WorkBagUpdate(ws: seq<T.Pc>, i: nat, pc: T.Pc)
    requires i < |ws|
    ensures Bag(ws[i := pc], WorkOf) + WorkOf(ws[i]) == Bag(ws, WorkOf) + WorkOf(pc)
    ensures WorkOf(ws[i]) <= Bag(ws, WorkOf)
  {
    BagUpdate(ws, i, pc, WorkOf);
  }

  lemma VerdictBagUpdate(ws: seq<T.Pc>, i: nat, pc: T.Pc)
    requires i < |ws|
    ensures Bag(ws[i := pc], VerdictOf) + VerdictOf(ws[i]) == Bag(ws, VerdictOf) + VerdictOf(pc)
    ensures VerdictOf(ws[i]) <= Bag(ws, VerdictOf)
  {
    BagUpdate(ws, i, pc, VerdictOf);
  }

  lemma Cancel<X>(a: multiset<X>, b: multiset<X>, x: multiset<X>)
    requires a + x == b
    ensures a == b - x
  {
    assert a + x - x == a;
  }

  lemma WorkQueue(p: T.Pool, i: nat, ok: bool)
    requires T.CanWork(p, i)
    ensures T.Worked(p, i, ok).queue.items
         == if p.workers[i].Waiting? && p.queue.items != [] then p.queue.items[1..] else p.queue.items
  {
  }

  lemma CancelBoth<X>(a: multiset<X>, b: multiset<X>, x: multiset<X>)
    requires a + x == b + x
    ensures a == b
  {
    Cancel(a, b + x, x);
    Cancel(b, a + x, x);
  }

  /** The units waiting or in work change only with the verdict. */
  lemma PoolAfterWork(p: T.Pool, i: nat, ok: bool)
    requires T.CanWork(p, i)
    ensures var q, pc := T.Worked(p, i, ok), p.workers[i];
      var pool := multiset(Queued(p.queue.items)) + Bag(p.workers, WorkOf);
      multiset(Queued(q.queue.items)) + Bag(q.workers, WorkOf)
      == (if pc.Handling? then pool - multiset{IdOfUnit(pc.unit)} else pool)
    ensures p.workers[i].Handling? ==> IdOfUnit(p.workers[i].unit) in Bag(p.workers, WorkOf)
  {
    hide T.NextPc, T.Worked, InWork, Judged, Bag, Queued;
    var pc, now, q := p.workers[i], T.NextPc(p, i, ok), T.Worked(p, i, ok);
    var old', new' := Bag(p.workers, WorkOf), Bag(q.workers, WorkOf);
    PlacesFollow(p, i, ok);
    T.WorkFrame(p, i, ok);
    WorkQueue(p, i, ok);
    WorkBagUpdate(p.workers, i, now);
    if pc.Waiting? && p.queue.items != [] {
      QueuedPops(p.queue.items);
      var x, rest := multiset{IdOfUnit(p.queue.items[0])}, multiset(Queued(p.queue.items[1..]));
      Append(rest, old', x);
      Swap(x, rest);
      assert rest + (old' + x) == rest + old' + x;
    } else if pc.Handling? {
      var x, items := multiset{IdOfUnit(pc.unit)}, multiset(Queued(p.queue.items));
      Cancel(new', old', x);
      TakeFrom(items, old', IdOfUnit(pc.unit));
    } else {
      CancelBoth(new', old', WorkOf(pc));
    }
  }

  lemma Swap<X>(a: multiset<X>, b: multiset<X>)
    ensures a + b == b + a
  {
  }

  /** The verdicts change only when they come and when they are reported. */
  lemma VerdictsAfterWork(p: T.Pool, i: nat, ok: bool)
    requires T.CanWork(p, i)
    ensures var pc, verdicts := p.workers[i], Bag(p.workers, VerdictOf);
      Bag(T.Worked(p, i, ok).workers, VerdictOf)
      == (if pc.Handling? then verdicts + multiset{Reply(IdOfUnit(pc.unit), ok)}
          else if pc.Reporting? then verdicts - multiset{Reply(IdOfUnit(pc.unit), pc.ok)}
          else verdicts)
    ensures var pc := p.workers[i];
      pc.Reporting? ==> Reply(IdOfUnit(pc.unit), pc.ok) in Bag(p.workers, VerdictOf)
  {
    hide T.NextPc, T.Worked, InWork, Judged, Bag;
    var pc, now, q := p.workers[i], T.NextPc(p, i, ok), T.Worked(p, i, ok);
    PlacesFollow(p, i, ok);
    T.WorkFrame(p, i, ok);
    VerdictBagUpdate(p.workers, i, now);
    var old', new' := Bag(p.workers, VerdictOf), Bag(q.workers, VerdictOf);
    if pc.Reporting? {
      Cancel(new', old', multiset{Reply(IdOfUnit(pc.unit), pc.ok)});
    } else if !pc.Handling? {
      CancelBoth(new', old', VerdictOf(pc));
    }
  }

  /** A worker that takes a unit, or moves on without a verdict or a report, does nothing in the protocol. */
  lemma QuietWork(w: World, c: string, p: T.Pool, i: nat, ok: bool)
    requires Linked(w, c, p) && T.CanWork(p, i)
    requires !p.workers[i].Handling? && !p.workers[i].Reporting?
    ensures PoolEffect(w, c, p, T.Work(i, ok)) == w
  {
    hide T.NextPc, T.Worked, T.ListingHeld, Bag, Queued, IdOfUnit;
    PoolAfterWork(p, i, ok);
    VerdictsAfterWork(p, i, ok);
    assert AsConsumer(T.Worked(p, i, ok), w.consumers[c].marks + [], w.consumers[c].checked - multiset{}) == w.consumers[c];
    assert w.consumers[c := w.consumers[c]] == w.consumers;
  }

  lemma AfterHandling(p: T.Pool, i: nat, ok: bool, marks: seq<Id>, checked: multiset<Id>)
    requires T.CanWork(p, i) && p.workers[i].Handling?
    ensures var was, id := AsConsumer(p, marks, checked), IdOfUnit(p.workers[i].unit);
      && id in was.pool
      && AsConsumer(T.Worked(p, i, ok), marks, checked)
         == was.(pool := was.pool - multiset{id}, verdicts := was.verdicts + multiset{Reply(id, ok)})
  {
    hide T.NextPc, T.Worked, Bag, Queued, IdOfUnit;
    PoolAfterWork(p, i, ok);
    VerdictsAfterWork(p, i, ok);
  }

  /** The handler's end is the protocol's Handle. */
  lemma HandlingIsHandle(w: World, c: string, p: T.Pool, i: nat, ok: bool)
    requires Linked(w, c, p) && T.CanWork(p, i) && p.workers[i].Handling?
    ensures var s := Handle(c, IdOfUnit(p.workers[i].unit), ok);
      Enabled(w, s) && Apply(w, s) == PoolEffect(w, c, p, T.Work(i, ok))
  {
    hide AsConsumer, T.ListingHeld, T.Worked, T.NextPc, IdOfUnit, Apply;
    var s, marks, checked := Handle(c, IdOfUnit(p.workers[i].unit), ok), w.consumers[c].marks, w.consumers[c].checked;
    AfterHandling(p, i, ok, marks, checked);
    assert marks + [] == marks && checked - multiset{} == checked;
    ConsumerEffect(w, s, AsConsumer(T.Worked(p, i, ok), marks, checked), {});
  }

  lemma TakeFrom<X>(a: multiset<X>, b: multiset<X>, x: X)
    requires multiset{x} <= b
    ensures a + b - multiset{x} == a + (b - multiset{x}) && x in b
  {
  }

  lemma AfterReporting(p: T.Pool, i: nat, ok: bool, marks: seq<Id>, checked: multiset<Id>)
    requires T.CanWork(p, i) && p.workers[i].Reporting?
    ensures var was, r := AsConsumer(p, marks, checked), Reply(IdOfUnit(p.workers[i].unit), p.workers[i].ok);
      && r in was.verdicts && was.marked == multiset{}
      && forall after :: AsConsumer(T.Worked(p, i, ok), after, checked)
                         == was.(verdicts := was.verdicts - multiset{r}, marks := after)
  {
    hide T.NextPc, T.Worked, Bag, Queued, IdOfUnit;
    PoolAfterWork(p, i, ok);
    VerdictsAfterWork(p, i, ok);
  }

  /** The result callback is the protocol's Callback and then SendReply. */
  lemma ReportingIsCallback(w: World, c: string, p: T.Pool, i: nat, ok: bool)
    requires Linked(w, c, p) && T.CanWork(p, i) && p.workers[i].Reporting?
    ensures var r := Reply(IdOfUnit(p.workers[i].unit), p.workers[i].ok);
      var s, t := Callback(c, r), SendReply(c, r, true);
      Enabled(w, s) && Enabled(Apply(w, s), t) && Apply(Apply(w, s), t) == PoolEffect(w, c, p, T.Work(i, ok))
  {
    hide T.NextPc, T.Worked, T.ListingHeld, AsConsumer, IdOfUnit, Enabled, Apply;
    var marks, checked := w.consumers[c].marks, w.consumers[c].checked;
    AfterReporting(p, i, ok, marks, checked);
    assert checked - multiset{} == checked;
    KeepsMarks(p, marks, checked);
    var r := Reply(IdOfUnit(p.workers[i].unit), p.workers[i].ok);
    CallbackAndSend(w, c, r, AsConsumer(T.Worked(p, i, ok), marks + MarkedBy(p, T.Work(i, ok)), checked));
  }

  lemma CallbackAndSend(w: World, c: string, r: Reply, after: Consumer)
    requires c in w.consumers && r in w.consumers[c].verdicts && w.consumers[c].marked == multiset{}
    requires var was := w.consumers[c];
      after == was.(verdicts := was.verdicts - multiset{r}, marks := was.marks + if r.ok then [r.id] else [])
    ensures var s, t := Callback(c, r), SendReply(c, r, true);
      && Enabled(w, s) && Enabled(Apply(w, s), t)
      && Apply(Apply(w, s), t) == w.(consumers := w.consumers[c := after], replies := w.replies + {r})
  {
    var was := w.consumers[c];
    assert was.marks + [] == was.marks;
    assert multiset{} + multiset{r} - multiset{r} == multiset{};
  }

  lemma AfterSubmit(p: T.Pool, u: T.Unit, marks: seq<Id>, checked: multiset<Id>)
    requires T.Enabled(p, T.Submit(u))
    ensures var was, id := AsConsumer(p, marks, checked), IdOfUnit(u);
      AsConsumer(T.Apply(p, T.Submit(u)), marks, checked - multiset{id})
      == was.(checked := checked - multiset{id}, pool := if p.queue.closed then was.pool else was.pool + multiset{id})
  {
    hide Bag, Queued, IdOfUnit;
    QueuedGrows(p.queue.items, u);
    Append(multiset(Queued(p.queue.items)), Bag(p.workers, WorkOf), multiset{IdOfUnit(u)});
  }

  /** A push is the protocol's Submit; after shutdown it stores nothing. */
  lemma PushIsSubmit(w: World, c: string, p: T.Pool, u: T.Unit)
    requires Linked(w, c, p) && T.Enabled(p, T.Submit(u)) && MaySubmit(w, c, T.Submit(u))
    ensures var s := Submit(c, IdOfUnit(u), !p.queue.closed);
      Enabled(w, s) && Apply(w, s) == PoolEffect(w, c, p, T.Submit(u))
  {
    hide AsConsumer, T.ListingHeld, T.Apply, IdOfUnit, Apply, Cached;
    var s, marks, checked := Submit(c, IdOfUnit(u), !p.queue.closed), w.consumers[c].marks, w.consumers[c].checked;
    AfterSubmit(p, u, marks, checked);
    KeepsMarks(p, marks, checked);
    assert marks + [] == marks;
    ConsumerEffect(w, s, AsConsumer(T.Apply(p, T.Submit(u)), marks, checked - multiset{IdOfUnit(u)}), {});
  }

  lemma Append<X>(a: multiset<X>, b: multiset<X>, x: multiset<X>)
    ensures a + b + x == a + x + b
  {
  }

  lemma AfterDrainPop(p: T.Pool, marks: seq<Id>, checked: multiset<Id>)
    requires T.Enabled(p, T.DrainPop)
    ensures var was, id := AsConsumer(p, marks, checked), IdOfUnit(p.queue.items[0]);
      id in was.pool && AsConsumer(T.Apply(p, T.DrainPop), marks, checked) == was.(pool := was.pool - multiset{id})
  {
    hide Bag, Queued, IdOfUnit;
    QueuedPops(p.queue.items);
    TakeFirst(IdOfUnit(p.queue.items[0]), multiset(Queued(p.queue.items[1..])), Bag(p.workers, WorkOf));
  }

  lemma DrainPopIsDrain(w: World, c: string, p: T.Pool)
    requires Linked(w, c, p) && T.Enabled(p, T.DrainPop)
    ensures var s := Drain(c, IdOfUnit(p.queue.items[0]), true);
      Enabled(w, s) && Apply(w, s) == PoolEffect(w, c, p, T.DrainPop)
  {
    hide AsConsumer, T.ListingHeld, T.Apply, IdOfUnit, Apply;
    var s, marks, checked := Drain(c, IdOfUnit(p.queue.items[0]), true), w.consumers[c].marks, w.consumers[c].checked;
    AfterDrainPop(p, marks, checked);
    assert marks + [] == marks && checked - multiset{} == checked;
    ConsumerEffect(w, s, AsConsumer(T.Apply(p, T.DrainPop), marks, checked), {Reply(IdOfUnit(p.queue.items[0]), false)});
  }

  lemma TakeFirst<X>(x: X, a: multiset<X>, b: multiset<X>)
    ensures multiset{x} + a + b - multiset{x} == a + b && x in multiset{x} + a + b
  {
  }

  /** A unit in active_work_ may be drained in the protocol: it is in work, or its verdict waits. */
  lemma ListedCanBeDrained(p: T.Pool, marks: seq<Id>, checked: multiset<Id>, id: string)
    requires T.ListingHeld(p) && id in p.listing
    ensures CanDrain(AsConsumer(p, marks, checked), Id(id), false)
  {
    hide Bag, Queued;
    assert T.HeldAs(p.workers, id, p.listing[id]);
    var i :| 0 <= i < |p.workers| && T.InListing(p.workers[i]) && p.workers[i].unit == p.listing[id]
          && p.listing[id].id == id;
    WorkBagUpdate(p.workers, i, p.workers[i]);
    VerdictBagUpdate(p.workers, i, p.workers[i]);
    if p.workers[i].Handled? {
      assert Reply(Id(id), p.workers[i].ok) in VerdictOf(p.workers[i]);
    } else {
      assert Id(id) in WorkOf(p.workers[i]);
    }
  }

  ghost function Failures(ids: set<string>): set<Reply> {
    set id | id in ids :: Reply(Id(id), false)
  }

  /** Reporting the units of active_work_ one by one, in any order. */
  lemma {:induction false} ClearIsDrains(w: World, c: string, p: T.Pool, ids: set<string>) returns (steps: seq<Step>)
    requires Linked(w, c, p) && ids <= p.listing.Keys
    ensures IsRun(w, steps, w.(replies := w.replies + Failures(ids)))
    decreases ids
  {
    hide AsConsumer, T.ListingHeld, Apply, Enabled;
    if ids == {} {
      steps := [];
      assert w.replies + Failures({}) == w.replies;
    } else {
      var id :| id in ids;
      var s := Drain(c, Id(id), false);
      DrainOne(w, c, p, id);
      var v := w.(replies := w.replies + {Reply(Id(id), false)});
      var rest := ClearIsDrains(v, c, p, ids - {id});
      steps := [s] + rest;
      OneStep(w, s);
      assert w.replies + Failures(ids) == v.replies + Failures(ids - {id});
      RunAppends(w, [s], v, rest, w.(replies := w.replies + Failures(ids)));
    }
  }

  lemma DrainOne(w: World, c: string, p: T.Pool, id: string)
    requires Linked(w, c, p) && id in p.listing
    ensures var s := Drain(c, Id(id), false);
      Enabled(w, s) && Apply(w, s) == w.(replies := w.replies + {Reply(Id(id), false)})
  {
    hide AsConsumer, T.ListingHeld, Apply, CanDrain;
    var s := Drain(c, Id(id), false);
    ListedCanBeDrained(p, w.consumers[c].marks, w.consumers[c].checked, id);
    ConsumerEffect(w, s, w.consumers[c], {Reply(Id(id), false)});
    assert w.consumers[c := w.consumers[c]] == w.consumers;
  }

  /** Steps that change neither the queue's units nor a worker do nothing in the protocol. */
  lemma QuietStep(w: World, c: string, p: T.Pool, s: T.Step)
    requires Linked(w, c, p) && T.Enabled(p, s)
    requires s.Shutdown? || s.RaiseStop?
    ensures PoolEffect(w, c, p, s) == w
  {
    hide T.ListingHeld, Bag, Queued;
    var marks, checked := w.consumers[c].marks, w.consumers[c].checked;
    assert marks + [] == marks && checked - multiset{} == checked;
    assert w.consumers[c := w.consumers[c]] == w.consumers;
    assert w.replies + {} == w.replies && w.handled + {} == w.handled;
  }

  lemma ClearEffect(w: World, c: string, p: T.Pool)
    requires Linked(w, c, p)
    ensures PoolEffect(w, c, p, T.DrainClear) == w.(replies := w.replies + Failures(p.listing.Keys))
  {
    hide T.ListingHeld, Bag, Queued;
    var marks, checked := w.consumers[c].marks, w.consumers[c].checked;
    assert marks + [] == marks && checked - multiset{} == checked;
    assert w.consumers[c := w.consumers[c]] == w.consumers;
    assert SentBy(p, T.DrainClear) == Failures(p.listing.Keys);
  }

  lemma WorkIsRun(w: World, c: string, p: T.Pool, i: nat, ok: bool) returns (steps: seq<Step>)
    requires Linked(w, c, p) && T.CanWork(p, i)
    ensures IsRun(w, steps, PoolEffect(w, c, p, T.Work(i, ok)))
  {
    hide Linked, PoolEffect, Apply, Enabled;
    if p.workers[i].Handling? {
      HandlingIsHandle(w, c, p, i, ok);
      var s := Handle(c, IdOfUnit(p.workers[i].unit), ok);
      OneStep(w, s);
      steps := [s];
    } else if p.workers[i].Reporting? {
      ReportingIsCallback(w, c, p, i, ok);
      var r := Reply(IdOfUnit(p.workers[i].unit), p.workers[i].ok);
      TwoSteps(w, Callback(c, r), SendReply(c, r, true));
      steps := [Callback(c, r), SendReply(c, r, true)];
    } else {
      QuietWork(w, c, p, i, ok);
      steps := [];
    }
  }

  lemma KeepsMarks(p: T.Pool, marks: seq<Id>, checked: multiset<Id>)
    ensures AsConsumer(p, marks, checked).marks == marks && AsConsumer(p, marks, checked).checked == checked
  {
    hide Bag, Queued;
  }

  /** Every atomic step of the pool is a run of the protocol. */
  lemma PoolStepIsRun(w: World, c: string, p: T.Pool, s: T.Step) returns (steps: seq<Step>)
    requires Linked(w, c, p) && T.Enabled(p, s) && MaySubmit(w, c, s)
    ensures IsRun(w, steps, PoolEffect(w, c, p, s))
    ensures Linked(PoolEffect(w, c, p, s), c, T.Apply(p, s))
  {
    hide T.ListingHeld, AsConsumer, T.Apply, Apply, Enabled, SentBy, HandledBy, MarkedBy, PushedBy;
    T.StepKeepsListingHeld(p, s);
    KeepsMarks(T.Apply(p, s), w.consumers[c].marks + MarkedBy(p, s), w.consumers[c].checked - PushedBy(s));
    match s
    case Work(i, ok) => steps := WorkIsRun(w, c, p, i, ok);
    case Submit(u) =>
      PushIsSubmit(w, c, p, u);
      OneStep(w, Submit(c, IdOfUnit(u), !p.queue.closed));
      steps := [Submit(c, IdOfUnit(u), !p.queue.closed)];
    case DrainPop =>
      DrainPopIsDrain(w, c, p);
      OneStep(w, Drain(c, IdOfUnit(p.queue.items[0]), true));
      steps := [Drain(c, IdOfUnit(p.queue.items[0]), true)];
    case DrainClear =>
      ClearEffect(w, c, p);
      steps := ClearIsDrains(w, c, p, p.listing.Keys);
    case _ =>
      QuietStep(w, c, p, s);
      steps := [];
  }

  // ---- runs in which one consumer is its pool ----

  /** A step of the pool, or any other step that leaves it alone: the producer's, the network's, another consumer's,
      or this consumer's receiver looking into the cache, which answers a duplicate or keeps the unit for a push. */
  datatype Move = InPool(step: T.Step) | Elsewhere(other: Step)

  ghost predicate LeavesAlone(w: World, c: string, s: Step)
    requires c in w.consumers && Enabled(w, s)
  {
    && !(s.Submit? && s.consumer == c)
    && c in Apply(w, s).consumers
    && Apply(w, s).consumers[c] == w.consumers[c].(checked := Apply(w, s).consumers[c].checked)
  }

  ghost predicate MoveEnabled(w: World, c: string, p: T.Pool, m: Move) {
    c in w.consumers &&
    match m
    case InPool(s) => T.Enabled(p, s) && MaySubmit(w, c, s)
    case Elsewhere(s) => Enabled(w, s) && LeavesAlone(w, c, s)
  }

  ghost function MoveWorld(w: World, c: string, p: T.Pool, m: Move): World
    requires MoveEnabled(w, c, p, m)
  {
    match m
    case InPool(s) => PoolEffect(w, c, p, s)
    case Elsewhere(s) => Apply(w, s)
  }

  ghost function MovePool(w: World, c: string, p: T.Pool, m: Move): T.Pool
    requires MoveEnabled(w, c, p, m)
  {
    match m
    case InPool(s) => T.Apply(p, s)
    case Elsewhere(_) => p
  }

  ghost predicate IsMixedRun(w: World, c: string, p: T.Pool, moves: seq<Move>, v: World, q: T.Pool)
    decreases |moves|
  {
    if moves == [] then v == w && q == p
    else MoveEnabled(w, c, p, moves[0])
         && IsMixedRun(MoveWorld(w, c, p, moves[0]), c, MovePool(w, c, p, moves[0]), moves[1..], v, q)
  }

  lemma MoveIsRun(w: World, c: string, p: T.Pool, m: Move) returns (steps: seq<Step>)
    requires Linked(w, c, p) && MoveEnabled(w, c, p, m)
    ensures IsRun(w, steps, MoveWorld(w, c, p, m))
    ensures Linked(MoveWorld(w, c, p, m), c, MovePool(w, c, p, m))
  {
    hide T.ListingHeld, AsConsumer, T.Apply, Apply, Enabled, PoolEffect, MaySubmit;
    match m
    case InPool(s) => steps := PoolStepIsRun(w, c, p, s);
    case Elsewhere(s) =>
      OneStep(w, s);
      OtherChecked(p, w.consumers[c].marks, w.consumers[c].checked, Apply(w, s).consumers[c].checked);
      steps := [s];
  }

  lemma OtherChecked(p: T.Pool, marks: seq<Id>, checked: multiset<Id>, other: multiset<Id>)
    ensures AsConsumer(p, marks, checked).(checked := other) == AsConsumer(p, marks, other)
    ensures AsConsumer(p, marks, checked).marks == marks
  {
    hide Bag, Queued;
  }

  /** A run with the real pool is a run of the protocol. */
  lemma {:induction false} MixedIsRun(w: World, c: string, p: T.Pool, moves: seq<Move>, v: World, q: T.Pool)
      returns (steps: seq<Step>)
    requires IsMixedRun(w, c, p, moves, v, q) && Linked(w, c, p)
    ensures IsRun(w, steps, v) && Linked(v, c, q)
    decreases |moves|
  {
    hide Linked, MoveWorld, MovePool, MoveEnabled, Apply, Enabled;
    if moves == [] {
      steps := [];
    } else {
      var u, r := MoveWorld(w, c, p, moves[0]), MovePool(w, c, p, moves[0]);
      var first := MoveIsRun(w, c, p, moves[0]);
      var rest := MixedIsRun(u, c, r, moves[1..], v, q);
      RunAppends(w, first, u, rest, v);
      steps := first + rest;
    }
  }

  /** A consumer that has just joined is a pool that has just started, with any number of workers. */
  lemma JoinedIsStarted(w: World, c: string, workers: nat)
    requires c in w.consumers && w.consumers[c] == NEWCOMER
    ensures Linked(w, c, T.Start(workers))
  {
    hide Bag;
    EmptyBag(T.Start(workers).workers, WorkOf);
    EmptyBag(T.Start(workers).workers, VerdictOf);
    assert multiset(Queued([])) == multiset{};
  }

  /** End to end with the pool: whatever interleaving of its atomic steps with the rest of the world, a unit
      Completed in the tracker had a handler return success; in this consumer that is the pool's own handler step. */
  lemma CompletedMeansHandledInPool(producerId: string, start: int, before: seq<Step>, w: World, c: string,
                                    workers: nat, moves: seq<Move>, v: World, q: T.Pool)
    requires IsRun(Begin(producerId, start), before, w)
    requires c in w.consumers && w.consumers[c] == NEWCOMER
    requires IsMixedRun(w, c, T.Start(workers), moves, v, q)
    ensures CompletedHandled(v.producer.table, v.handled)
  {
    hide IsMixedRun, Linked, Apply, Enabled, T.Start;
    JoinedIsStarted(w, c, workers);
    var steps := MixedIsRun(w, c, T.Start(workers), moves, v, q);
    RunAppends(Begin(producerId, start), before, w, steps, v);
    forall id | id in v.producer.table.entries && v.producer.table.entries[id].status.Completed?
      ensures id in v.handled
    {
      CompletedMeansHandled(producerId, start, before + steps, v, id);
    }
  }
}
