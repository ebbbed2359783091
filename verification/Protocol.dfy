/** Producer, network and consumers together.  The producer's request handler moves in the micro-steps between
    which the monitor may reclaim and results may be taken; the network may lose, delay and repeat every
    message; consumers process, cache, forget and restart. */
module Protocol {
  import opened CompletedIds
  import opened WorkTracker
  import P = Producer

  /** Where the request handler is. */
  datatype Phase =
    | Ready
    | Looping(consumer: string, left: int) // about to ask the plugin
    | Added(consumer: string, left: int)   // the unit is pending
    | Marked(consumer: string, left: int)  // the unit is marked as sent, not yet on the wire

  /** A result message. */
  datatype Reply = Reply(id: Id, ok: bool)

  /** A consumer: every id it marked completed, the units received and found not to be cached but not yet submitted,
      the units in its pool, the handler's verdicts before and after the result callback marked them. */
  datatype Consumer = Consumer(
    marks: seq<Id>, checked: multiset<Id>, pool: multiset<Id>, verdicts: multiset<Reply>, marked: multiset<Reply>)

  const NEWCOMER := Consumer([], multiset{}, multiset{}, multiset{}, multiset{})

  /** sent are the numbers of all work unit messages ever on the wire, in order, replies all result messages;
      handled are the ids for which some consumer's handler returned success, completions the numbers that results
      completed, in order. */
  datatype World = World(
    producer: P.State,
    phase: Phase,
    sent: seq<int>,
    replies: set<Reply>,
    consumers: map<string, Consumer>,
    handled: set<Id>,
    completions: seq<int>)

  datatype Step =
    // the producer
    | Request(consumer: string, threads: int)
    | Generate(gives: bool)
    | Mark
    | Send(thrown: bool)
    | ReclaimFrom(consumer: string)
    | TakeReply(reply: Reply)
    // a consumer
    | Join(consumer: string)
    | Receive(consumer: string, number: int)
    | Submit(consumer: string, id: Id, stored: bool)
    | Handle(consumer: string, id: Id, ok: bool)
    | Callback(consumer: string, reply: Reply)
    | SendReply(consumer: string, reply: Reply, arrives: bool)
    | Drain(consumer: string, id: Id, queued: bool)

  function Begin(producerId: string, start: int): World {
    World(P.Begin(producerId, start), Ready, [], {}, map[], {}, [])
  }

  /** The id in the work unit message with a number. */
  function UnitId(w: World, n: int): Id {
    P.IdOf(w.producer.producerId, n)
  }

  /** A unit may be drained from the queue, or be reported while a worker has it, also after its verdict. */
  ghost predicate CanDrain(c: Consumer, id: Id, queued: bool) {
    id in c.pool || (!queued && (Reply(id, true) in c.verdicts || Reply(id, false) in c.verdicts))
  }

  ghost predicate Enabled(w: World, s: Step) {
    match s
    case Request(_, _) => w.phase.Ready?
    case Generate(_) => w.phase.Looping?
    case Mark => w.phase.Added?
    case Send(_) => w.phase.Marked?
    case ReclaimFrom(_) => true
    case TakeReply(r) => r in w.replies
    case Join(_) => true
    case Receive(c, n) => c in w.consumers && n in w.sent
    case Submit(c, id, _) => c in w.consumers && id in w.consumers[c].checked
    case Handle(c, id, _) => c in w.consumers && id in w.consumers[c].pool
    case Callback(c, r) => c in w.consumers && r in w.consumers[c].verdicts
    case SendReply(c, r, _) => c in w.consumers && r in w.consumers[c].marked
    case Drain(c, id, queued) => c in w.consumers && CanDrain(w.consumers[c], id, queued)
  }

  /** The number a result completes, if it is a success for a known id. */
  function Completes(t: Table, r: Reply): seq<int> {
    if r.ok && r.id in t.entries then [t.entries[r.id].seqNo] else []
  }

  /** A step of the request handler, or of the threads that take results and reclaim. */
  ghost function ProducerStep(w: World, s: Step): World
    requires Enabled(w, s)
  {
    match s
    case Request(c, n) => w.(phase := Looping(c, n))
    case Generate(gives) =>
      if w.phase.left <= 0 || !gives then w.(phase := Ready)
      else w.(producer := P.AddUnit(w.producer), phase := Added(w.phase.consumer, w.phase.left))
    case Mark =>
      w.(producer := P.SendUnit(w.producer, w.phase.consumer), phase := Marked(w.phase.consumer, w.phase.left))
    case Send(thrown) =>
      if thrown then w.(phase := Ready)
      else w.(sent := w.sent + [w.producer.nextSeq - 1], phase := Looping(w.phase.consumer, w.phase.left - 1))
    case ReclaimFrom(c) => w.(producer := P.ReclaimUnits(w.producer, c))
    case TakeReply(r) =>
      w.(producer := P.TakeResult(w.producer, r.id, r.ok), completions := w.completions + Completes(w.producer.table, r))
    case _ => w
  }

  /** What a step does to the consumer that makes it.  The look into the cache and the submission are two steps: an id
      may be marked in between, and a push after shutdown stores nothing. */
  ghost function Moved(w: World, s: Step, c: Consumer): Consumer {
    match s
    case Receive(_, n) =>
      if UnitId(w, n) in Cached(c.marks, MAX_COMPLETED_IDS) then c
      else c.(checked := c.checked + multiset{UnitId(w, n)})
    case Submit(_, id, stored) =>
      c.(checked := c.checked - multiset{id}, pool := if stored then c.pool + multiset{id} else c.pool)
    case Handle(_, id, ok) =>
      c.(pool := c.pool - multiset{id}, verdicts := c.verdicts + multiset{Reply(id, ok)})
    case Callback(_, r) =>
      c.(verdicts := c.verdicts - multiset{r}, marked := c.marked + multiset{r},
         marks := if r.ok then c.marks + [r.id] else c.marks)
    case SendReply(_, r, _) => c.(marked := c.marked - multiset{r})
    case Drain(_, id, queued) => if queued then c.(pool := c.pool - multiset{id}) else c
    case _ => c
  }

  /** The result messages a step puts on the wire: a cached id is answered at once, a drained unit fails. */
  ghost function Replied(w: World, s: Step): set<Reply>
    requires Enabled(w, s)
  {
    match s
    case Receive(c, n) =>
      var id := UnitId(w, n);
      if id in Cached(w.consumers[c].marks, MAX_COMPLETED_IDS) then {Reply(id, true)} else {}
    case SendReply(_, r, arrives) => if arrives then {r} else {}
    case Drain(_, id, _) => {Reply(id, false)}
    case _ => {}
  }

  predicate OfConsumer(s: Step) {
    s.Receive? || s.Submit? || s.Handle? || s.Callback? || s.SendReply? || s.Drain?
  }

  ghost function ConsumerStep(w: World, s: Step): World
    requires Enabled(w, s) && OfConsumer(s)
  {
    w.(consumers := w.consumers[s.consumer := Moved(w, s, w.consumers[s.consumer])],
       replies := w.replies + Replied(w, s),
       handled := if s.Handle? && s.ok then w.handled + {s.id} else w.handled)
  }

  ghost function Apply(w: World, s: Step): World
    requires Enabled(w, s)
  {
    if OfConsumer(s) then ConsumerStep(w, s)
    else if s.Join? then
      w.(consumers := w.consumers[s.consumer := NEWCOMER])
    else ProducerStep(w, s)
  }

  ghost predicate IsRun(w: World, steps: seq<Step>, v: World)
    decreases |steps|
  {
    if steps == [] then v == w else Enabled(w, steps[0]) && IsRun(Apply(w, steps[0]), steps[1..], v)
  }

  // ---- what every step keeps ----

  /** Messages go out in number order, each number at most once, and only numbers already used up. */
  ghost predicate SentInOrder(w: World) {
    && (forall i, j :: 0 <= i < j < |w.sent| ==> w.sent[i] < w.sent[j])
    && (forall i :: 0 <= i < |w.sent| ==>
          w.producer.start <= w.sent[i] < w.producer.nextSeq - if w.phase.Marked? then 1 else 0)
  }

  /** A positive verdict, wherever it is, stands for a handler that returned success. */
  ghost predicate Honest(rs: multiset<Reply>, handled: set<Id>) {
    forall r :: r in rs && r.ok ==> r.id in handled
  }

  ghost predicate ConsumerHonest(c: Consumer, handled: set<Id>) {
    && Honest(c.verdicts, handled) && Honest(c.marked, handled)
    && forall id :: id in c.marks ==> id in handled
  }

  ghost predicate ConsumersHonest(w: World) {
    forall c :: c in w.consumers ==> ConsumerHonest(w.consumers[c], w.handled)
  }

  ghost predicate RepliesHonest(w: World) {
    forall r :: r in w.replies && r.ok ==> r.id in w.handled
  }

  ghost predicate CompletedHandled(t: Table, handled: set<Id>) {
    forall id :: id in t.entries && t.entries[id].status.Completed? ==> id in handled
  }

  ghost function Last(completions: seq<int>): int {
    if completions == [] then -1 else completions[|completions| - 1]
  }

  ghost predicate CompletedListed(t: Table, completions: seq<int>) {
    forall id :: id in t.entries && t.entries[id].status.Completed? ==> t.entries[id].seqNo in completions
  }

  ghost predicate Within(completions: seq<int>, low: int, high: int) {
    forall i :: 0 <= i < |completions| ==> low <= completions[i] < high
  }

  /** The tracker's last completed number is that of the last completion, and no completed unit is missing there. */
  ghost predicate CompletionsKnown(w: World) {
    && w.producer.table.lastCompletedSeq == Last(w.completions)
    && Within(w.completions, w.producer.start, w.producer.nextSeq + P.Extra(w.phase.Added?))
    && CompletedListed(w.producer.table, w.completions)
  }

  ghost predicate Invariant(w: World) {
    && P.Consistent(w.producer, w.phase.Added?)
    && (w.phase.Marked? ==> w.producer.start < w.producer.nextSeq)
    && SentInOrder(w) && ConsumersHonest(w) && RepliesHonest(w)
    && CompletedHandled(w.producer.table, w.handled)
    && CompletionsKnown(w)
  }

  lemma BeginInvariant(producerId: string, start: int)
    ensures Invariant(Begin(producerId, start))
  {
    P.BeginConsistent(producerId, start);
  }

  lemma HandledGrows(w: World, s: Step)
    requires Enabled(w, s)
    ensures w.handled <= Apply(w, s).handled
  {
    hide Moved, Replied;
  }

  lemma HonestMoves(rs: multiset<Reply>, r: Reply, handled: set<Id>)
    requires Honest(rs, handled)
    ensures Honest(rs - multiset{r}, handled)
    ensures (r.ok ==> r.id in handled) ==> Honest(rs + multiset{r}, handled)
    ensures r in rs && r.ok ==> r.id in handled
  {
  }

  /** What an id in the cache, or a verdict, says about the past goes on to hold after the step. */
  lemma MovedHonest(w: World, s: Step, c: Consumer, handled: set<Id>)
    requires ConsumerHonest(c, w.handled) && w.handled <= handled
    requires s.Handle? && s.ok ==> s.id in handled
    requires s.Callback? ==> s.reply in c.verdicts
    ensures ConsumerHonest(Moved(w, s, c), handled)
  {
    hide Cached, UnitId, Honest;
    ConsumerHonestGrows(c, w.handled, handled);
    match s
    case Handle(_, id, ok) => HonestMoves(c.verdicts, Reply(id, ok), handled);
    case Callback(_, r) =>
      HonestMoves(c.verdicts, r, handled);
      HonestMoves(c.marked, r, handled);
    case SendReply(_, r, _) => HonestMoves(c.marked, r, handled);
    case _ =>
  }

  lemma StepConsumersHonest(w: World, s: Step)
    requires Enabled(w, s) && ConsumersHonest(w)
    ensures ConsumersHonest(Apply(w, s))
  {
    hide ConsumerHonest, Moved, Replied;
    HandledGrows(w, s);
    var v := Apply(w, s);
    forall c | c in v.consumers
      ensures ConsumerHonest(v.consumers[c], v.handled)
    {
      if OfConsumer(s) && c == s.consumer {
        MovedHonest(w, s, w.consumers[c], v.handled);
      } else if s.Join? && c == s.consumer {
        NewcomerHonest(v.handled);
      } else {
        ConsumerHonestGrows(w.consumers[c], w.handled, v.handled);
      }
    }
  }

  lemma NewcomerHonest(handled: set<Id>)
    ensures ConsumerHonest(NEWCOMER, handled)
  {
  }

  lemma ConsumerHonestGrows(c: Consumer, handled: set<Id>, more: set<Id>)
    requires ConsumerHonest(c, handled) && handled <= more
    ensures ConsumerHonest(c, more)
  {
  }

  /** A duplicate is answered "success" only for a cached id, and ids are cached only after a success. */
  lemma RepliedHonest(w: World, s: Step)
    requires Enabled(w, s) && ConsumersHonest(w)
    ensures forall r :: r in Replied(w, s) && r.ok ==> r.id in w.handled
  {
    hide UnitId;
    if s.Receive? {
      var c := w.consumers[s.consumer];
      CachedIff(c.marks, UnitId(w, s.number), MAX_COMPLETED_IDS);
      assert ConsumerHonest(c, w.handled);
    } else if s.SendReply? {
      assert ConsumerHonest(w.consumers[s.consumer], w.handled);
    }
  }

  lemma StepRepliesHonest(w: World, s: Step)
    requires Enabled(w, s) && ConsumersHonest(w) && RepliesHonest(w)
    ensures RepliesHonest(Apply(w, s))
  {
    hide ConsumersHonest, Moved, Replied;
    RepliedHonest(w, s);
    HandledGrows(w, s);
  }

  lemma TableCompleted(p: P.State, handled: set<Id>, id: Id, ok: bool, consumer: string)
    requires CompletedHandled(p.table, handled) && (ok ==> id in handled)
    ensures CompletedHandled(P.TakeResult(p, id, ok).table, handled)
    ensures CompletedHandled(P.ReclaimUnits(p, consumer).table, handled)
    ensures CompletedHandled(P.AddUnit(p).table, handled)
    ensures CompletedHandled(P.SendUnit(p, consumer).table, handled)
  {
    hide P.IdOf;
  }

  lemma StepCompletedHandled(w: World, s: Step)
    requires Enabled(w, s) && RepliesHonest(w) && CompletedHandled(w.producer.table, w.handled)
    ensures CompletedHandled(Apply(w, s).producer.table, Apply(w, s).handled)
  {
    hide Moved, Replied, P.TakeResult, P.ReclaimUnits, P.AddUnit, P.SendUnit;
    var p := w.producer;
    if s.TakeReply? {
      TableCompleted(p, w.handled, s.reply.id, s.reply.ok, "");
    } else if s.ReclaimFrom? {
      TableCompleted(p, w.handled, Id(""), false, s.consumer);
    } else if s.Generate? || s.Mark? {
      TableCompleted(p, w.handled, Id(""), false, w.phase.consumer);
    }
  }

  lemma StepConsistent(w: World, s: Step)
    requires Enabled(w, s) && P.Consistent(w.producer, w.phase.Added?)
    ensures P.Consistent(Apply(w, s).producer, Apply(w, s).phase.Added?)
  {
    hide Moved, Replied, P.Consistent, P.TakeResult, P.ReclaimUnits, P.AddUnit, P.SendUnit;
    var p := w.producer;
    match s
    case Generate(gives) =>
      if gives && w.phase.left > 0 {
        P.AddKeeps(p);
      }
    case Mark => P.SendKeeps(p, w.phase.consumer);
    case ReclaimFrom(c) => P.ReclaimKeeps(p, w.phase.Added?, c);
    case TakeReply(r) => P.ResultKeeps(p, w.phase.Added?, r.id, r.ok);
    case _ =>
  }

  lemma TableCompletions(p: P.State, completions: seq<int>, r: Reply, consumer: string)
    requires p.table.lastCompletedSeq == Last(completions) && CompletedListed(p.table, completions)
    ensures var t := P.TakeResult(p, r.id, r.ok).table;
      var now := completions + Completes(p.table, r);
      t.lastCompletedSeq == Last(now) && CompletedListed(t, now)
    ensures var t := P.ReclaimUnits(p, consumer).table;
      t.lastCompletedSeq == Last(completions) && CompletedListed(t, completions)
    ensures var t := P.AddUnit(p).table;
      t.lastCompletedSeq == Last(completions) && CompletedListed(t, completions)
    ensures var t := P.SendUnit(p, consumer).table;
      t.lastCompletedSeq == Last(completions) && CompletedListed(t, completions)
  {
    hide P.IdOf;
    var now := completions + Completes(p.table, r);
    assert forall n :: n in completions ==> n in now;
    assert r.ok && r.id in p.table.entries ==> now[|now| - 1] in now;
  }

  /** A known id carries a number already used, or the one being added. */
  lemma KnownNumber(p: P.State, adding: bool, id: Id)
    requires P.Consistent(p, adding) && id in p.table.entries
    ensures p.start <= p.table.entries[id].seqNo < p.nextSeq + P.Extra(adding)
  {
    hide P.IdOf, P.Ids, Done;
    P.InIds(p.producerId, p.start, p.nextSeq + P.Extra(adding), p.table.entries[id].seqNo);
  }

  lemma WithinMore(completions: seq<int>, more: seq<int>, low: int, high: int, higher: int)
    requires Within(completions, low, high) && Within(more, low, high) && high <= higher
    ensures Within(completions + more, low, higher) && Within(completions, low, higher)
  {
  }

  lemma StepCompletions(w: World, s: Step)
    requires Enabled(w, s) && P.Consistent(w.producer, w.phase.Added?) && CompletionsKnown(w)
    ensures CompletionsKnown(Apply(w, s))
  {
    hide Moved, Replied, P.Consistent, P.TakeResult, P.ReclaimUnits, CompletedListed, Within, Last;
    var p, high := w.producer, w.producer.nextSeq + P.Extra(w.phase.Added?);
    NoneWithin(p.start, high);
    WithinMore(w.completions, [], p.start, high, high + 1);
    if s.TakeReply? {
      TableCompletions(p, w.completions, s.reply, "");
      CompletesWithin(p, w.phase.Added?, s.reply);
      WithinMore(w.completions, Completes(p.table, s.reply), p.start, high, high);
      ResultFrame(p, s.reply.id, s.reply.ok);
    } else if s.ReclaimFrom? {
      TableCompletions(p, w.completions, Reply(Id(""), false), s.consumer);
      ReclaimFrame(p, s.consumer);
    } else if s.Generate? || s.Mark? {
      TableCompletions(p, w.completions, Reply(Id(""), false), w.phase.consumer);
    }
  }

  lemma NoneWithin(low: int, high: int)
    ensures Within([], low, high)
  {
  }

  lemma CompletesWithin(p: P.State, adding: bool, r: Reply)
    requires P.Consistent(p, adding)
    ensures Within(Completes(p.table, r), p.start, p.nextSeq + P.Extra(adding))
  {
    hide P.Consistent;
    if r.id in p.table.entries {
      KnownNumber(p, adding, r.id);
    }
  }

  lemma ResultFrame(p: P.State, id: Id, ok: bool)
    ensures P.TakeResult(p, id, ok).start == p.start && P.TakeResult(p, id, ok).nextSeq == p.nextSeq
  {
  }

  lemma ReclaimFrame(p: P.State, consumer: string)
    ensures P.ReclaimUnits(p, consumer).start == p.start && P.ReclaimUnits(p, consumer).nextSeq == p.nextSeq
  {
  }

  lemma StepSentInOrder(w: World, s: Step)
    requires Enabled(w, s) && SentInOrder(w) && w.producer.start <= w.producer.nextSeq
    requires w.phase.Marked? ==> w.producer.start < w.producer.nextSeq
    ensures SentInOrder(Apply(w, s))
    ensures Apply(w, s).phase.Marked? ==> Apply(w, s).producer.start < Apply(w, s).producer.nextSeq
    ensures w.sent <= Apply(w, s).sent && |Apply(w, s).sent| <= |w.sent| + 1
  {
    hide Moved, Replied;
  }

  lemma StepKeepsInvariant(w: World, s: Step)
    requires Invariant(w) && Enabled(w, s)
    ensures Invariant(Apply(w, s))
  {
    hide Apply, Enabled, SentInOrder, ConsumersHonest, RepliesHonest, CompletedHandled, CompletionsKnown;
    StepConsistent(w, s);
    StepSentInOrder(w, s);
    StepConsumersHonest(w, s);
    StepRepliesHonest(w, s);
    StepCompletedHandled(w, s);
    StepCompletions(w, s);
  }

  lemma {:induction false} RunKeepsInvariant(w: World, steps: seq<Step>, v: World)
    requires Invariant(w) && IsRun(w, steps, v)
    ensures Invariant(v) && w.sent <= v.sent
    decreases |steps|
  {
    hide Apply, Enabled, Invariant;
    if steps != [] {
      StepKeepsInvariant(w, steps[0]);
      assert w.sent <= Apply(w, steps[0]).sent by {
        InvariantParts(w);
        StepSentInOrder(w, steps[0]);
      }
      RunKeepsInvariant(Apply(w, steps[0]), steps[1..], v);
    }
  }

  lemma StepKeepsIdentity(w: World, s: Step)
    requires Enabled(w, s)
    ensures Apply(w, s).producer.producerId == w.producer.producerId && Apply(w, s).producer.start == w.producer.start
  {
    hide Moved, Replied;
  }

  lemma {:induction false} RunKeepsIdentity(w: World, steps: seq<Step>, v: World)
    requires IsRun(w, steps, v)
    ensures v.producer.producerId == w.producer.producerId && v.producer.start == w.producer.start
    decreases |steps|
  {
    hide Apply, Enabled;
    if steps != [] {
      StepKeepsIdentity(w, steps[0]);
      RunKeepsIdentity(Apply(w, steps[0]), steps[1..], v);
    }
  }

  lemma InvariantParts(w: World)
    requires Invariant(w)
    ensures SentInOrder(w) && w.producer.start <= w.producer.nextSeq
    ensures w.phase.Marked? ==> w.producer.start < w.producer.nextSeq
  {
  }

  /** In every run, whatever is lost, repeated, late, evicted, restarted or reclaimed: a unit that is completed in
      the tracker had a consumer's handler return success for its id. */
  lemma CompletedMeansHandled(producerId: string, start: int, steps: seq<Step>, w: World, id: Id)
    requires IsRun(Begin(producerId, start), steps, w)
    requires id in w.producer.table.entries && w.producer.table.entries[id].status.Completed?
    ensures id in w.handled
  {
    hide IsRun, P.Consistent, SentInOrder, ConsumersHonest, RepliesHonest;
    BeginInvariant(producerId, start);
    RunKeepsInvariant(Begin(producerId, start), steps, w);
  }

  /** In every run, between messages: one entry for every number from the start below next_seq_, as many as were
      generated and dispatched, all open or completed, the pending ones without an owner. */
  lemma CountersInEveryRun(producerId: string, start: int, steps: seq<Step>, w: World)
    requires IsRun(Begin(producerId, start), steps, w) && !w.phase.Added?
    ensures w.producer.producerId == producerId && w.producer.start == start
    ensures var p := w.producer;
      && (forall n :: P.IdOf(p.producerId, n) in p.table.entries <==> p.start <= n < p.nextSeq)
      && |p.table.entries| == p.generated == p.dispatched == p.nextSeq - p.start
      && |Open(p.table)| + |Done(p.table)| == p.dispatched
      && |Done(p.table)| <= p.table.completedCount
      && P.PendingUnowned(p.table)
  {
    hide IsRun, P.Counted, P.Numbered, P.IdOf, Open, Done, SentInOrder, ConsumersHonest, RepliesHonest, CompletedHandled;
    BeginInvariant(producerId, start);
    RunKeepsInvariant(Begin(producerId, start), steps, w);
    RunKeepsIdentity(Begin(producerId, start), steps, w);
    P.TableMatchesCounters(w.producer);
  }

  /** Whatever is reclaimed or fails, no unit that was sent once is ever sent again: later messages carry higher
      numbers than all earlier ones. */
  lemma NeverSentAgain(producerId: string, start: int, steps: seq<Step>, w: World, more: seq<Step>, v: World,
                       i: nat, j: nat)
    requires IsRun(Begin(producerId, start), steps, w) && IsRun(w, more, v)
    requires i < |w.sent| <= j < |v.sent|
    ensures v.sent[i] == w.sent[i] < v.sent[j]
    ensures P.IdOf(producerId, v.sent[j]) != P.IdOf(producerId, w.sent[i])
  {
    hide IsRun, P.IdOf, P.Consistent, ConsumersHonest, RepliesHonest, CompletedHandled;
    BeginInvariant(producerId, start);
    RunKeepsInvariant(Begin(producerId, start), steps, w);
    RunKeepsInvariant(w, more, v);
    if P.IdOf(producerId, v.sent[j]) == P.IdOf(producerId, w.sent[i]) {
      P.IdOfInjective(producerId, v.sent[j], w.sent[i]);
    }
  }

  /** In every run the tracker's last completed number is that of the last completion, -1 before the first; only
      numbers used are completed, and every unit Completed in the tracker is among the completions. */
  lemma CompletionsInEveryRun(producerId: string, start: int, steps: seq<Step>, w: World)
    requires IsRun(Begin(producerId, start), steps, w)
    ensures w.producer.table.lastCompletedSeq == Last(w.completions)
    ensures forall n :: n in w.completions ==> start <= n
    ensures !w.phase.Added? ==> forall n :: n in w.completions ==> n < w.producer.nextSeq
    ensures forall id :: id in w.producer.table.entries && w.producer.table.entries[id].status.Completed? ==>
              w.producer.table.entries[id].seqNo in w.completions
    ensures forall n :: n in w.sent ==> start <= n
  {
    hide IsRun, P.Consistent, ConsumersHonest, RepliesHonest, CompletedHandled;
    BeginInvariant(producerId, start);
    RunKeepsInvariant(Begin(producerId, start), steps, w);
    RunKeepsIdentity(Begin(producerId, start), steps, w);
  }

  // ---- runs put together ----

  /** A step of a consumer, told by what it does. */
  lemma ConsumerEffect(w: World, s: Step, after: Consumer, sent: set<Reply>)
    requires Enabled(w, s) && OfConsumer(s) && Moved(w, s, w.consumers[s.consumer]) == after && Replied(w, s) == sent
    ensures Apply(w, s)
         == w.(consumers := w.consumers[s.consumer := after], replies := w.replies + sent,
               handled := w.handled + if s.Handle? && s.ok then {s.id} else {})
  {
    hide Enabled, Moved, Replied;
  }

  lemma OneStep(w: World, s: Step)
    requires Enabled(w, s)
    ensures IsRun(w, [s], Apply(w, s))
  {
    hide Apply, Enabled;
    assert [s][1..] == [];
  }

  lemma {:induction false} RunAppends(w: World, first: seq<Step>, v: World, second: seq<Step>, u: World)
    requires IsRun(w, first, v) && IsRun(v, second, u)
    ensures IsRun(w, first + second, u)
    decreases |first|
  {
    hide Apply, Enabled;
    if first == [] {
      assert first + second == second;
    } else {
      RunAppends(Apply(w, first[0]), first[1..], v, second, u);
      assert (first + second)[1..] == first[1..] + second;
    }
  }

  // ---- a request without interruption ----

  /** The steps of k passes of the dispatch loop. */
  function Rounds(k: nat): seq<Step> {
    if k == 0 then [] else Rounds(k - 1) + [Generate(true), Mark, Send(false)]
  }

  /** The numbers sent in k passes. */
  function NumbersFrom(n: int, k: nat): (r: seq<int>)
    ensures |r| == k
  {
    seq(k, i => n + i)
  }

  /** The world with the handler at its loop, k passes on. */
  ghost function InLoop(w: World, consumer: string, left: int, k: nat): World {
    w.(producer := P.Dispatch(w.producer, consumer, k), sent := w.sent + NumbersFrom(w.producer.nextSeq, k),
       phase := Looping(consumer, left))
  }

  /** The effect of the three steps of a pass. */
  lemma PassSteps(w: World)
    ensures w.phase.Looping? && w.phase.left > 0 ==>
      Enabled(w, Generate(true))
      && Apply(w, Generate(true))
         == w.(producer := P.AddUnit(w.producer), phase := Added(w.phase.consumer, w.phase.left))
    ensures w.phase.Added? ==>
      Enabled(w, Mark)
      && Apply(w, Mark)
         == w.(producer := P.SendUnit(w.producer, w.phase.consumer), phase := Marked(w.phase.consumer, w.phase.left))
    ensures w.phase.Marked? ==>
      Enabled(w, Send(false)) && Enabled(w, Send(true)) && Apply(w, Send(true)) == w.(phase := Ready)
      && Apply(w, Send(false))
         == w.(sent := w.sent + [w.producer.nextSeq - 1], phase := Looping(w.phase.consumer, w.phase.left - 1))
  {
    hide P.AddUnit, P.SendUnit;
  }

  lemma OneRound(w: World, left: int)
    requires w.phase.Looping? && w.phase.left == left > 0
    ensures var p := P.SendUnit(P.AddUnit(w.producer), w.phase.consumer);
      && IsRun(w, [Generate(true), Mark, Send(false)],
               w.(producer := p, sent := w.sent + [p.nextSeq - 1], phase := Looping(w.phase.consumer, left - 1)))
      && IsRun(w, [Generate(true), Mark, Send(true)], w.(producer := p, phase := Ready))
  {
    hide P.AddUnit, P.SendUnit, Apply, Enabled, IsRun;
    PassSteps(w);
    var a := Apply(w, Generate(true));
    PassSteps(a);
    var b := Apply(a, Mark);
    PassSteps(b);
    RunOfThree(w, Generate(true), Mark, Send(false));
    RunOfThree(w, Generate(true), Mark, Send(true));
  }

  lemma RunOfThree(w: World, x: Step, y: Step, z: Step)
    requires Enabled(w, x) && Enabled(Apply(w, x), y) && Enabled(Apply(Apply(w, x), y), z)
    ensures IsRun(w, [x, y, z], Apply(Apply(Apply(w, x), y), z))
  {
    hide Apply, Enabled;
    var a := Apply(w, x);
    var b := Apply(a, y);
    var c := Apply(b, z);
    assert [x, y, z][1..] == [y, z] && [y, z][1..] == [z] && [z][1..] == [];
    assert IsRun(b, [z], c);
    assert IsRun(a, [y, z], c);
  }

  lemma {:induction false} RoundsDispatch(w: World, consumer: string, threads: int, k: nat)
    requires w.phase == Looping(consumer, threads) && (k == 0 || k <= threads)
    ensures IsRun(w, Rounds(k), InLoop(w, consumer, threads - k, k))
  {
    hide P.AddUnit, P.SendUnit, Apply, Enabled;
    if k == 0 {
      assert w.sent + NumbersFrom(w.producer.nextSeq, 0) == w.sent;
    } else {
      RoundsDispatch(w, consumer, threads, k - 1);
      var v := InLoop(w, consumer, threads - k + 1, k - 1);
      OneRound(v, threads - k + 1);
      DispatchEnds(w.producer, consumer, k - 1);
      assert w.sent + NumbersFrom(w.producer.nextSeq, k - 1) + [w.producer.nextSeq + k - 1]
          == w.sent + NumbersFrom(w.producer.nextSeq, k);
      RunAppends(w, Rounds(k - 1), v, [Generate(true), Mark, Send(false)], InLoop(w, consumer, threads - k, k));
    }
  }

  lemma {:induction false} DispatchEnds(p: P.State, consumer: string, k: nat)
    ensures P.Dispatch(p, consumer, k + 1) == P.SendUnit(P.AddUnit(P.Dispatch(p, consumer, k)), consumer)
    ensures P.Dispatch(p, consumer, k + 1).nextSeq == p.nextSeq + k + 1
  {
    P.DispatchNumber(p, consumer, k);
    if k > 0 {
      DispatchEnds(p, consumer, k - 1);
    }
  }

  /** The handler's loop, when nothing comes between its steps, is a run of the protocol that ends in the state
      Dispatch gives: after k units, with one more whose send throws, or without.  A request for no threads, or for
      fewer than none, is answered with nothing. */
  lemma RequestIsRun(w: World, consumer: string, threads: int, k: nat, fails: bool)
    requires w.phase.Ready? && ((k == 0 && !fails) || k + (if fails then 1 else 0) <= threads)
    ensures var dispatched := P.Dispatch(w.producer, consumer, if fails then k + 1 else k);
      var steps := [Request(consumer, threads)] + Rounds(k)
                 + if fails then [Generate(true), Mark, Send(true)] else [Generate(false)];
      IsRun(w, steps, w.(producer := dispatched, sent := w.sent + NumbersFrom(w.producer.nextSeq, k)))
  {
    hide Apply, Enabled, P.AddUnit, P.SendUnit, P.Dispatch;
    var v := w.(phase := Looping(consumer, threads));
    RequestStarts(w, consumer, threads);
    RoundsDispatch(v, consumer, threads, k);
    RunAppends(w, [Request(consumer, threads)], v, Rounds(k), InLoop(v, consumer, threads - k, k));
    var u := InLoop(v, consumer, threads - k, k);
    if fails {
      OneRound(u, threads - k);
      DispatchEnds(w.producer, consumer, k);
      RunAppends(w, [Request(consumer, threads)] + Rounds(k), u, [Generate(true), Mark, Send(true)],
                 u.(producer := P.Dispatch(w.producer, consumer, k + 1), phase := Ready));
      assert u.(producer := P.Dispatch(w.producer, consumer, k + 1), phase := Ready)
          == w.(producer := P.Dispatch(w.producer, consumer, k + 1), sent := w.sent + NumbersFrom(w.producer.nextSeq, k));
    } else {
      LoopEnds(u);
      RunAppends(w, [Request(consumer, threads)] + Rounds(k), u, [Generate(false)], u.(phase := Ready));
      assert u.(phase := Ready)
          == w.(producer := P.Dispatch(w.producer, consumer, k), sent := w.sent + NumbersFrom(w.producer.nextSeq, k));
    }
  }

  lemma RequestStarts(w: World, consumer: string, threads: int)
    requires w.phase.Ready?
    ensures IsRun(w, [Request(consumer, threads)], w.(phase := Looping(consumer, threads)))
  {
    assert [Request(consumer, threads)][1..] == [];
  }

  lemma LoopEnds(w: World)
    requires w.phase.Looping?
    ensures IsRun(w, [Generate(false)], w.(phase := Ready))
  {
    assert [Generate(false)][1..] == [];
  }

  // ---- what a result, a duplicate and a reclaim do to a unit ----

  /** A failed result makes a known unit wait again, a success completes it; nothing else about the world changes. */
  lemma ResultTaken(w: World, r: Reply)
    requires r in w.replies && r.id in w.producer.table.entries
    ensures var v := Apply(w, TakeReply(r));
      && (r.ok ==> r.id in Done(v.producer.table))
      && (!r.ok ==> r.id in Waiting(v.producer.table) && v.completions == w.completions)
      && v.sent == w.sent && v.replies == w.replies && v.consumers == w.consumers && v.handled == w.handled
  {
  }

  /** A reclaim makes wait exactly the units sent to the consumer. */
  lemma Reclaimed(w: World, c: string)
    ensures var t, v := w.producer.table, Apply(w, ReclaimFrom(c));
      && Waiting(v.producer.table) == Waiting(t) + ReclaimedIds(t, c) && ReclaimedIds(v.producer.table, c) == {}
      && v == w.(producer := v.producer)
  {
    hide Waiting, ReclaimedIds;
    ReclaimReturnsAll(w.producer.table, c);
  }

  /** A unit that comes again while its id is cached is not handled again: the consumer keeps as it is, and the answer
      it sends at once completes the unit when it arrives. */
  lemma DuplicateCompletes(w: World, c: string, n: int)
    requires Invariant(w) && c in w.consumers && n in w.sent
    requires UnitId(w, n) in Cached(w.consumers[c].marks, MAX_COMPLETED_IDS)
    requires UnitId(w, n) in w.producer.table.entries
    ensures Enabled(w, Receive(c, n))
    ensures var id, v := UnitId(w, n), Apply(w, Receive(c, n));
      && v.consumers == w.consumers && v.handled == w.handled && v.producer == w.producer
      && Enabled(v, TakeReply(Reply(id, true)))
      && id in Done(Apply(v, TakeReply(Reply(id, true))).producer.table) && id in w.handled
  {
    hide Cached, UnitId, Done, Apply, Enabled, Moved, Replied, Invariant;
    var id, s := UnitId(w, n), Receive(c, n);
    ReceivesCached(w, c, n);
    ConsumerEffect(w, s, w.consumers[c], {Reply(id, true)});
    assert w.consumers[c := w.consumers[c]] == w.consumers && w.handled + {} == w.handled;
    MayTake(Apply(w, s), Reply(id, true));
    ResultTaken(Apply(w, s), Reply(id, true));
    CachedIsHandled(w, c, id);
  }

  lemma ReceivesCached(w: World, c: string, n: int)
    requires c in w.consumers && n in w.sent && UnitId(w, n) in Cached(w.consumers[c].marks, MAX_COMPLETED_IDS)
    ensures Enabled(w, Receive(c, n)) && Moved(w, Receive(c, n), w.consumers[c]) == w.consumers[c]
    ensures Replied(w, Receive(c, n)) == {Reply(UnitId(w, n), true)}
  {
    hide Cached, UnitId;
  }

  lemma MayTake(w: World, r: Reply)
    requires r in w.replies
    ensures Enabled(w, TakeReply(r))
  {
  }

  lemma CachedIsHandled(w: World, c: string, id: Id)
    requires Invariant(w) && c in w.consumers && id in Cached(w.consumers[c].marks, MAX_COMPLETED_IDS)
    ensures id in w.handled
  {
    hide SentInOrder, CompletedHandled, CompletionsKnown, P.Consistent, RepliesHonest;
    CachedIff(w.consumers[c].marks, id, MAX_COMPLETED_IDS);
    assert ConsumerHonest(w.consumers[c], w.handled);
  }

  /** A result lost on its way, a push after shutdown and a send that throws put nothing on the wire and into no pool. */
  lemma LostLeavesNothing(w: World, s: Step)
    requires Enabled(w, s) && ((s.SendReply? && !s.arrives) || (s.Submit? && !s.stored) || (s.Send? && s.thrown))
    ensures var v := Apply(w, s);
      && v.replies == w.replies && v.sent == w.sent && v.handled == w.handled && v.producer == w.producer
      && (s.Send? ==> v.consumers == w.consumers && v.phase.Ready?)
      && (OfConsumer(s) ==> v.consumers[s.consumer].pool == w.consumers[s.consumer].pool)
  {
    hide Cached, UnitId;
  }

  /** A unit that is not cached goes to be submitted, and nothing is answered. */
  lemma NewUnitIsKept(w: World, c: string, n: int)
    requires c in w.consumers && n in w.sent
    requires UnitId(w, n) !in Cached(w.consumers[c].marks, MAX_COMPLETED_IDS)
    ensures Enabled(w, Receive(c, n))
    ensures var id, k := UnitId(w, n), w.consumers[c];
      Apply(w, Receive(c, n)) == w.(consumers := w.consumers[c := k.(checked := k.checked + multiset{id})])
  {
    hide Cached, UnitId;
    var id, k := UnitId(w, n), w.consumers[c];
    ConsumerEffect(w, Receive(c, n), k.(checked := k.checked + multiset{id}), {});
    assert w.replies + {} == w.replies && w.handled + {} == w.handled;
  }
}
