/** Producer sessions one after the other: each starts numbering one above the last completed number of the checkpoint
    it finds.  When can a session send a number that an earlier one has completed? */
module Sessions {
  import opened CompletedIds
  import opened WorkTracker
  import opened Protocol
  import P = Producer

  // ---- what a session can complete ----

  lemma SentIsKnown(w: World, n: int)
    requires Invariant(w) && n in w.sent
    ensures UnitId(w, n) in w.producer.table.entries && w.producer.table.entries[UnitId(w, n)].seqNo == n
  {
    hide P.IdOf, P.Ids, Done, ConsumersHonest, RepliesHonest, CompletedHandled, CompletionsKnown, P.PendingUnowned;
    var p, id := w.producer, UnitId(w, n);
    P.InIds(p.producerId, p.start, p.nextSeq + P.Extra(w.phase.Added?), n);
    P.IdOfInjective(p.producerId, n, p.table.entries[id].seqNo);
  }

  /** The world with consumer c as given. */
  function With(w: World, c: string, k: Consumer): World {
    w.(consumers := w.consumers[c := k])
  }

  lemma Joins(w: World, c: string)
    ensures IsRun(w, [Join(c)], With(w, c, NEWCOMER))
  {
    OneStep(w, Join(c));
  }

  /** A step of consumer c, told by what it does to it. */
  lemma ConsumerMove(w: World, c: string, k: Consumer, s: Step, after: Consumer, sent: set<Reply>)
    requires Enabled(With(w, c, k), s) && OfConsumer(s) && s.consumer == c
    requires Moved(With(w, c, k), s, k) == after && Replied(With(w, c, k), s) == sent
    ensures IsRun(With(w, c, k), [s],
                  With(w, c, after).(replies := w.replies + sent,
                                     handled := w.handled + if s.Handle? && s.ok then {s.id} else {}))
    ensures w.replies + {} == w.replies && w.handled + {} == w.handled
  {
    hide Enabled, Apply, Moved, Replied, IsRun;
    ConsumerEffect(With(w, c, k), s, after, sent);
    OneStep(With(w, c, k), s);
    assert w.consumers[c := k][c := after] == w.consumers[c := after];
  }

  lemma NothingCached()
    ensures Cached([], MAX_COMPLETED_IDS) == []
  {
  }

  lemma OnlyOne<T>(x: T)
    ensures multiset{x} - multiset{x} == multiset{} && multiset{} + multiset{x} == multiset{x}
  {
  }

  lemma Receives(w: World, c: string, n: int)
    requires n in w.sent
    ensures IsRun(With(w, c, NEWCOMER), [Receive(c, n)], With(w, c, NEWCOMER.(checked := multiset{UnitId(w, n)})))
  {
    hide UnitId, Cached, IsRun;
    NothingCached();
    OnlyOne(UnitId(w, n));
    assert UnitId(With(w, c, NEWCOMER), n) == UnitId(w, n) by { SameIds(w, c, n); }
    ConsumerMove(w, c, NEWCOMER, Receive(c, n), NEWCOMER.(checked := multiset{UnitId(w, n)}), {});
  }

  lemma SameIds(w: World, c: string, n: int)
    ensures UnitId(With(w, c, NEWCOMER), n) == UnitId(w, n)
  {
  }

  lemma Submits(w: World, c: string, id: Id)
    ensures IsRun(With(w, c, NEWCOMER.(checked := multiset{id})), [Submit(c, id, true)],
                  With(w, c, NEWCOMER.(pool := multiset{id})))
  {
    hide Cached, IsRun;
    OnlyOne(id);
    ConsumerMove(w, c, NEWCOMER.(checked := multiset{id}), Submit(c, id, true), NEWCOMER.(pool := multiset{id}), {});
  }

  lemma Handles(w: World, c: string, id: Id)
    ensures IsRun(With(w, c, NEWCOMER.(pool := multiset{id})), [Handle(c, id, true)],
                  With(w, c, NEWCOMER.(verdicts := multiset{Reply(id, true)})).(handled := w.handled + {id}))
  {
    hide Cached, IsRun;
    OnlyOne(id);
    OnlyOne(Reply(id, true));
    ConsumerMove(w, c, NEWCOMER.(pool := multiset{id}), Handle(c, id, true),
                 NEWCOMER.(verdicts := multiset{Reply(id, true)}), {});
  }

  lemma CallsBack(w: World, c: string, r: Reply)
    requires r.ok
    ensures IsRun(With(w, c, NEWCOMER.(verdicts := multiset{r})), [Callback(c, r)],
                  With(w, c, NEWCOMER.(marks := [r.id], marked := multiset{r})))
  {
    hide Cached, IsRun;
    OnlyOne(r);
    assert [] + [r.id] == [r.id];
    ConsumerMove(w, c, NEWCOMER.(verdicts := multiset{r}), Callback(c, r),
                 NEWCOMER.(marks := [r.id], marked := multiset{r}), {});
  }

  lemma Reports(w: World, c: string, r: Reply)
    ensures IsRun(With(w, c, NEWCOMER.(marks := [r.id], marked := multiset{r})), [SendReply(c, r, true)],
                  With(w, c, NEWCOMER.(marks := [r.id])).(replies := w.replies + {r}))
  {
    hide Cached, IsRun;
    OnlyOne(r);
    ConsumerMove(w, c, NEWCOMER.(marks := [r.id], marked := multiset{r}), SendReply(c, r, true),
                 NEWCOMER.(marks := [r.id]), {r});
  }

  lemma Takes(w: World, r: Reply)
    requires r in w.replies
    ensures IsRun(w, [TakeReply(r)], w.(producer := P.TakeResult(w.producer, r.id, r.ok),
                                        completions := w.completions + Completes(w.producer.table, r)))
  {
    hide P.TakeResult, Completes;
    OneStep(w, TakeReply(r));
  }

  /** The world when a new consumer c has handled and reported unit n, and the result has been taken. */
  ghost function Completed(w: World, c: string, n: int): World {
    var id := UnitId(w, n);
    With(w, c, NEWCOMER.(marks := [id])).(
      replies := w.replies + {Reply(id, true)},
      handled := w.handled + {id},
      producer := P.TakeResult(w.producer, id, true),
      completions := w.completions + Completes(w.producer.table, Reply(id, true)))
  }

  function CompletingSteps(w: World, c: string, n: int): seq<Step> {
    var id := UnitId(w, n);
    [Join(c)] + [Receive(c, n)] + [Submit(c, id, true)] + [Handle(c, id, true)] + [Callback(c, Reply(id, true))]
    + [SendReply(c, Reply(id, true), true)] + [TakeReply(Reply(id, true))]
  }

  /** Any unit sent can be completed next. */
  lemma CompletesNext(w: World, c: string, n: int)
    requires n in w.sent
    ensures IsRun(w, CompletingSteps(w, c, n), Completed(w, c, n))
  {
    hide IsRun, UnitId, P.TakeResult, Completes;
    var id := UnitId(w, n);
    var r := Reply(id, true);
    var k := NEWCOMER;
    var a, b := With(w, c, k), With(w, c, k.(checked := multiset{id}));
    var d := With(w, c, k.(pool := multiset{id}));
    var h := w.(handled := w.handled + {id});
    var e, f := With(h, c, k.(verdicts := multiset{r})), With(h, c, k.(marks := [id], marked := multiset{r}));
    var g := With(h, c, k.(marks := [id])).(replies := w.replies + {r});
    Joins(w, c);
    Receives(w, c, n);
    Submits(w, c, id);
    Handles(w, c, id);
    CallsBack(h, c, r);
    Reports(h, c, r);
    Takes(g, r);
    var steps := [Join(c)];
    RunAppends(w, steps, a, [Receive(c, n)], b);
    steps := steps + [Receive(c, n)];
    RunAppends(w, steps, b, [Submit(c, id, true)], d);
    steps := steps + [Submit(c, id, true)];
    RunAppends(w, steps, d, [Handle(c, id, true)], e);
    steps := steps + [Handle(c, id, true)];
    RunAppends(w, steps, e, [Callback(c, r)], f);
    steps := steps + [Callback(c, r)];
    RunAppends(w, steps, f, [SendReply(c, r, true)], g);
    steps := steps + [SendReply(c, r, true)];
    RunAppends(w, steps, g, [TakeReply(r)], Completed(w, c, n));
  }

  lemma CompletedAdds(w: World, c: string, n: int)
    requires Invariant(w) && n in w.sent
    ensures var v := Completed(w, c, n);
      && v.completions == w.completions + [n] && v.sent == w.sent && v.phase == w.phase && Invariant(v)
  {
    hide P.IdOf, P.TakeResult, Invariant, IsRun, UnitId, CompletingSteps;
    SentIsKnown(w, n);
    CompletesNext(w, c, n);
    RunKeepsInvariant(w, CompletingSteps(w, c, n), Completed(w, c, n));
  }

  /** In any order, and repeatedly. */
  lemma {:induction false} CompletesInOrder(w: World, ns: seq<int>) returns (steps: seq<Step>, v: World)
    requires Invariant(w) && forall n :: n in ns ==> n in w.sent
    ensures IsRun(w, steps, v) && v.completions == w.completions + ns && v.sent == w.sent && v.phase == w.phase
    decreases |ns|
  {
    hide IsRun, Invariant, Completed, CompletingSteps;
    if ns == [] {
      steps, v := [], w;
      NoSteps(w);
    } else {
      var c := "c";
      CompletedAdds(w, c, ns[0]);
      CompletesNext(w, c, ns[0]);
      var u := Completed(w, c, ns[0]);
      var rest;
      rest, v := CompletesInOrder(u, ns[1..]);
      steps := CompletingSteps(w, c, ns[0]) + rest;
      RunAppends(w, CompletingSteps(w, c, ns[0]), u, rest, v);
      assert w.completions + [ns[0]] + ns[1..] == w.completions + ns;
    }
  }

  lemma NoSteps(w: World)
    ensures IsRun(w, [], w)
  {
  }

  /** A session that sends k units can complete them in any order. */
  lemma AnyCompletions(producerId: string, start: int, k: nat, ns: seq<int>) returns (steps: seq<Step>, v: World)
    requires forall n :: n in ns ==> start <= n < start + k
    ensures IsRun(Begin(producerId, start), steps, v)
    ensures v.completions == ns && v.sent == NumbersFrom(start, k) && v.phase.Ready?
  {
    hide IsRun, Invariant, P.Dispatch;
    var w := Begin(producerId, start);
    BeginInvariant(producerId, start);
    RequestIsRun(w, "c", k, k, false);
    var u := w.(producer := P.Dispatch(w.producer, "c", k), sent := w.sent + NumbersFrom(start, k));
    var first := [Request("c", k)] + Rounds(k) + [Generate(false)];
    assert u.sent == NumbersFrom(start, k);
    RunKeepsInvariant(w, first, u);
    forall n | n in ns
      ensures n in u.sent
    {
      assert NumbersFrom(start, k)[n - start] == n;
    }
    var rest;
    rest, v := CompletesInOrder(u, ns);
    RunAppends(w, first, u, rest, v);
    steps := first + rest;
    assert [] + ns == ns;
  }

  // ---- one session after the other ----

  /** What a session finds: the number its checkpoint makes it start at, 0 without a checkpoint, and the numbers that
      earlier sessions have completed. */
  datatype Past = Past(next: int, completed: set<int>)

  /** A session: a run up to the state of its last checkpoint, if one was written, and from there to its end. */
  datatype Session = Session(producerId: string, steps: seq<Step>, saved: World, more: seq<Step>, end: World, written: bool)

  ghost predicate RunsFrom(s: Session, start: int) {
    IsRun(Begin(s.producerId, start), s.steps, s.saved) && IsRun(s.saved, s.more, s.end)
  }

  ghost function Numbers(completions: seq<int>): set<int> {
    set n | n in completions
  }

  ghost function After(p: Past, s: Session): Past {
    Past(if s.written then P.ResumeStart(s.saved.producer.table) else p.next, p.completed + Numbers(s.end.completions))
  }

  /** What the session after a list of sessions finds; the first finds nothing. */
  ghost function PastOf(sessions: seq<Session>): Past {
    if sessions == [] then Past(0, {}) else After(PastOf(sessions[..|sessions| - 1]), sessions[|sessions| - 1])
  }

  ghost predicate Succeed(sessions: seq<Session>) {
    sessions == []
    || (Succeed(sessions[..|sessions| - 1])
        && RunsFrom(sessions[|sessions| - 1], PastOf(sessions[..|sessions| - 1]).next))
  }

  /** A session from p that sends a number already completed. */
  ghost predicate Reuses(p: Past, producerId: string, steps: seq<Step>, v: World, n: int) {
    IsRun(Begin(producerId, p.next), steps, v) && n in v.sent && n in p.completed
  }

  ghost predicate CanReuse(p: Past) {
    exists producerId, steps, v, n :: Reuses(p, producerId, steps, v, n)
  }

  /** Every session sends only numbers from its start on, and can send each of them. */
  lemma CanReuseIff(p: Past)
    ensures CanReuse(p) <==> exists n :: n in p.completed && p.next <= n
  {
    hide IsRun, Begin;
    if CanReuse(p) {
      var producerId, steps, v, n :| Reuses(p, producerId, steps, v, n);
      CompletionsInEveryRun(producerId, p.next, steps, v);
      assert n in p.completed && p.next <= n;
    }
    if exists n :: n in p.completed && p.next <= n {
      var n :| n in p.completed && p.next <= n;
      var steps, v := AnyCompletions("p", p.next, n - p.next + 1, []);
      assert NumbersFrom(p.next, n - p.next + 1)[n - p.next] == n;
      assert Reuses(p, "p", steps, v, n);
    }
  }

  /** Numbers start at 0. */
  ghost predicate FromZero(p: Past) {
    p.next >= 0 && forall n :: n in p.completed ==> n >= 0
  }

  lemma SessionNumbers(p: Past, s: Session)
    requires RunsFrom(s, p.next)
    ensures s.saved.producer.table.lastCompletedSeq == Last(s.saved.completions)
    ensures forall n :: n in s.saved.completions ==> p.next <= n
    ensures forall n :: n in s.end.completions ==> p.next <= n
    ensures s.saved.completions != [] ==> Last(s.saved.completions) in s.saved.completions
    ensures forall n :: n in After(p, s).completed <==> n in p.completed || n in s.end.completions
  {
    hide IsRun, Begin;
    var done := s.saved.completions;
    assert done != [] ==> done[|done| - 1] in done;
    CompletionsInEveryRun(s.producerId, p.next, s.steps, s.saved);
    RunAppends(Begin(s.producerId, p.next), s.steps, s.saved, s.more, s.end);
    CompletionsInEveryRun(s.producerId, p.next, s.steps + s.more, s.end);
  }

  lemma {:induction false} PastFromZero(sessions: seq<Session>)
    requires Succeed(sessions)
    ensures FromZero(PastOf(sessions))
  {
    hide RunsFrom;
    if sessions != [] {
      var p, s := PastOf(sessions[..|sessions| - 1]), sessions[|sessions| - 1];
      PastFromZero(sessions[..|sessions| - 1]);
      SessionNumbers(p, s);
    }
  }

  lemma Member(s: set<int>) returns (n: int)
    requires s != {}
    ensures n in s
  {
    assert (forall m :: m !in s) ==> s == {};
    n :| n in s;
  }

  /** After a session that wrote its checkpoint, a completed number can be sent again if and only if the session had
      completed nothing by then and anything was ever completed, or a completed number is above its last one. */
  lemma ReuseAfterIff(p: Past, s: Session)
    requires FromZero(p) && RunsFrom(s, p.next) && s.written
    ensures var q, done := After(p, s), s.saved.completions;
      CanReuse(q) <==> if done == [] then q.completed != {} else exists n :: n in q.completed && Last(done) < n
  {
    hide RunsFrom, CanReuse;
    SessionNumbers(p, s);
    CanReuseIff(After(p, s));
    var q, done := After(p, s), s.saved.completions;
    if done == [] {
      assert q.next == 0;
      if q.completed != {} {
        var n := Member(q.completed);
        assert q.next <= n;
      }
    }
  }

  /** The session itself decides when nothing could be sent again before it: it is safe if and only if something was
      completed before the checkpoint, and nothing in it, before or after, above the last number of then. */
  lemma SafeAfterSafeIff(p: Past, s: Session)
    requires FromZero(p) && RunsFrom(s, p.next) && s.written && !CanReuse(p)
    ensures var q, done := After(p, s), s.saved.completions;
      !CanReuse(q) <==>
      if done == [] then q.completed == {} else forall n :: n in s.end.completions ==> n <= Last(done)
  {
    hide RunsFrom, CanReuse;
    SessionNumbers(p, s);
    CanReuseIff(p);
    ReuseAfterIff(p, s);
    var q, done := After(p, s), s.saved.completions;
    if done != [] {
      assert forall n :: n in p.completed ==> n < p.next <= Last(done);
    }
  }

  /** A session that ends without a checkpoint is safe after a safe past if and only if it completed nothing. */
  lemma UnwrittenSafeIff(p: Past, s: Session)
    requires RunsFrom(s, p.next) && !s.written && !CanReuse(p)
    ensures !CanReuse(After(p, s)) <==> s.end.completions == []
  {
    hide RunsFrom, CanReuse;
    SessionNumbers(p, s);
    CanReuseIff(p);
    CanReuseIff(After(p, s));
    var q := After(p, s);
    if s.end.completions != [] {
      assert s.end.completions[0] in s.end.completions;
      assert s.end.completions[0] in q.completed && q.next <= s.end.completions[0];
    } else {
      assert forall n :: n in q.completed ==> n in p.completed;
    }
  }

  /** Results arrive in number order, repetitions allowed, at least one arrives, and none after the checkpoint. */
  ghost predicate Orderly(s: Session) {
    var done := s.saved.completions;
    && s.written && done != [] && s.end.completions == done
    && forall i, j :: 0 <= i <= j < |done| ==> done[i] <= done[j]
  }

  /** As long as every session is orderly, no completed number can be sent again. */
  lemma {:induction false} OrderlySessionsNeverReuse(sessions: seq<Session>)
    requires Succeed(sessions) && forall i :: 0 <= i < |sessions| ==> Orderly(sessions[i])
    ensures !CanReuse(PastOf(sessions))
  {
    hide RunsFrom, CanReuse;
    if sessions == [] {
      CanReuseIff(PastOf([]));
    } else {
      var front, s := sessions[..|sessions| - 1], sessions[|sessions| - 1];
      OrderlySessionsNeverReuse(front);
      PastFromZero(front);
      SafeAfterSafeIff(PastOf(front), s);
      assert Orderly(s);
    }
  }

  // ---- the two ways to fail ----

  /** The session that starts at p.next, sends k units, completes ns and writes its checkpoint. */
  lemma SessionCompleting(p: Past, k: nat, ns: seq<int>) returns (s: Session)
    requires forall n :: n in ns ==> p.next <= n < p.next + k
    ensures RunsFrom(s, p.next) && s.written && s.saved.completions == s.end.completions == ns
    ensures s.end.sent == NumbersFrom(p.next, k)
  {
    hide IsRun, Begin;
    var steps, v := AnyCompletions("p", p.next, k, ns);
    NoSteps(v);
    s := Session("p", steps, v, [], v, true);
  }

  /** A result out of order: 1 completes before 0, and the next session starts at 1. */
  lemma OutOfOrderReuses() returns (s: Session)
    ensures Succeed([s]) && s.saved.completions == [1, 0]
    ensures PastOf([s]).next == 1 && CanReuse(PastOf([s]))
  {
    hide RunsFrom, CanReuse;
    s := SessionCompleting(Past(0, {}), 2, [1, 0]);
    OneSession(s);
    SessionNumbers(Past(0, {}), s);
    ReuseAfterIff(Past(0, {}), s);
    assert 1 in s.end.completions;
    assert 1 in After(Past(0, {}), s).completed;
  }

  lemma OneSession(s: Session)
    ensures PastOf([s]) == After(Past(0, {}), s)
    ensures Succeed([s]) <==> RunsFrom(s, 0)
  {
    hide RunsFrom;
    assert [s][..0] == [];
  }

  /** An idle session: the first completes 0 to 4 in order and is safe; the second starts at 5, sends a unit, completes
      nothing and writes its checkpoint; the third starts at 0 again. */
  lemma IdleSessionReuses() returns (s: Session, t: Session)
    ensures Succeed([s, t]) && Orderly(s) && !CanReuse(PastOf([s]))
    ensures s.end.completions == [0, 1, 2, 3, 4] && t.end.completions == [] && t.end.sent == [5]
    ensures PastOf([s, t]).next == 0 && CanReuse(PastOf([s, t]))
  {
    hide RunsFrom, CanReuse;
    s := SessionCompleting(Past(0, {}), 5, [0, 1, 2, 3, 4]);
    OneSession(s);
    SessionNumbers(Past(0, {}), s);
    assert forall i :: 0 <= i < 1 ==> Orderly([s][i]);
    OrderlySessionsNeverReuse([s]);
    var p := PastOf([s]);
    assert p.next == 5;
    t := SessionCompleting(p, 1, []);
    assert NumbersFrom(5, 1) == [5];
    assert [s, t][..1] == [s];
    PastFromZero([s]);
    SessionNumbers(p, t);
    ReuseAfterIff(p, t);
    assert 0 in s.end.completions;
    assert 0 in After(p, t).completed;
  }
}
