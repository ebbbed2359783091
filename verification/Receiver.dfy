/** The consumer's receiver loop and result callback as methods on its fields, proved to make the consumer's steps
    of the protocol. */
module Receiver {
  import opened CompletedIds
  import opened Protocol
  import opened Wrappers

  lemma SubmitMoves(w: World, s: Step, c: Consumer)
    requires s.Submit? && s.consumer in w.consumers && w.consumers[s.consumer] == c && s.id in c.checked
    ensures Enabled(w, s)
    ensures Moved(w, s, c) == c.(checked := c.checked - multiset{s.id},
                                 pool := if s.stored then c.pool + multiset{s.id} else c.pool)
  {
    hide Cached;
  }

  lemma CallbackMoves(w: World, s: Step, c: Consumer)
    requires s.Callback? && Enabled(w, s) && w.consumers[s.consumer] == c
    ensures Moved(w, s, c) == c.(verdicts := c.verdicts - multiset{s.reply}, marked := c.marked + multiset{s.reply},
                                 marks := if s.reply.ok then c.marks + [s.reply.id] else c.marks)
  {
    hide Cached;
  }

  class Receiver {
    const cache: CompletedCache
    var checked: Option<Id>
    var pool: seq<Id>
    ghost var verdicts: multiset<Reply>
    ghost var marked: multiset<Reply>

    ghost predicate Valid()
      reads this, cache
    {
      cache.Valid()
    }

    /** The consumer as the protocol sees it. */
    ghost function View(): Consumer
      reads this, cache
    {
      Consumer(cache.history, if checked.Some? then multiset{checked.value} else multiset{}, multiset(pool), verdicts,
               marked)
    }

    constructor ()
      ensures Valid() && fresh(cache)
      ensures View() == NEWCOMER
    {
      cache := new CompletedCache();
      checked, pool, verdicts, marked := None, [], multiset{}, multiset{};
    }

    /** A work unit arrives and the cache is asked, under its own lock: a cached id is answered at once, any other is
        about to be submitted. */
    method CheckUnit(id: Id, ghost w: World, ghost s: Step) returns (duplicate: Option<Reply>)
      requires Valid() && Enabled(w, s) && s.Receive? && w.consumers[s.consumer] == View()
      requires id == UnitId(w, s.number) && checked.None?
      modifies this`checked
      ensures Valid() && View() == Moved(w, s, old(View()))
      ensures Replied(w, s) == if duplicate.Some? then {duplicate.value} else {}
      ensures checked == if duplicate.Some? then None else Some(id)
    {
      hide Cached;
      CachedIff(cache.history, id, MAX_COMPLETED_IDS);
      var completed := cache.IsCompleted(id);
      if completed {
        return Some(Reply(id, true));
      }
      checked := Some(id);
      duplicate := None;
    }

    /** The checked unit is pushed, under the queue's lock, whatever was marked since; after shutdown it is dropped. */
    method SubmitUnit(closed: bool, ghost w: World, ghost s: Step)
      requires Valid() && checked.Some? && s.Submit? && s.id == checked.value && s.stored == !closed
      requires s.consumer in w.consumers && w.consumers[s.consumer] == View()
      modifies this`checked, this`pool
      ensures Valid() && Enabled(w, s) && View() == Moved(w, s, old(View()))
      ensures checked.None?
    {
      hide Enabled, Moved;
      SubmitMoves(w, s, View());
      if !closed {
        pool := pool + [checked.value];
      }
      checked := None;
    }

    /** The pool reports a verdict: only a success is marked. */
    method OnResult(result: Reply, ghost w: World, ghost s: Step)
      requires Valid() && s.Callback? && s.reply == result && Enabled(w, s) && w.consumers[s.consumer] == View()
      modifies this`verdicts, this`marked, cache
      ensures Valid() && View() == Moved(w, s, old(View()))
    {
      hide Enabled, Moved;
      CallbackMoves(w, s, View());
      if result.ok {
        cache.MarkCompleted(result.id);
      }
      verdicts := verdicts - multiset{result};
      marked := marked + multiset{result};
    }
  }
}
