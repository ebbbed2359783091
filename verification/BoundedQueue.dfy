/** The bounded queue as a monitor: each operation is one region under its lock, entered when the wait
    condition holds. */
module BoundedQueue {
  import opened Wrappers

  datatype Queue<T> = Queue(items: seq<T>, capacity: nat, closed: bool) {
    /** The condition push waits for. */
    predicate CanPush() {
      |items| < capacity || closed
    }

    /** The condition pop waits for. */
    predicate CanPop() {
      items != [] || closed
    }

    /** A push after shutdown returns without storing the item. */
    function Pushed(x: T): Queue<T> {
      if closed then this else this.(items := items + [x])
    }

    function Popped(): Queue<T>
      requires items != []
    {
      this.(items := items[1..])
    }
  }

  class Monitor<T> {
    var buffer: seq<T>
    const capacity: nat
    var closed: bool
    ghost var accepted: seq<T>
    ghost var taken: seq<T>

    function View(): Queue<T>
      reads this
    {
      Queue(buffer, capacity, closed)
    }

    /** First in, first out, never above the capacity: what came in is what went out and then what waits. */
    ghost predicate Valid()
      reads this
    {
      accepted == taken + buffer && |buffer| <= capacity
    }

    constructor (capacity: nat)
      ensures Valid() && View() == Queue([], capacity, false) && accepted == [] && taken == []
    {
      this.capacity, buffer, closed, accepted, taken := capacity, [], false, [], [];
    }

    method Push(item: T)
      requires Valid() && View().CanPush()
      modifies this
      ensures Valid() && View() == old(View()).Pushed(item)
      ensures taken == old(taken) && accepted == old(accepted) + if old(closed) then [] else [item]
    {
      if closed {
        assert accepted + [] == accepted;
        return;
      }
      buffer := buffer + [item];
      accepted := accepted + [item];
    }

    /** None stands for the exception: the queue is shut down and empty. */
    method Pop() returns (item: Option<T>)
      requires Valid() && View().CanPop()
      modifies this
      ensures Valid() && accepted == old(accepted) && closed == old(closed)
      ensures item.None? <==> old(closed && buffer == [])
      ensures item.None? ==> View() == old(View()) && taken == old(taken)
      ensures item.Some? ==> View() == old(View()).Popped() && taken == old(taken) + [item.value]
    {
      if closed && buffer == [] {
        return None;
      }
      assert buffer == [buffer[0]] + buffer[1..];
      item := Some(buffer[0]);
      buffer := buffer[1..];
      taken := taken + [item.value];
    }

    /** Evaluated when the wait ends, be it with the condition or with the timeout. */
    method TryPush(item: T) returns (pushed: bool)
      requires Valid()
      modifies this
      ensures Valid() && pushed == (!old(closed) && |old(buffer)| < capacity)
      ensures View() == if pushed then old(View()).Pushed(item) else old(View())
      ensures taken == old(taken) && accepted == old(accepted) + if pushed then [item] else []
    {
      assert accepted + [] == accepted;
      if !(|buffer| < capacity || closed) {
        return false;
      }
      if closed {
        return false;
      }
      buffer := buffer + [item];
      accepted := accepted + [item];
      pushed := true;
    }

    method TryPop() returns (item: Option<T>)
      requires Valid()
      modifies this
      ensures Valid() && accepted == old(accepted) && closed == old(closed)
      ensures item.None? <==> old(buffer) == []
      ensures item.None? ==> View() == old(View()) && taken == old(taken)
      ensures item.Some? ==> View() == old(View()).Popped() && taken == old(taken) + [item.value]
    {
      if !(buffer != [] || closed) {
        return None;
      }
      if buffer == [] {
        return None;
      }
      assert buffer == [buffer[0]] + buffer[1..];
      item := Some(buffer[0]);
      buffer := buffer[1..];
      taken := taken + [item.value];
    }

    method Size() returns (n: nat)
      ensures n == |View().items|
    {
      n := |buffer|;
    }

    method Empty() returns (empty: bool)
      ensures empty == (View().items == [])
    {
      empty := |buffer| == 0;
    }

    method Shutdown()
      requires Valid()
      modifies this`closed
      ensures Valid() && View() == old(View()).(closed := true)
    {
      closed := true;
    }
  }
}
