/** The bounded queue under a mutex that every executor rests on: the value it holds, and the class whose
    methods are the critical sections. */
module ThreadSafeQueues {

  import opened Collections

  datatype PushResult = Ok | Full | Closed
  datatype CloseMode = Drain | Discard
  datatype Queue<T> = Queue(items: seq<T>, closed: bool, capacity: nat) {
    predicate Bounded() {
      capacity != 0 ==> |items| <= capacity
    }

    function PushOutcome(): PushResult {
      if closed then Closed else if capacity != 0 && |items| >= capacity then Full else Ok
    }

    function Pushed(value: T): Queue<T> {
      if PushOutcome() == Ok then this.(items := items + [value]) else this
    }

    function Popped(): Queue<T> {
      if items == [] then this else this.(items := items[1..])
    }

    function Close(mode: CloseMode): Queue<T> {
      if closed then this
      else this.(closed := true, items := if mode == Discard then [] else items)
    }
  }

  class ThreadSafeQueue<T> {
    var queue: seq<T>
    var closed: bool
    const capacity: nat

    function Model(): Queue<T>
      reads this
    {
      Queue(queue, closed, capacity)
    }

    constructor (capacity: nat)
      ensures Model() == Queue([], false, capacity) && Model().Bounded()
    {
      this.capacity, queue, closed := capacity, [], false;
    }

    method Push(value: T) returns (result: PushResult)
      modifies this
      ensures result == old(Model()).PushOutcome() && Model() == old(Model()).Pushed(value)
      ensures result == Closed <==> old(closed)
      ensures result == Full <==> !old(closed) && capacity != 0 && |old(queue)| >= capacity
      ensures queue == old(queue) + (if result == Ok then [value] else []) && closed == old(closed)
    {
      if closed {
        return Closed;
      }
      if capacity != 0 && |queue| >= capacity {
        return Full;
      }
      queue := queue + [value];
      return Ok;
    }

    /** The part of waitPop after its wait, which is for an item or the closing. */
    method WaitPop() returns (value: Option<T>)
      requires closed || queue != []
      modifies this
      ensures Model() == old(Model()).Popped()
      ensures value == if old(queue) == [] then None else Some(old(queue)[0])
      ensures value.None? ==> closed
      ensures queue == (if old(queue) == [] then [] else old(queue)[1..]) && closed == old(closed)
    {
      if queue == [] {
        return None;
      }
      value := Some(queue[0]);
      queue := queue[1..];
    }

    method CloseQueue(mode: CloseMode)
      modifies this
      ensures Model() == old(Model()).Close(mode)
      ensures closed && queue == if !old(closed) && mode == Discard then [] else old(queue)
    {
      if closed {
        return;
      }
      closed := true;
      if mode == Discard {
        while queue != []
          invariant closed
          decreases |queue|
        {
          queue := queue[1..];
        }
      }
    }
  }
}
