/**
 * A FreeRTOS queue as the firmware uses it: a bounded FIFO of fixed-size
 * items, created with a capacity (xQueueCreate), filled by xQueueSend,
 * drained by xQueueReceive and counted by uxQueueMessagesWaiting.
 *
 * The firmware always waits with portMAX_DELAY. In this sequential model a
 * wait that could not end at once is reported instead of taken: Send on a
 * full queue and Receive on an empty one change nothing, and the caller
 * treats the step as not yet enabled.
 */
module Queues {
  import opened CText

  class Fifo<T> {
    var items: seq<T>
    const capacity: nat

    ghost predicate Valid()
      reads this
    {
      |items| <= capacity
    }

    constructor (capacity: nat)
      ensures Valid()
      ensures this.capacity == capacity && items == []
    {
      this.capacity := capacity;
      items := [];
    }

    /** uxQueueMessagesWaiting. */
    function Waiting(): (n: nat)
      reads this
      requires Valid()
      ensures n <= capacity
    {
      |items|
    }

    /** xQueueSend: appends at the back when there is room. */
    method Send(x: T) returns (ok: bool)
      requires Valid()
      modifies this
      ensures Valid()
      ensures ok <==> |old(items)| < capacity
      ensures items == if ok then old(items) + [x] else old(items)
    {
      ok := |items| < capacity;
      if ok {
        items := items + [x];
      }
    }

    /** xQueueReceive: takes the oldest item, if there is one. */
    method Receive() returns (x: Option<T>)
      requires Valid()
      modifies this
      ensures Valid()
      ensures old(items) == [] ==> x == None && items == []
      ensures old(items) != [] ==> x == Some(old(items)[0]) && items == old(items)[1..]
    {
      if items == [] {
        x := None;
      } else {
        x := Some(items[0]);
        items := items[1..];
      }
    }
  }
}
