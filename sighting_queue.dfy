/**
 * The FreeRTOS queue `beaconQueueHandle` that carries sightings from the scan callback to the
 * reporter (created in main/main.c with room for BEACON_QUEUE_LEN items). Items are held by
 * value. Every operation here uses a zero timeout, so none of them blocks.
 */
module Queues {
  import opened Wrappers
  import opened BeaconBle

  /** BEACON_QUEUE_LEN */
  const BeaconQueueLen := 10

  class SightingQueue {
    var items: seq<Sighting>
    const capacity: nat

    ghost predicate Valid()
      reads this
    {
      |items| <= capacity
    }

    /** xQueueCreate */
    constructor (capacity: nat)
      ensures Valid() && items == [] && this.capacity == capacity
    {
      items := [];
      this.capacity := capacity;
    }

    /** uxQueueMessagesWaiting */
    method MessagesWaiting() returns (n: nat)
      requires Valid()
      ensures n == |items| && n <= capacity
    {
      n := |items|;
    }

    /** xQueueSend with timeout 0: appends when there is room, and otherwise fails at once. */
    method TrySend(x: Sighting) returns (ok: bool)
      requires Valid()
      modifies this
      ensures Valid()
      ensures ok <==> |old(items)| < capacity
      ensures items == if ok then old(items) + [x] else old(items)
    {
      ok := |items| < capacity;
      if ok {
        items := items + [x];
      }
    }

    /** xQueueReceive with timeout 0: takes the oldest item, or fails at once when empty. */
    method TryReceive() returns (r: Option<Sighting>)
      requires Valid()
      modifies this
      ensures Valid()
      ensures r.None? <==> old(items) == []
      ensures r.Some? ==> r.value == old(items)[0] && items == old(items)[1..]
      ensures r.None? ==> items == old(items)
    {
      if items == [] {
        r := None;
      } else {
        r := Some(items[0]);
        items := items[1..];
      }
    }
  }
}
