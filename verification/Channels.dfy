/** Channels as src/metrics.rs uses them, and the non-blocking enqueue that keeps the newest item. */
module Channels {
  import opened Wrappers

  datatype TrySend<T> = Sent | Full(item: T) | Disconnected(item: T)

  /** A crossbeam channel seen from its sending side: unbounded, or bounded by `capacity`. */
  class Channel<T> {
    const capacity: Option<nat>
    var queue: seq<T>
    var connected: bool

    constructor (capacity: Option<nat>)
      ensures this.capacity == capacity && queue == [] && connected
    {
      this.capacity := capacity;
      queue, connected := [], true;
    }

    predicate HasRoom()
      reads this
    {
      capacity.None? || |queue| < capacity.value
    }

    method TrySend(item: T) returns (outcome: TrySend<T>)
      modifies this`queue
      ensures outcome == if !connected then Disconnected(item) else if old(HasRoom()) then Sent else Full(item)
      ensures queue == if outcome.Sent? then old(queue) + [item] else old(queue)
    {
      if !connected {
        return Disconnected(item);
      }
      if !HasRoom() {
        return Full(item);
      }
      queue := queue + [item];
      return Sent;
    }

    method TryRecv() returns (item: Option<T>)
      modifies this`queue
      ensures item == if old(queue) == [] then None else Some(old(queue)[0])
      ensures queue == if old(queue) == [] then [] else old(queue)[1..]
    {
      if queue == [] {
        return None;
      }
      item := Some(queue[0]);
      queue := queue[1..];
    }
  }

  /** `metrics_channel`: every item is kept, or only the latest one. */
  datatype QueuePolicy = All | Latest

  method MetricsChannel<T>(policy: QueuePolicy) returns (tx: Channel<T>)
    ensures fresh(tx) && tx.queue == [] && tx.connected
    ensures tx.capacity == if policy == All then None else Some(1)
  {
    match policy
    case All => tx := new Channel(None);
    case Latest => tx := new Channel(Some(1));
  }

  /**
   Enqueues without blocking. On a full queue the oldest item makes way when `replaceStale`
   (the producer then holds a receiver of its own), and the new item is dropped otherwise.
   */
  method EnqueueLatest<T>(tx: Channel<T>, replaceStale: bool, item: T)
    requires tx.capacity.Some? ==> tx.capacity.value > 0
    modifies tx`queue
    ensures !tx.connected ==> tx.queue == old(tx.queue)
    ensures tx.connected && old(tx.HasRoom()) ==> tx.queue == old(tx.queue) + [item]
    ensures tx.connected && !old(tx.HasRoom()) && !replaceStale ==> tx.queue == old(tx.queue)
    ensures tx.connected && tx.capacity.Some? && old(|tx.queue|) == tx.capacity.value && replaceStale
            ==> tx.queue == old(tx.queue)[1..] + [item]
  {
    var outcome := tx.TrySend(item);
    if outcome.Full? {
      if replaceStale {
        var _ := tx.TryRecv();
      }
      var _ := tx.TrySend(outcome.item);
    }
  }
}
