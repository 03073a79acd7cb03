/**
 * The part of `java.util.concurrent.BlockingQueue` the log queues rely on,
 * with the queue as a sequence, head first.
 */
module BlockingQueue {
  /**
   * How many elements `drainTo(c, maxElements)` moves out of a queue
   * holding `size`: none when the limit is not positive, otherwise as many
   * as the limit allows.
   */
  function DrainCount(size: nat, maxElements: int): (n: nat)
    ensures n <= size
    ensures maxElements <= 0 ==> n == 0
    ensures maxElements > 0 ==> n <= maxElements && (n == size || n == maxElements)
  {
    if maxElements <= 0 then 0
    else if size < maxElements then size
    else maxElements
  }

  /** Moving the first `n` queued elements to the drained ones keeps their order. */
  lemma DrainKeepsOrder<T>(drained: seq<T>, queue: seq<T>, n: nat)
    requires n <= |queue|
    ensures (drained + queue[..n]) + queue[n..] == drained + queue
  {
    assert queue[..n] + queue[n..] == queue;
  }

  /**
   * The queue after `offer(x)` on a queue bounded by `capacity`: appended
   * at the tail when there is room, otherwise left as it was.
   */
  function Offer<T>(queue: seq<T>, capacity: nat, x: T): (r: seq<T>)
    ensures |r| <= if |queue| < capacity then capacity else |queue|
    ensures r == queue || r == queue + [x]
    ensures r == queue + [x] <==> |queue| < capacity
  {
    if |queue| < capacity then queue + [x] else queue
  }
}
