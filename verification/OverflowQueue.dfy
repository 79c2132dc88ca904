/** The live queue: bounded, first in first out, and dropping the newest item when full. */
module OverflowQueues {
  import opened Options

  class OverflowQueue<T> {
    /** As in queue.Queue, zero or less means unbounded. */
    const maxsize: int
    var items: seq<T>
    var overflowed: bool
    var dropped: nat
    var totalDropped: nat
    var peakSize: nat
    /** History: what was ever offered and accepted, and how much of that has left the queue. */
    ghost var offered: nat
    ghost var accepted: seq<T>
    ghost var gone: nat

    ghost predicate Valid() reads this {
      && (maxsize > 0 ==> |items| <= maxsize)
      && (overflowed <==> dropped > 0)
      && dropped <= totalDropped && |items| <= peakSize
      && offered == |accepted| + totalDropped
      && gone + |items| == |accepted| && items == accepted[gone..]
    }

    predicate Full() reads this { maxsize > 0 && |items| >= maxsize }

    constructor (maxsize: int)
      ensures Valid() && this.maxsize == maxsize && items == [] && accepted == [] && offered == 0
    {
      this.maxsize, items, overflowed, dropped, totalDropped, peakSize := maxsize, [], false, 0, 0, 0;
      offered, accepted, gone := 0, [], 0;
    }

    /** Never raises: a full queue keeps what it has and counts the new item as dropped. */
    method PutNowait(item: T)
      requires Valid()
      modifies this
      ensures Valid() && offered == old(offered) + 1 && gone == old(gone)
      ensures !old(Full()) ==>
                && items == old(items) + [item] && accepted == old(accepted) + [item]
                && overflowed == old(overflowed) && dropped == old(dropped) && totalDropped == old(totalDropped)
                && peakSize == Max(old(peakSize), |items|)
      ensures old(Full()) ==>
                && items == old(items) && accepted == old(accepted)
                && overflowed && dropped == old(dropped) + 1 && totalDropped == old(totalDropped) + 1
                && peakSize == old(peakSize)
    {
      offered := offered + 1;
      if maxsize > 0 && |items| >= maxsize {
        overflowed := true;
        dropped := dropped + 1;
        totalDropped := totalDropped + 1;
      } else {
        items := items + [item];
        accepted := accepted + [item];
        peakSize := Max(peakSize, |items|);
      }
    }

    /** get(), when there is something to get. */
    method Get() returns (item: T)
      requires Valid() && items != []
      modifies this
      ensures Valid() && [item] + items == old(items) && gone == old(gone) + 1
      ensures overflowed == old(overflowed) && dropped == old(dropped) && totalDropped == old(totalDropped)
      ensures peakSize == old(peakSize) && offered == old(offered) && accepted == old(accepted)
    {
      item := items[0];
      items := items[1..];
      gone := gone + 1;
    }

    /** Start of a backfill cycle: everything queued is discarded, the outage's drops are returned. */
    method ClearAndResetOverflow() returns (count: nat)
      requires Valid()
      modifies this
      ensures Valid() && count == old(dropped) && items == [] && !overflowed && dropped == 0
      ensures gone == old(gone) + |old(items)| && accepted == old(accepted) && offered == old(offered)
      ensures totalDropped == old(totalDropped) && peakSize == old(peakSize)
    {
      gone := gone + |items|;
      items := [];
      count := dropped;
      dropped := 0;
      overflowed := false;
    }

    /** The new baseline is the current depth, not zero. */
    method GetAndResetPeak() returns (peak: nat)
      requires Valid()
      modifies this
      ensures Valid() && peak == old(peakSize) && peakSize == |items| <= peak
      ensures items == old(items) && overflowed == old(overflowed) && dropped == old(dropped)
      ensures totalDropped == old(totalDropped)
      ensures offered == old(offered) && accepted == old(accepted) && gone == old(gone)
    {
      peak := peakSize;
      peakSize := |items|;
    }
  }

  /**
   One outage, from an empty queue to the cycle that clears it: the first `maxsize` events stay
   queued in order, the rest are dropped and counted, and the count is what the cycle is told.
   */
  method Outage<T>(q: OverflowQueue<T>, events: seq<T>) returns (count: nat)
    requires q.Valid() && q.items == [] && q.maxsize > 0 && q.dropped == 0
    modifies q
    ensures q.Valid() && q.items == [] && !q.overflowed
    ensures count == Max(0, |events| - q.maxsize)
    ensures q.accepted == old(q.accepted) + events[..Min(|events|, q.maxsize)]
  {
    for k := 0 to |events|
      invariant q.Valid()
      invariant q.items == events[..Min(k, q.maxsize)] && q.dropped == Max(0, k - q.maxsize)
      invariant q.accepted == old(q.accepted) + events[..Min(k, q.maxsize)]
    {
      q.PutNowait(events[k]);
      assert k < q.maxsize ==> events[..k] + [events[k]] == events[..k + 1];
    }
    count := q.ClearAndResetOverflow();
  }
}
