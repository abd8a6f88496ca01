/** The watcher: drains the shared notification queue, multicasts each descriptor to
    every generator queue, counts what it read, and after every read sweeps the grid,
    resetting each bucket that every generator has both entered and released. */
module Watchers {
  import opened PySemantics
  import opened BucketGrid

  /** A generator's multicast queue. A `put` into a queue that refuses it raises
      ValueError. */
  datatype Channel<T> = Channel(items: seq<T>, refuses: bool)

  /** The outcome of `out_queue.get(timeout=1)`: `Queue.Empty` after the timeout, or the
      item read, which may be Python's `None`. */
  datatype QueueRead<T> = Empty | Received(item: Option<T>)

  /** The sweep's test: `bucket[2] == bucket[3] == n_generators`. */
  predicate Reclaimable(b: Bucket, n: nat)
  {
    b.entered == n && b.released == n
  }

  /** The reset of a reclaimed bucket: flag and both counters back to 0, payload kept. */
  function Reclaim(b: Bucket): Bucket
  {
    b.(occupied := 0, entered := 0, released := 0)
  }

  function SweptBucket(b: Bucket, n: nat): Bucket
  {
    if Reclaimable(b, n) then Reclaim(b) else b
  }

  function SweptSlot(slot: seq<Bucket>, n: nat): seq<Bucket>
  {
    seq(|slot|, j requires 0 <= j < |slot| => SweptBucket(slot[j], n))
  }

  /** The grid after one sweep with `n` generators. */
  function Swept(slots: Slots, n: nat): Slots
  {
    seq(|slots|, s requires 0 <= s < |slots| => SweptSlot(slots[s], n))
  }

  /** The sweep keeps the grid's shape, resets a bucket if and only if its entered and
      released counters both equal `n`, and a reset clears the flag and both counters
      and keeps the payload; every other bucket is left exactly as it was. */
  lemma SweepResetsExactlyTheReclaimable(slots: Slots, n: nat)
    ensures SameShape(slots, Swept(slots, n))
    ensures forall s, b :: ValidBucket(slots, s, b) ==>
              var before, after := slots[s][b], Swept(slots, n)[s][b];
              && after.payload == before.payload
              && (Reclaimable(before, n) ==> after.occupied == 0 && after.entered == 0 && after.released == 0)
              && (!Reclaimable(before, n) ==> after == before)
  {
  }

  /** A second sweep changes nothing, whatever the number of generators. */
  lemma SweepIdempotent(slots: Slots, n: nat)
    ensures Swept(Swept(slots, n), n) == Swept(slots, n)
  {
    var once := Swept(slots, n);
    forall s | 0 <= s < |slots|
      ensures Swept(once, n)[s] == once[s]
    {
      forall b | 0 <= b < |slots[s]|
        ensures SweptBucket(once[s][b], n) == once[s][b]
      {
        if Reclaimable(slots[s][b], n) {
          assert once[s][b] == Reclaim(slots[s][b]);
        }
      }
    }
  }

  /** The sweep keeps 0 <= released <= entered <= n for every bucket. */
  lemma SweepKeepsCountersBounded(slots: Slots, n: nat)
    requires CountersBounded(slots, n)
    ensures CountersBounded(Swept(slots, n), n)
  {
    forall s, b | ValidBucket(Swept(slots, n), s, b)
      ensures Swept(slots, n)[s][b].released <= Swept(slots, n)[s][b].entered <= n
    {
      assert ValidBucket(slots, s, b);
    }
  }

  /** The descriptor one read hands to the multicast, if any. */
  function Carried<T>(read: QueueRead<T>): seq<T>
  {
    match read
    case Received(Some(x)) => [x]
    case _ => []
  }

  /** The descriptors among a run of reads, in order: the `Received` items other than
      `None`. */
  function Descriptors<T>(taken: seq<QueueRead<T>>): seq<T>
  {
    if taken == [] then []
    else Descriptors(taken[..|taken| - 1]) + Carried(taken[|taken| - 1])
  }

  /** Read number `k` of the loop: the scripted one, or `Queue.Empty` past the script. */
  function ReadAt<T>(inbox: seq<QueueRead<T>>, k: nat): QueueRead<T>
  {
    if k < |inbox| then inbox[k] else Empty
  }

  /** The first `k` reads of the loop. */
  function ReadsTaken<T>(inbox: seq<QueueRead<T>>, k: nat): (r: seq<QueueRead<T>>)
    ensures |r| == k
  {
    seq(k, i requires 0 <= i < k => ReadAt(inbox, i))
  }

  /** One more read adds what it carries to the end of the descriptors read so far. */
  lemma DescriptorsNext<T>(inbox: seq<QueueRead<T>>, k: nat)
    ensures Descriptors(ReadsTaken(inbox, k + 1)) == Descriptors(ReadsTaken(inbox, k)) + Carried(ReadAt(inbox, k))
  {
    assert ReadsTaken(inbox, k + 1)[..k] == ReadsTaken(inbox, k);
  }

  /** No queue up to and including queue `i` refuses a put. */
  predicate Clear<T>(queues: seq<Channel<T>>, i: nat)
  {
    forall j :: 0 <= j <= i && j < |queues| ==> !queues[j].refuses
  }

  /** `now` is the queues `start` after `sent` was multicast, item by item: every queue
      with no refusing queue at or before it received `sent` in order, every other
      queue is exactly as it was, and no queue changed whether it refuses. */
  ghost predicate Multicasted<T>(start: seq<Channel<T>>, now: seq<Channel<T>>, sent: seq<T>)
  {
    && |now| == |start|
    && (forall i :: 0 <= i < |start| ==> now[i].refuses == start[i].refuses)
    && (forall i :: 0 <= i < |start| && Clear(start, i) ==> now[i].items == start[i].items + sent)
    && (forall i :: 0 <= i < |start| && !Clear(start, i) ==> now[i] == start[i])
  }

  /** Multicasting `sofar` and then `carried` is multicasting `sofar + carried`: the
      refusing queues are the same at both steps. */
  lemma {:induction false} MulticastedConcat<T>(start: seq<Channel<T>>, before: seq<Channel<T>>,
                                                after: seq<Channel<T>>, sofar: seq<T>, carried: seq<T>)
    requires Multicasted(start, before, sofar) && Multicasted(before, after, carried)
    ensures Multicasted(start, after, sofar + carried)
  {
    forall i | 0 <= i < |start|
      ensures Clear(start, i) <==> Clear(before, i)
    {
      if Clear(start, i) {
        assert Clear(before, i);
      } else {
        var j :| 0 <= j <= i && j < |start| && start[j].refuses;
        assert before[j].refuses;
      }
    }
  }

  class Watcher<T> {
    const grid: SharedGrid
    const maxBatches: Option<nat>
    /** `n_generators`: the number of multicast queues, fixed at construction. */
    const nGenerators: nat
    var queues: seq<Channel<T>>
    var batchCount: nat

    ghost predicate Valid()
      reads this
    {
      |queues| == nGenerators
    }

    constructor (grid: SharedGrid, queues: seq<Channel<T>>, maxBatches: Option<nat>)
      ensures Valid()
      ensures this.grid == grid && this.queues == queues && this.maxBatches == maxBatches
      ensures nGenerators == |queues| && batchCount == 0
    {
      this.grid := grid;
      this.queues := queues;
      this.maxBatches := maxBatches;
      nGenerators := |queues|;
      batchCount := 0;
    }

    /** Puts one descriptor into every generator queue in list order. The first queue
        that refuses it raises ValueError, which is swallowed: that queue and every later
        one miss this descriptor, the earlier ones have it, and nothing is retried. */
    method Multicast(item: T) returns (failedAt: Option<nat>)
      requires Valid()
      modifies this`queues
      ensures Valid()
      ensures |queues| == |old(queues)|
      ensures failedAt.Some? ==> failedAt.value < |queues| && old(queues)[failedAt.value].refuses
      ensures forall i :: 0 <= i < |queues| ==>
                if failedAt.None? || i < failedAt.value then
                  !old(queues)[i].refuses && queues[i] == old(queues)[i].(items := old(queues)[i].items + [item])
                else queues[i] == old(queues)[i]
    {
      failedAt := None;
      for i := 0 to |queues|
        invariant |queues| == |old(queues)|
        invariant forall k :: 0 <= k < i ==>
                    !old(queues)[k].refuses && queues[k] == old(queues)[k].(items := old(queues)[k].items + [item])
        invariant forall k :: i <= k < |queues| ==> queues[k] == old(queues)[k]
      {
        if queues[i].refuses {
          failedAt := Some(i);
          return;
        }
        queues := queues[i := queues[i].(items := queues[i].items + [item])];
      }
    }

    /** The grid sweep: every bucket of every slot is visited once and replaced by its
        swept value. */
    method Sweep()
      requires Valid()
      modifies grid
      ensures grid.slots == Swept(old(grid.slots), nGenerators)
    {
      for s := 0 to |grid.slots|
        invariant |grid.slots| == |old(grid.slots)|
        invariant forall t :: 0 <= t < s ==> grid.slots[t] == SweptSlot(old(grid.slots)[t], nGenerators)
        invariant forall t :: s <= t < |grid.slots| ==> grid.slots[t] == old(grid.slots)[t]
      {
        for b := 0 to |grid.slots[s]|
          invariant |grid.slots| == |old(grid.slots)| && |grid.slots[s]| == |old(grid.slots)[s]|
          invariant forall t :: 0 <= t < |grid.slots| && t != s ==>
                      grid.slots[t] == (if t < s then SweptSlot(old(grid.slots)[t], nGenerators) else old(grid.slots)[t])
          invariant forall c :: 0 <= c < b ==> grid.slots[s][c] == SweptBucket(old(grid.slots)[s][c], nGenerators)
          invariant forall c :: b <= c < |grid.slots[s]| ==> grid.slots[s][c] == old(grid.slots)[s][c]
        {
          var bucket := grid.slots[s][b];
          if bucket.entered == bucket.released && bucket.released == nGenerators {
            grid.slots := grid.slots[s := grid.slots[s][b := bucket.(occupied := 0, entered := 0, released := 0)]];
          }
        }
      }
    }

    /** One pass of the watch loop after the loop test: the read `read` is multicast and
        counted when it carries a descriptor, then the grid is swept. */
    method Serve(read: QueueRead<T>)
      requires Valid()
      modifies this`queues, this`batchCount, grid
      ensures Valid()
      ensures batchCount == old(batchCount) + |Carried(read)|
      ensures Multicasted(old(queues), queues, Carried(read))
      ensures grid.slots == Swept(old(grid.slots), nGenerators)
    {
      match read {
        case Received(Some(item)) =>
          var _ := Multicast(item);
          batchCount := batchCount + 1;
        case _ =>
      }
      Sweep();
    }

    /** `watch`: `polls` scripts the answers of `should_stop()` (one per loop test) and
        `inbox` the results of the notification queue reads. The loop runs while the stop
        flag is clear and the count is below the cap, so every loop test but the last
        found both. Every descriptor read is counted once, even when its multicast
        failed; the count never passes the cap; a queue that refuses nothing, behind
        queues that refuse nothing, receives exactly the descriptors read, in order; the
        grid ends swept once if the loop ran at all. */
    method Watch(polls: seq<bool>, inbox: seq<QueueRead<T>>) returns (iterations: nat)
      requires Valid()
      modifies this`queues, this`batchCount, grid
      ensures Valid()
      ensures iterations <= |polls|
      ensures forall k :: 0 <= k < iterations ==> !StopRequested(polls, k)
      ensures forall k :: 0 <= k < iterations ==>
                maxBatches.None? || old(batchCount) + |Descriptors(ReadsTaken(inbox, k))| < maxBatches.value
      ensures StopRequested(polls, iterations) || (maxBatches.Some? && batchCount >= maxBatches.value)
      ensures batchCount == old(batchCount) + |Descriptors(ReadsTaken(inbox, iterations))|
      ensures maxBatches.Some? && old(batchCount) <= maxBatches.value ==> batchCount <= maxBatches.value
      ensures Multicasted(old(queues), queues, Descriptors(ReadsTaken(inbox, iterations)))
      ensures iterations == 0 ==> grid.slots == old(grid.slots)
      ensures iterations > 0 ==> grid.slots == Swept(old(grid.slots), nGenerators)
    {
      iterations := 0;
      while !StopRequested(polls, iterations) && (maxBatches.None? || batchCount < maxBatches.value)
        invariant Valid() && iterations <= |polls|
        decreases |polls| - iterations
        invariant batchCount == old(batchCount) + |Descriptors(ReadsTaken(inbox, iterations))|
        invariant maxBatches.Some? && old(batchCount) <= maxBatches.value ==> batchCount <= maxBatches.value
        invariant Multicasted(old(queues), queues, Descriptors(ReadsTaken(inbox, iterations)))
        invariant forall k :: 0 <= k < iterations ==> !StopRequested(polls, k)
        invariant forall k :: 0 <= k < iterations ==>
                    maxBatches.None? || old(batchCount) + |Descriptors(ReadsTaken(inbox, k))| < maxBatches.value
        invariant iterations == 0 ==> grid.slots == old(grid.slots)
        invariant iterations > 0 ==> grid.slots == Swept(old(grid.slots), nGenerators)
      {
        ghost var before := queues;
        assert maxBatches.None? || old(batchCount) + |Descriptors(ReadsTaken(inbox, iterations))| < maxBatches.value;
        DescriptorsNext(inbox, iterations);
        Serve(ReadAt(inbox, iterations));
        MulticastedConcat(old(queues), before, queues, Descriptors(ReadsTaken(inbox, iterations)),
                          Carried(ReadAt(inbox, iterations)));
        if iterations > 0 {
          SweepIdempotent(old(grid.slots), nGenerators);
        }
        iterations := iterations + 1;
      }
    }
  }
}
