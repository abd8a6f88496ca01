/** The generator: pulls a descriptor from its own channel, acquires the bucket it names,
    cuts the payload into mini-batches and yields them, and releases the bucket at the
    start of the following loop iteration. Each lock-scoped update of a bucket is one
    atomic step on the shared grid. */
module Generators {
  import opened PySemantics
  import opened BucketGrid
  import opened Slicing
  import opened Translation

  /** What the generator's channel delivers: the 3-tuple `(bucket_index, data_sets,
      batch_id)`, or an item that does not unpack into three values. */
  datatype Descriptor = Descriptor(bucketIndex: int, dataSets: seq<int>, batchId: int) | Malformed

  /** How a run of the generator ends: the stop flag seen at the top of the loop
      (graceful shutdown), `StopIteration` raised before a yield, or an exception. */
  datatype Exit = Seppuku | StopIteration | Raised(error: Exception)

  /** Watched-mode acquisition: the entered counter `[2]` of one bucket goes up by one. */
  function Enter(slots: Slots, s: nat, b: nat): (r: Slots)
    requires ValidBucket(slots, s, b)
    ensures SameShape(slots, r)
    ensures r[s][b].entered == slots[s][b].entered + 1
    ensures r[s][b] == slots[s][b].(entered := r[s][b].entered)
    ensures forall t, c :: ValidBucket(slots, t, c) && (t != s || c != b) ==> r[t][c] == slots[t][c]
  {
    slots[s := slots[s][b := slots[s][b].(entered := slots[s][b].entered + 1)]]
  }

  /** Watched-mode release: the released counter `[3]` of one bucket goes up by one. */
  function Leave(slots: Slots, s: nat, b: nat): (r: Slots)
    requires ValidBucket(slots, s, b)
    ensures SameShape(slots, r)
    ensures r[s][b].released == slots[s][b].released + 1
    ensures r[s][b] == slots[s][b].(released := r[s][b].released)
    ensures forall t, c :: ValidBucket(slots, t, c) && (t != s || c != b) ==> r[t][c] == slots[t][c]
  {
    slots[s := slots[s][b := slots[s][b].(released := slots[s][b].released + 1)]]
  }

  /** Unwatched-mode release: the occupied flag `[0]` of one bucket is cleared; both
      counters stay as they were. */
  function Vacate(slots: Slots, s: nat, b: nat): (r: Slots)
    requires ValidBucket(slots, s, b)
    ensures SameShape(slots, r)
    ensures r[s][b].occupied == 0
    ensures r[s][b] == slots[s][b].(occupied := 0)
    ensures forall t, c :: ValidBucket(slots, t, c) && (t != s || c != b) ==> r[t][c] == slots[t][c]
  {
    slots[s := slots[s][b := slots[s][b].(occupied := 0)]]
  }

  /** The grid after the deferred release of the pending bucket, if any: `Leave` in
      watched mode, `Vacate` otherwise, and no change when nothing is pending. */
  function AfterRelease(slots: Slots, s: nat, watched: bool, pending: Option<nat>): (r: Slots)
    requires pending.Some? ==> ValidBucket(slots, s, pending.value)
    ensures SameShape(slots, r)
    ensures pending.None? ==> r == slots
    ensures pending.Some? ==> forall t, c :: ValidBucket(slots, t, c) && (t != s || c != pending.value) ==> r[t][c] == slots[t][c]
    ensures pending.Some? && watched ==>
              r[s][pending.value] == slots[s][pending.value].(released := slots[s][pending.value].released + 1)
    ensures pending.Some? && !watched ==> r[s][pending.value] == slots[s][pending.value].(occupied := 0)
  {
    match pending
    case None => slots
    case Some(b) => if watched then Leave(slots, s, b) else Vacate(slots, s, b)
  }

  /** 1 when the generator's pending bucket is `b`. */
  function Held(pending: Option<nat>, b: nat): nat
  {
    if pending == Some(b) then 1 else 0
  }

  /** What a stretch of generator steps may have done to the grid: only buckets of its
      own slot change, never a payload; in watched mode only the counters move, never
      down, and `entered - released - held` stays the same for every bucket; in
      unwatched mode the counters stay and `occupied` keeps its value or becomes 0. */
  ghost predicate Effect(before: Slots, after: Slots, s: nat, watched: bool,
                         heldBefore: Option<nat>, heldAfter: Option<nat>)
  {
    && s < |before|
    && SameShape(before, after)
    && (forall t :: 0 <= t < |before| && t != s ==> after[t] == before[t])
    && forall b :: 0 <= b < |before[s]| ==>
         && after[s][b].payload == before[s][b].payload
         && (watched ==>
               && after[s][b].occupied == before[s][b].occupied
               && after[s][b].entered >= before[s][b].entered
               && after[s][b].released >= before[s][b].released
               && after[s][b].entered - after[s][b].released - Held(heldAfter, b)
                  == before[s][b].entered - before[s][b].released - Held(heldBefore, b))
         && (!watched ==>
               && after[s][b].entered == before[s][b].entered
               && after[s][b].released == before[s][b].released
               && (after[s][b].occupied == before[s][b].occupied || after[s][b].occupied == 0))
  }

  lemma EffectTransitive(a: Slots, b: Slots, c: Slots, s: nat, watched: bool,
                         ha: Option<nat>, hb: Option<nat>, hc: Option<nat>)
    requires Effect(a, b, s, watched, ha, hb) && Effect(b, c, s, watched, hb, hc)
    ensures Effect(a, c, s, watched, ha, hc)
  {
    forall k | 0 <= k < |a[s]|
      ensures c[s][k].entered - c[s][k].released - Held(hc, k) == a[s][k].entered - a[s][k].released - Held(ha, k) || !watched
    {
    }
  }

  /** The number of mini-batches in a stream of yields (`None` yields are not counted). */
  function Delivered(out: seq<Option<Batch>>): nat
  {
    if out == [] then 0
    else Delivered(out[..|out| - 1]) + (if out[|out| - 1].Some? then 1 else 0)
  }

  function AsYields(batches: seq<Batch>): (r: seq<Option<Batch>>)
    ensures |r| == |batches| && forall i :: 0 <= i < |r| ==> r[i] == Some(batches[i])
  {
    seq(|batches|, i requires 0 <= i < |batches| => Some(batches[i]))
  }

  /** The count of a concatenation of yield streams is the sum of their counts. */
  lemma {:induction false} DeliveredConcat(a: seq<Option<Batch>>, b: seq<Option<Batch>>)
    ensures Delivered(a + b) == Delivered(a) + Delivered(b)
    decreases |b|
  {
    if b == [] {
      assert a + b == a;
    } else {
      DeliveredConcat(a, b[..|b| - 1]);
      assert (a + b)[..|a + b| - 1] == a + b[..|b| - 1];
    }
  }

  /** Every element of a stream of yielded mini-batches counts. */
  lemma {:induction false} DeliveredYields(batches: seq<Batch>)
    ensures Delivered(AsYields(batches)) == |batches|
    decreases |batches|
  {
    if batches != [] {
      DeliveredYields(batches[..|batches| - 1]);
      assert AsYields(batches)[..|batches| - 1] == AsYields(batches[..|batches| - 1]);
    }
  }

  class Generator {
    const grid: SharedGrid
    /** The slot of the grid this generator reads its buckets from. */
    const slot: nat
    /** `batch_size`: the step of `range`; 0 makes `range` raise ValueError and a
        negative one gives no mini-batches. */
    const batchSize: int
    const maxBatches: Option<nat>
    const watched: bool
    /** `translate_col_to_file_name`: 0 (or `False`) switches translation off. */
    const translateCol: int
    const fileIndexList: seq<string>
    /** The caller-supplied `delivery_function`, if any. */
    const deliver: Option<Batch -> Batch>

    /** `last_bucket_index`: the bucket acquired last and not yet released. */
    var lastBucket: Option<nat>
    var batchCount: nat
    ghost var acquisitions: nat
    ghost var releases: nat

    ghost predicate Valid()
      reads this, grid
    {
      && slot < |grid.slots|
      && (lastBucket.Some? ==> lastBucket.value < |grid.slots[slot]|)
      && acquisitions == releases + (if lastBucket.Some? then 1 else 0)
    }

    constructor (grid: SharedGrid, slot: nat, batchSize: int, fileIndexList: seq<string>,
                 translateCol: int, maxBatches: Option<nat>, deliver: Option<Batch -> Batch>,
                 watched: bool)
      requires slot < |grid.slots|
      ensures Valid()
      ensures this.grid == grid && this.slot == slot && this.batchSize == batchSize
      ensures this.fileIndexList == fileIndexList && this.translateCol == translateCol
      ensures this.maxBatches == maxBatches && this.deliver == deliver && this.watched == watched
      ensures lastBucket == None && acquisitions == 0 && releases == 0
    {
      this.grid := grid;
      this.slot := slot;
      this.batchSize := batchSize;
      this.fileIndexList := fileIndexList;
      this.translateCol := translateCol;
      this.maxBatches := maxBatches;
      this.deliver := deliver;
      this.watched := watched;
      lastBucket := None;
      batchCount := 0;
      acquisitions, releases := 0, 0;
    }

    /** What is handed to the caller for one mini-batch: the column translation, when
        switched on, then the delivery function, when there is one. */
    function Prepare(batch: Batch): Result<Batch>
    {
      match Translate(batch, translateCol, fileIndexList)
      case Err(e) => Err(e)
      case Ok(t) => Ok(if deliver.Some? then deliver.value(t) else t)
    }

    /** What the caller is handed for each of a run of mini-batches, in order. */
    function PrepareAll(batches: seq<Batch>): (r: seq<Result<Batch>>)
      ensures |r| == |batches|
    {
      if batches == [] then []
      else PrepareAll(batches[..|batches| - 1]) + [Prepare(batches[|batches| - 1])]
    }

    lemma {:induction false} PrepareAllAt(batches: seq<Batch>, i: nat)
      requires i < |batches|
      ensures PrepareAll(batches)[i] == Prepare(batches[i])
      decreases |batches|
    {
      if i < |batches| - 1 {
        PrepareAllAt(batches[..|batches| - 1], i);
      }
    }

    /** The deferred release of the previously acquired bucket, if any: in watched mode
        its released counter goes up by one, otherwise its occupied flag is cleared.
        Either way no bucket is pending afterwards. */
    method Release()
      requires Valid()
      modifies this, grid
      ensures Valid()
      ensures lastBucket == None
      ensures batchCount == old(batchCount) && acquisitions == old(acquisitions)
      ensures old(lastBucket) == None ==> grid.slots == old(grid.slots) && releases == old(releases)
      ensures old(lastBucket).Some? ==>
                releases == old(releases) + 1 &&
                grid.slots == (if watched then Leave(old(grid.slots), slot, old(lastBucket).value)
                               else Vacate(old(grid.slots), slot, old(lastBucket).value))
      ensures grid.slots == AfterRelease(old(grid.slots), slot, watched, old(lastBucket))
      ensures Effect(old(grid.slots), grid.slots, slot, watched, old(lastBucket), lastBucket)
    {
      if lastBucket.Some? {
        var b := lastBucket.value;
        if watched {
          grid.slots := Leave(grid.slots, slot, b);
        } else {
          grid.slots := Vacate(grid.slots, slot, b);
        }
        lastBucket := None;
        releases := releases + 1;
      }
    }

    /** Acquisition of the bucket a descriptor names (Python indexing, so a negative
        index counts from the back): in watched mode its entered counter goes up by one;
        it becomes the pending bucket and its payload is returned. An index outside the
        slot raises IndexError and changes nothing. */
    method Acquire(bucketIndex: int) returns (payload: Option<Payload>)
      requires Valid() && lastBucket == None
      modifies this, grid
      ensures Valid()
      ensures batchCount == old(batchCount) && releases == old(releases)
      ensures payload.Some? <==> Position(|old(grid.slots)[slot]|, bucketIndex).Some?
      ensures payload.None? ==>
                grid.slots == old(grid.slots) && lastBucket == None && acquisitions == old(acquisitions)
      ensures payload.Some? ==>
                var b := Position(|old(grid.slots)[slot]|, bucketIndex).value;
                && lastBucket == Some(b)
                && acquisitions == old(acquisitions) + 1
                && payload.value == old(grid.slots)[slot][b].payload
                && grid.slots == (if watched then Enter(old(grid.slots), slot, b) else old(grid.slots))
      ensures Effect(old(grid.slots), grid.slots, slot, watched, old(lastBucket), lastBucket)
    {
      var position := Position(|grid.slots[slot]|, bucketIndex);
      if position.None? {
        return None;
      }
      var b := position.value;
      if watched {
        grid.slots := Enter(grid.slots, slot, b);
      }
      payload := Some(grid.slots[slot][b].payload);
      lastBucket := Some(b);
      acquisitions := acquisitions + 1;
    }

    /** What emitting the mini-batches of one bucket's `payload` may come to, with the
        stop flag polled from poll `p0` on and `count0` mini-batches yielded before:
        `emitted` are the mini-batches yielded, `p` the next poll, `exit` how the pass
        ends (`None`: every window was yielded). An empty payload tuple has no
        `payload[0]` (IndexError), a zero step makes `range` raise ValueError and a
        negative step gives no windows. Otherwise the mini-batches yielded are the
        prepared windows in order, each after a clear stop flag and below the cap;
        StopIteration comes from the stop flag or the cap before the next window, an
        exception from preparing the next window. */
    ghost predicate Emission(payload: Payload, polls: seq<bool>, p0: nat, count0: nat,
                             emitted: seq<Batch>, p: nat, exit: Option<Exit>)
    {
      if |payload| == 0 then emitted == [] && p == p0 && exit == Some(Raised(IndexError))
      else if batchSize == 0 then emitted == [] && p == p0 && exit == Some(Raised(ValueError))
      else if batchSize < 0 then emitted == [] && p == p0 && exit.None?
      else
        var prepared := PrepareAll(MiniBatches(payload, batchSize));
        && |emitted| <= |prepared|
        && (forall k :: 0 <= k < |emitted| ==> prepared[k] == Ok(emitted[k]))
        && (forall k :: p0 <= k < p0 + |emitted| ==> !StopRequested(polls, k))
        && (maxBatches.Some? && count0 <= maxBatches.value ==> count0 + |emitted| <= maxBatches.value)
        && p == p0 + |emitted| + (if exit.Some? then 1 else 0)
        && match exit
           case None => |emitted| == |prepared|
           case Some(StopIteration) =>
             |emitted| < |prepared| && (StopRequested(polls, p - 1) || maxBatches == Some(count0 + |emitted|))
           case Some(Raised(e)) =>
             && |emitted| < |prepared| && prepared[|emitted|] == Err(e)
             && !StopRequested(polls, p - 1) && maxBatches != Some(count0 + |emitted|)
           case Some(Seppuku) => false
    }

    /** `Emission` pins the outcome down: two outcomes it allows for the same payload,
        polls and count are the same outcome. */
    lemma EmissionDeterministic(payload: Payload, polls: seq<bool>, p0: nat, count0: nat,
                                emitted1: seq<Batch>, p1: nat, exit1: Option<Exit>,
                                emitted2: seq<Batch>, p2: nat, exit2: Option<Exit>)
      requires Emission(payload, polls, p0, count0, emitted1, p1, exit1)
      requires Emission(payload, polls, p0, count0, emitted2, p2, exit2)
      ensures emitted1 == emitted2 && p1 == p2 && exit1 == exit2
    {
    }

    /** The inner loop over one bucket: `len(payload[0])` (IndexError for an empty
        payload tuple), `range(0, len(payload[0]), batch_size)` (ValueError for a zero
        step, no offsets for a negative one), then the windows one by one. */
    method EmitBucket(payload: Payload, polls: seq<bool>, p0: nat)
      returns (emitted: seq<Batch>, p: nat, exit: Option<Exit>)
      requires p0 <= |polls|
      modifies this`batchCount
      ensures Emission(payload, polls, p0, old(batchCount), emitted, p, exit)
      ensures batchCount == old(batchCount) + |emitted|
      ensures p0 <= p && exit != Some(Seppuku)
      ensures exit != Some(StopIteration) ==> p <= |polls| && forall k :: p0 <= k < p ==> !StopRequested(polls, k)
      ensures exit == Some(StopIteration) ==>
                && p0 < p && (forall k :: p0 <= k < p - 1 ==> !StopRequested(polls, k))
                && (StopRequested(polls, p - 1) || maxBatches == Some(batchCount))
      ensures maxBatches.Some? && old(batchCount) <= maxBatches.value ==> batchCount <= maxBatches.value
    {
      emitted, p, exit := [], p0, None;
      if |payload| == 0 {
        exit := Some(Raised(IndexError));
      } else if batchSize == 0 {
        exit := Some(Raised(ValueError));
      } else if batchSize > 0 {
        emitted, p, exit := EmitWindows(payload, polls, p0);
      }
    }

    /** For each offset it cuts the aligned mini-batch, then checks the stop flag and the
        cap (ending with StopIteration if either trips), prepares the mini-batch and
        yields it, counting it. The mini-batches yielded are the prepared windows in
        order, each after a clear stop flag; an exception comes from preparing the next
        window. */
    method EmitWindows(payload: Payload, polls: seq<bool>, p0: nat)
      returns (emitted: seq<Batch>, p: nat, exit: Option<Exit>)
      requires |payload| > 0 && batchSize > 0 && p0 <= |polls|
      modifies this`batchCount
      ensures batchCount == old(batchCount) + |emitted|
      ensures |emitted| <= |PrepareAll(MiniBatches(payload, batchSize))|
      ensures forall k :: 0 <= k < |emitted| ==> PrepareAll(MiniBatches(payload, batchSize))[k] == Ok(emitted[k])
      ensures p == p0 + |emitted| + (if exit.Some? then 1 else 0)
      ensures forall k :: p0 <= k < p0 + |emitted| ==> !StopRequested(polls, k)
      ensures maxBatches.Some? && old(batchCount) <= maxBatches.value ==> batchCount <= maxBatches.value
      ensures exit != Some(StopIteration) ==> p <= |polls|
      ensures exit.None? ==> |emitted| == |PrepareAll(MiniBatches(payload, batchSize))|
      ensures exit == Some(StopIteration) ==>
                |emitted| < |PrepareAll(MiniBatches(payload, batchSize))| &&
                (StopRequested(polls, p - 1) || maxBatches == Some(batchCount))
      ensures exit.Some? && exit.value.Raised? ==>
                && |emitted| < |PrepareAll(MiniBatches(payload, batchSize))|
                && PrepareAll(MiniBatches(payload, batchSize))[|emitted|] == Err(exit.value.error)
                && !StopRequested(polls, p - 1) && maxBatches != Some(batchCount)
      ensures exit != Some(Seppuku)
    {
      emitted, p, exit := [], p0, None;
      var offsets := Offsets(|payload[0]|, batchSize);
      ghost var batches := MiniBatches(payload, batchSize);
      assert |batches| == |offsets| by {
        BatchesLength(payload, offsets, batchSize);
      }
      for i := 0 to |offsets|
        invariant |emitted| == i && batchCount == old(batchCount) + i && exit.None?
        invariant p == p0 + i <= |polls|
        invariant forall k :: p0 <= k < p ==> !StopRequested(polls, k)
        invariant forall k :: 0 <= k < i ==> PrepareAll(batches)[k] == Ok(emitted[k])
        invariant maxBatches.Some? && old(batchCount) <= maxBatches.value ==> batchCount <= maxBatches.value
      {
        var prepared;
        prepared, exit := Step(payload, offsets[i], i, StopRequested(polls, p));
        p := p + 1;
        if exit.Some? {
          return;
        }
        emitted := emitted + [prepared];
        batchCount := batchCount + 1;
      }
    }

    /** The mini-batch at `offset`, the `i`-th window of `payload`, cut and offered. */
    method Step(payload: Payload, offset: nat, i: nat, stop: bool) returns (prepared: Batch, exit: Option<Exit>)
      requires |payload| > 0 && batchSize > 0
      requires i < |Offsets(|payload[0]|, batchSize)| && offset == Offsets(|payload[0]|, batchSize)[i]
      ensures |PrepareAll(MiniBatches(payload, batchSize))| == |Offsets(|payload[0]|, batchSize)|
      ensures exit == Some(StopIteration) <==> stop || maxBatches == Some(batchCount)
      ensures exit != Some(StopIteration) ==>
                match PrepareAll(MiniBatches(payload, batchSize))[i]
                case Ok(b) => exit.None? && prepared == b
                case Err(e) => exit == Some(Raised(e))
    {
      var offsets := Offsets(|payload[0]|, batchSize);
      var batch := CutBatch(payload, offset, batchSize);
      BatchAt(payload, offsets, batchSize, i);
      PrepareAllAt(MiniBatches(payload, batchSize), i);
      prepared, exit := Offer(batch, stop);
    }

    /** The step before one yield: StopIteration when the stop flag is set or the cap is
        reached, otherwise the prepared mini-batch, or the exception its preparation
        raises. */
    method Offer(batch: Batch, stop: bool) returns (prepared: Batch, exit: Option<Exit>)
      ensures exit == Some(StopIteration) <==> stop || maxBatches == Some(batchCount)
      ensures exit != Some(StopIteration) ==>
                match Prepare(batch)
                case Ok(b) => exit.None? && prepared == b
                case Err(e) => exit == Some(Raised(e))
    {
      prepared, exit := batch, None;
      if stop || (maxBatches.Some? && batchCount == maxBatches.value) {
        exit := Some(StopIteration);
        return;
      }
      var result := Prepare(batch);
      match result {
        case Err(e) => exit := Some(Raised(e));
        case Ok(b) => prepared := b;
      }
    }

    /** What one pass of the `generate` loop does, from the grid `before` with pending
        bucket `held` and `count0` mini-batches yielded so far, for the channel read
        `read` and with its per-window polls from `p0` on: the pending bucket is
        released; an empty read yields nothing and a malformed descriptor yields `None`,
        both with no bucket pending; a bucket index outside the slot raises IndexError;
        otherwise that bucket is entered (when watched) and becomes pending, and the
        mini-batches yielded, the next poll and the exit are those `Emission` allows for
        its payload. `after` and `heldAfter` are the grid and the pending bucket after
        the pass. */
    ghost predicate Pass(before: Slots, held: Option<nat>, count0: nat, polls: seq<bool>, p0: nat,
                         read: Option<Descriptor>, yielded: seq<Option<Batch>>, emitted: seq<Batch>,
                         p: nat, exit: Option<Exit>, after: Slots, heldAfter: Option<nat>)
      requires slot < |before| && (held.Some? ==> held.value < |before[slot]|)
    {
      var released := AfterRelease(before, slot, watched, held);
      && yielded == (if read == Some(Malformed) then [None] else AsYields(emitted))
      && match read
         case None => emitted == [] && p == p0 && exit.None? && heldAfter == None && after == released
         case Some(Malformed) => emitted == [] && p == p0 && exit.None? && heldAfter == None && after == released
         case Some(Descriptor(index, _, _)) =>
           match Position(|before[slot]|, index)
           case None =>
             emitted == [] && p == p0 && exit == Some(Raised(IndexError)) && heldAfter == None && after == released
           case Some(b) =>
             && heldAfter == Some(b)
             && after == (if watched then Enter(released, slot, b) else released)
             && Emission(before[slot][b].payload, polls, p0, count0, emitted, p, exit)
    }

    /** One pass of the `generate` loop after the stop flag was found clear: release the
        pending bucket, read one descriptor (`read`), and for a well-formed one acquire
        its bucket and emit its mini-batches, as `Pass` states. */
    method Iteration(polls: seq<bool>, p0: nat, read: Option<Descriptor>)
      returns (yielded: seq<Option<Batch>>, emitted: seq<Batch>, p: nat, exit: Option<Exit>)
      requires Valid() && p0 <= |polls|
      modifies this, grid
      ensures Valid()
      ensures Effect(old(grid.slots), grid.slots, slot, watched, old(lastBucket), lastBucket)
      ensures Pass(old(grid.slots), old(lastBucket), old(batchCount), polls, p0, read,
                   yielded, emitted, p, exit, grid.slots, lastBucket)
      ensures releases == old(releases) + (if old(lastBucket).Some? then 1 else 0)
      ensures batchCount == old(batchCount) + |emitted| == old(batchCount) + Delivered(yielded)
      ensures maxBatches.Some? && old(batchCount) <= maxBatches.value ==> batchCount <= maxBatches.value
      ensures p0 <= p && exit != Some(Seppuku)
      ensures exit != Some(StopIteration) ==> p <= |polls| && forall k :: p0 <= k < p ==> !StopRequested(polls, k)
      ensures exit == Some(StopIteration) ==>
                && p0 < p && lastBucket.Some? && (forall k :: p0 <= k < p - 1 ==> !StopRequested(polls, k))
                && (StopRequested(polls, p - 1) || maxBatches == Some(batchCount))
    {
      emitted, p, exit := [], p0, None;
      yielded := AsYields(emitted);
      Release();
      match read {
        case None =>
        case Some(Malformed) =>
          yielded := [None];
        case Some(Descriptor(index, _, _)) =>
          emitted, p, exit := Take(index, polls, p0, old(grid.slots), old(lastBucket));
          yielded := AsYields(emitted);
      }
      DeliveredYields(emitted);
      if read == Some(Malformed) {
        assert yielded[..0] == [];
      }
    }

    /** A well-formed descriptor's part of a pass: acquire the bucket it names and emit
        its mini-batches, or raise IndexError for an index outside the slot. `origin` is
        the grid as it was at the start of the pass (with pending bucket `heldOrigin`),
        whose payloads are the ones here. */
    method Take(index: int, polls: seq<bool>, p0: nat, ghost origin: Slots, ghost heldOrigin: Option<nat>)
      returns (emitted: seq<Batch>, p: nat, exit: Option<Exit>)
      requires Valid() && lastBucket == None && p0 <= |polls|
      requires Effect(origin, grid.slots, slot, watched, heldOrigin, lastBucket)
      modifies this, grid
      ensures Valid()
      ensures Effect(origin, grid.slots, slot, watched, heldOrigin, lastBucket)
      ensures grid.slots == (if watched && lastBucket.Some? then Enter(old(grid.slots), slot, lastBucket.value)
                             else old(grid.slots))
      ensures releases == old(releases)
      ensures batchCount == old(batchCount) + |emitted|
      ensures maxBatches.Some? && old(batchCount) <= maxBatches.value ==> batchCount <= maxBatches.value
      ensures match Position(|origin[slot]|, index)
              case None => emitted == [] && p == p0 && exit == Some(Raised(IndexError)) && lastBucket == None
              case Some(b) =>
                lastBucket == Some(b) &&
                Emission(origin[slot][b].payload, polls, p0, old(batchCount), emitted, p, exit)
      ensures p0 <= p && exit != Some(Seppuku)
      ensures exit != Some(StopIteration) ==> p <= |polls| && forall k :: p0 <= k < p ==> !StopRequested(polls, k)
      ensures exit == Some(StopIteration) ==>
                && p0 < p && lastBucket.Some? && (forall k :: p0 <= k < p - 1 ==> !StopRequested(polls, k))
                && (StopRequested(polls, p - 1) || maxBatches == Some(batchCount))
    {
      emitted, p, exit := [], p0, None;
      ghost var entry := grid.slots;
      var payload := Acquire(index);
      EffectTransitive(origin, entry, grid.slots, slot, watched, heldOrigin, None, lastBucket);
      if payload.None? {
        exit := Some(Raised(IndexError));
        return;
      }
      ghost var b := lastBucket.value;
      assert payload.value == origin[slot][b].payload;
      emitted, p, exit := EmitBucket(payload.value, polls, p0);
    }

    /** One turn of the `generate` loop: the stop flag is polled at `p`; when it is set
        the run ends with nothing changed, the pending bucket included; otherwise a pass
        (`Pass`) releases the pending bucket and reads `read`, with its per-window polls
        from `p + 1` on. */
    method Round(polls: seq<bool>, p: nat, read: Option<Descriptor>)
      returns (yielded: seq<Option<Batch>>, emitted: seq<Batch>, next: nat, exit: Option<Exit>)
      requires Valid() && p <= |polls|
      modifies this, grid
      ensures Valid()
      ensures Effect(old(grid.slots), grid.slots, slot, watched, old(lastBucket), lastBucket)
      ensures batchCount == old(batchCount) + Delivered(yielded)
      ensures maxBatches.Some? && old(batchCount) <= maxBatches.value ==> batchCount <= maxBatches.value
      ensures exit == Some(Seppuku) <==> StopRequested(polls, p)
      ensures exit == Some(Seppuku) ==>
                && yielded == [] && emitted == [] && next == p && lastBucket == old(lastBucket)
                && grid.slots == old(grid.slots) && releases == old(releases)
      ensures exit != Some(Seppuku) ==>
                && p < next
                && releases == old(releases) + (if old(lastBucket).Some? then 1 else 0)
                && Pass(old(grid.slots), old(lastBucket), old(batchCount), polls, p + 1, read,
                        yielded, emitted, next, exit, grid.slots, lastBucket)
      ensures exit != Some(StopIteration) ==> next <= |polls| && forall k :: p <= k < next ==> !StopRequested(polls, k)
      ensures exit == Some(StopIteration) ==>
                && lastBucket.Some? && (forall k :: p <= k < next - 1 ==> !StopRequested(polls, k))
                && (StopRequested(polls, next - 1) || maxBatches == Some(batchCount))
    {
      if StopRequested(polls, p) {
        return [], [], p, Some(Seppuku);
      }
      yielded, emitted, next, exit := Iteration(polls, p + 1, read);
    }

    /** `generate`: the whole run of one generator. `polls` scripts the answers of
        `should_stop()` and `inbox` the results of the non-blocking channel reads (`None`
        for an empty read, which only sleeps); `pEnd` is the index of the poll that
        answered stop on seppuku, and one past the last poll otherwise.
        The count of mini-batches yielded is `batch_count`, never above the cap. The run
        ends with the stop flag seen at the top of the loop (every earlier poll clear),
        with StopIteration from the stop flag or the cap just before a window (every
        earlier poll clear), or with an exception (every poll clear). The generator's releases
        trail its acquisitions by at most one; its grid effect is confined to its own
        slot, with `entered - released - held` kept in watched mode; and a run that ends
        with StopIteration leaves a bucket acquired and never released. */
    method Generate(polls: seq<bool>, inbox: seq<Option<Descriptor>>)
      returns (out: seq<Option<Batch>>, exit: Exit, pEnd: nat)
      requires Valid()
      modifies this, grid
      ensures Valid()
      ensures batchCount == Delivered(out)
      ensures maxBatches.Some? ==> batchCount <= maxBatches.value
      ensures exit != StopIteration ==> forall k :: 0 <= k < pEnd ==> !StopRequested(polls, k)
      ensures exit == Seppuku ==> StopRequested(polls, pEnd)
      ensures exit == StopIteration ==>
                && 0 < pEnd && (forall k :: 0 <= k < pEnd - 1 ==> !StopRequested(polls, k))
                && (StopRequested(polls, pEnd - 1) || maxBatches == Some(batchCount))
      ensures releases <= acquisitions <= releases + 1
      ensures exit == StopIteration ==> lastBucket.Some?
      ensures Effect(old(grid.slots), grid.slots, slot, watched, old(lastBucket), lastBucket)
    {
      batchCount := 0;
      out := [];
      var p: nat := 0;
      var r: nat := 0;
      while true
        invariant Valid() && p <= |polls|
        invariant batchCount == Delivered(out)
        invariant maxBatches.Some? ==> batchCount <= maxBatches.value
        invariant forall k :: 0 <= k < p ==> !StopRequested(polls, k)
        invariant Effect(old(grid.slots), grid.slots, slot, watched, old(lastBucket), lastBucket)
        decreases |polls| - p
      {
        var read := if r < |inbox| then inbox[r] else None;
        r := r + 1;
        ghost var before, heldBefore := grid.slots, lastBucket;
        var yielded, emitted, next, stopped := Round(polls, p, read);
        EffectTransitive(old(grid.slots), before, grid.slots, slot, watched,
                         old(lastBucket), heldBefore, lastBucket);
        DeliveredConcat(out, yielded);
        out := out + yielded;
        if stopped.Some? {
          exit, pEnd := stopped.value, next;
          return;
        }
        p := next;
      }
    }
  }
}
