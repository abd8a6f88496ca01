# adlkit data provider: the bucket protocol, in Dafny

This project models the core of the adlkit data provider. That core is the protocol by
which a watcher process and several generator processes share a fixed grid of
shared-memory buckets.

The bucket grid is a sequence of producer slots, each a sequence of buckets. A bucket is
the record `[occupied, payload, entered, released]`:

- `occupied` is a flag.
- `payload` is a tuple of arrays that are cut together.
- `entered` and `released` are counters.

**The generator (`BaseGenerator.generate`).** In each pass of its loop the generator:

1. releases the bucket it acquired in the previous pass. In watched mode this raises the
   bucket's `released` counter; in unwatched mode it clears `occupied`.
2. reads one descriptor `(bucket_index, data_sets, batch_id)` from its own channel without
   blocking.
3. acquires the bucket the descriptor names. In watched mode this raises `entered`.
4. cuts every payload array with the same window `[i, i + batch_size)`, for
   i = 0, batch_size, 2 * batch_size, ...
5. before each yield, checks the stop flag and the `max_batches` cap. It can also
   translate one column to file names and pass the mini-batch through a delivery
   function.

**The watcher (`BaseWatcher.watch`).** In each pass of its loop the watcher:

1. reads one descriptor from the notification queue.
2. puts the descriptor into every generator queue, in list order, and counts it.
3. sweeps the whole grid. The sweep resets every bucket whose `entered` and `released`
   both equal the number of generators.

The model is sequential. Each lock-scoped update is one atomic step on a shared
`SharedGrid` object. `Generators.Generator` and `Watchers.Watcher` are classes whose
methods update the grid in place. Each method is proved against a pure update function
(`Enter`, `Leave`, `Vacate`, `Swept`).

The module `Protocol` composes those same functions into transitions of a `World`:

- the grid;
- the slot each generator reads;
- the bucket each generator still holds.

An interleaving of generators and watcher is any sequence of these transitions.

The central invariant is that every bucket's `entered` exceeds its `released` by exactly
the number of generators holding it. It is proved to be kept by:

- the release step;
- the acquire step;
- the sweep.

Under that invariant the sweep reclaims a bucket exactly when no generator holds it and
all generators have entered it.

The generator proof also shows a hazard of the source. The release of a bucket is
deferred to the start of the next loop pass, so a generator can end while still holding
the bucket it acquired last, and it never releases that bucket:

- A run that ends with `StopIteration` (cap reached or stop flag seen before a yield)
  always holds one.
- A run that ends with seppuku, because the stop flag is set at the loop test after a
  pass that acquired a bucket, holds that bucket too: `Generators.Generator.Round`
  leaves the pending bucket and the grid untouched on that exit.

That bucket's `entered` stays above `released`, and the sweep never reclaims it.

Inputs the source takes from its environment become parameters:

- `should_stop()` becomes a script of answers, one per call. Once the script is used up,
  the flag reads as set.
- The channel reads become scripts of read results. Once a script is used up, each read
  comes back empty.
- `delivery_function` becomes a caller-supplied function value.

The model follows the code in these points:

- The descriptor is a 3-tuple.
- The watcher counts a descriptor even when its multicast failed.
- A generator stopped inside a bucket ends without its shutdown hook and without
  releasing that bucket.
- `batch_size` may be any integer. A batch size of 0 makes `range` raise ValueError at
  the first bucket whose payload tuple is not empty. A negative batch size gives no
  mini-batches, so every bucket is acquired and passed over.
- The cap check is `batch_count == max_batches`, made before each window. With enough
  windows and a clear stop flag, a run yields exactly `max_batches` mini-batches and
  then ends with StopIteration.

## Model

| member | source | states |
|---|---|---|
| PySemantics.Position | adlkit/data_provider/generators.py:144 | Python list indexing: a position exists exactly for -len <= i < len, negative indices count from the back, otherwise IndexError |
| PySemantics.Slice | adlkit/data_provider/generators.py:133 | `s[i:j]` clamps to the length: the result has min(j,len) - i elements (none past the end) and holds `s[i + k]` at k |
| PySemantics.RangeAt | adlkit/data_provider/generators.py:130 | the k-th mini-batch offset from `range(start, stop, step)` is start + k * step and lies below stop |
| PySemantics.RangeEnd | adlkit/data_provider/generators.py:130 | the offsets stop at the first value not below stop: empty exactly when start >= stop, and last offset + step reaches stop |
| PySemantics.RangeLength | adlkit/data_provider/generators.py:130 | a payload of S samples gives exactly ceil(S / batch_size) offsets |
| Slicing.Window | adlkit/data_provider/generators.py:131-133 | definition: one mini-batch, every payload array cut with the same window `[start, start + size)`; `Slicing.CutBatch` is proved against it |
| Slicing.MiniBatches | adlkit/data_provider/generators.py:130-133 | definition: the windows at the offsets of `range(0, len(payload[0]), batch_size)`, in order; `Slicing.MiniBatchCount`, `Slicing.ColumnOfBatches` and `Slicing.MiniBatchesRoundTrip` state its properties |
| Slicing.CutBatch | adlkit/data_provider/generators.py:131-133 | the batch built position by position holds, for every payload array, its window `[start, start + size)`, each at most `size` long |
| Slicing.PiecesRoundTrip | adlkit/data_provider/generators.py:130-133 | concatenating the slices of one array at offsets 0, B, 2B, ... reproduces the array exactly |
| Slicing.PieceSizes | adlkit/data_provider/generators.py:130-133 | an array of S samples is cut into ceil(S / B) slices, each of exactly B samples except the last, which has between 1 and B |
| Slicing.ColumnOfBatches | adlkit/data_provider/generators.py:132-133 | position k across all mini-batches is array k cut at the same offsets: every array is sliced with the same window |
| Slicing.MiniBatchCount | adlkit/data_provider/generators.py:130 | a payload whose first array has S samples gives ceil(S / B) mini-batches, the i-th being the window starting at i * B < S |
| Slicing.MiniBatchesRoundTrip | adlkit/data_provider/generators.py:130-133 | for equal-length arrays, each mini-batch holds equally long slices of every array, and concatenating position k across the mini-batches reproduces array k |
| Slicing.FiveSamplesInPairs | adlkit/data_provider/generators.py:130-133 | batch size 2 over [[10,20,30,40,50]] gives [[10,20]], [[30,40]], [[50]] in that order |
| Translation.TranslateSample | adlkit/data_provider/generators.py:144 | a row translates exactly when it has at least two cells, both numeric, and the first is a valid Python index into the file list; the result is exactly `[file_index_list[int(x[0])], int(x[1])]`; a bad file index raises IndexError |
| Translation.TranslateColumn | adlkit/data_provider/generators.py:144-145 | definition: the `map` over one column, stopped by the first row that fails; `Translation.TranslateColumnSpec` states its properties |
| Translation.TranslateColumnSpec | adlkit/data_provider/generators.py:144-145 | the column translates exactly when every row does, row by row in order; otherwise the exception is that of the first failing row |
| Translation.Translate | adlkit/data_provider/generators.py:143-147 | definition: the column translation switched on by a truthy column index; `Translation.TranslateSpec` states its properties |
| Translation.TranslateSpec | adlkit/data_provider/generators.py:143-147 | a falsy (0) column index leaves the batch as is, so position 0 is never translated; an index outside the batch raises IndexError; otherwise the batch translates exactly when every sample at that position does, and then only that position changes, sample by sample |
| Generators.Enter | adlkit/data_provider/generators.py:118-123 | acquisition raises the entered counter of exactly one bucket by one; no other field or bucket changes and the grid keeps its shape |
| Generators.Leave | adlkit/data_provider/generators.py:79-84 | watched release raises the released counter of exactly one bucket by one; no other field or bucket changes |
| Generators.Vacate | adlkit/data_provider/generators.py:85-87 | unwatched release sets the occupied flag of one bucket to 0 and leaves both counters and every other bucket untouched |
| Generators.AfterRelease | adlkit/data_provider/generators.py:77-93 | the deferred release as a grid value: with a pending bucket, only that bucket changes, its released counter rising by one when watched and its occupied flag cleared otherwise; with nothing pending the grid is unchanged |
| Generators.DeliveredConcat | adlkit/data_provider/generators.py:157 | the count of yielded mini-batches over two stretches of yields is the sum of their counts |
| Generators.DeliveredYields | adlkit/data_provider/generators.py:152-157 | each yielded mini-batch counts once |
| Generators.Generator.Emission | adlkit/data_provider/generators.py:128-157 | definition: the outcomes of emitting one bucket, with IndexError for an empty payload tuple, ValueError for a zero batch size and no windows for a negative one; for a positive size the yields are a prefix of the prepared windows after clear polls below the cap, ending as all windows, StopIteration, or the next window's exception |
| Generators.Generator.EmissionDeterministic | adlkit/data_provider/generators.py:128-157 | two outcomes `Generators.Generator.Emission` allows for the same payload, polls and count are equal: the contract of `Generators.Generator.EmitBucket` fixes its result |
| Generators.Generator.constructor | adlkit/data_provider/generators.py:31-57 | a new generator keeps its configuration, any integer batch size included, holds no bucket (last_bucket_index is None) and has acquired and released nothing |
| Generators.Generator.Prepare | adlkit/data_provider/generators.py:143-152 | definition: a mini-batch as handed to the caller, translated when switched on and then passed through the delivery function if there is one; the translation exception, if any, is the result |
| Generators.Generator.Release | adlkit/data_provider/generators.py:77-93 | the pending bucket, if any, is released (released + 1 when watched, occupied := 0 otherwise) and nothing is pending afterwards; with nothing pending the grid is unchanged |
| Generators.Generator.Acquire | adlkit/data_provider/generators.py:118-127 | a bucket index valid in the slot makes that bucket pending and returns its payload, raising its entered counter only in watched mode; an invalid index is an IndexError with no change |
| Generators.Generator.EmitBucket | adlkit/data_provider/generators.py:130-157 | the result is the one `Generators.Generator.Emission` allows: an empty payload tuple raises IndexError and a batch size of 0 ValueError before any poll, a negative one yields nothing; otherwise the yields are the prepared mini-batches in order, each after a clear poll and below the cap; all are yielded unless StopIteration (stop flag or batch_count == max_batches at that window) or the exception of preparing the next window; batch_count rises once per yield and never passes the cap |
| Generators.Generator.EmitWindows | adlkit/data_provider/generators.py:130-157 | for a positive batch size: the yields are a prefix of the prepared mini-batches, one poll per window; the pass ends with every window yielded, with StopIteration when the stop flag or the cap trips at the next window, or with that window's translation exception, raised only after a clear poll below the cap |
| Generators.Generator.Step | adlkit/data_provider/generators.py:131-152 | the i-th window is cut at the i-th offset and offered: StopIteration exactly when the stop flag is set or the cap is reached, otherwise the i-th prepared mini-batch or its exception |
| Generators.Generator.Offer | adlkit/data_provider/generators.py:137-152 | before each yield: StopIteration exactly when the stop flag is set or batch_count == max_batches; otherwise the translated and delivered mini-batch, or the exception its translation raises |
| Generators.Generator.Pass | adlkit/data_provider/generators.py:77-161 | definition: one pass of the loop as a relation between the grid and pending bucket before and after, the read, the polls and the yields: the pending bucket is released (`Generators.AfterRelease`); an empty read yields nothing and a malformed descriptor yields `None`, with nothing pending; a bucket index outside the slot raises IndexError with nothing pending; otherwise that bucket is entered when watched, becomes pending, and its payload is emitted exactly as `Generators.Generator.Emission` allows; `Generators.Generator.EmissionDeterministic` makes the outcome unique |
| Generators.Generator.Iteration | adlkit/data_provider/generators.py:77-161 | one loop pass after a clear stop flag does exactly what `Generators.Generator.Pass` states for the read; releases rise by one exactly when a bucket was pending; batch_count rises by the number of mini-batches yielded and never passes the cap; its polls are all clear unless it ends with StopIteration, which leaves a bucket pending |
| Generators.Generator.Take | adlkit/data_provider/generators.py:112-157 | a well-formed descriptor: its index names a bucket of the slot (Python indexing) that is entered when watched, becomes pending and whose payload is emitted as `Generators.Generator.Emission` allows, or IndexError with nothing pending and the grid unchanged |
| Generators.Generator.Round | adlkit/data_provider/generators.py:71-161 | one turn of the loop: the run ends (seppuku) exactly when the stop flag is set at the loop test, with nothing yielded and the grid and the pending bucket untouched; otherwise the turn is one pass exactly as `Generators.Generator.Pass` states for the read, with its polls from the next index on; its polls after the loop test are all clear unless it ends with StopIteration |
| Generators.Generator.Generate | adlkit/data_provider/generators.py:69-165 | batch_count, reset to 0 at the start, equals the number of mini-batches yielded and never passes max_batches; the run ends with seppuku at the first poll that answers stop, with StopIteration from the stop flag or the cap at the last poll (all earlier polls clear), or with an exception (all polls clear); releases trail acquisitions by at most one; only buckets of the generator's slot change, with entered - released - held kept in watched mode and counters untouched in unwatched mode; a StopIteration exit leaves a bucket unreleased |
| Watchers.SweepResetsExactlyTheReclaimable | adlkit/data_provider/watchers.py:88-102 | the sweep keeps the grid's shape, resets a bucket iff entered == released == n_generators (occupied, entered and released to 0, payload kept) and leaves every other bucket unchanged |
| Watchers.SweepIdempotent | adlkit/data_provider/watchers.py:96-102 | a second sweep changes nothing, for any number of generators |
| Watchers.SweepKeepsCountersBounded | adlkit/data_provider/watchers.py:96-102 | the sweep preserves 0 <= released <= entered <= n_generators for every bucket |
| Watchers.Watcher.constructor | adlkit/data_provider/watchers.py:33-41 | n_generators is the number of multicast queues |
| Watchers.Reclaimable | adlkit/data_provider/watchers.py:96 | definition: the sweep's test entered == released == n_generators |
| Watchers.SweptBucket | adlkit/data_provider/watchers.py:96-102 | definition: a bucket that passes the test is reset (flag and both counters to 0), any other is kept; `Watchers.SweepResetsExactlyTheReclaimable` states its properties |
| Watchers.Swept | adlkit/data_provider/watchers.py:88-102 | definition: every bucket of every slot swept; `Watchers.SweepResetsExactlyTheReclaimable`, `Watchers.SweepIdempotent` and `Watchers.SweepKeepsCountersBounded` state its properties |
| Watchers.Watcher.Multicast | adlkit/data_provider/watchers.py:74-79 | the descriptor is appended to each queue in list order up to the first queue whose put raises ValueError; that queue and all later ones keep their contents; nothing is retried |
| Watchers.MulticastedConcat | adlkit/data_provider/watchers.py:74-79 | multicasting one run of descriptors and then another is multicasting their concatenation: a refusing queue refuses at every pass, so the same queues receive both runs and the same ones stay as they were |
| Watchers.Watcher.Sweep | adlkit/data_provider/watchers.py:88-102 | every bucket of every slot is visited and the grid becomes its swept value |
| Watchers.Watcher.Serve | adlkit/data_provider/watchers.py:68-102 | one pass after the loop test: a read carrying a descriptor is counted once and appended to every queue not behind a refusing one, while a refusing queue and every queue after it stay exactly as they were; an empty read or None changes no queue and no count; the grid is then swept |
| Watchers.Watcher.Watch | adlkit/data_provider/watchers.py:58-102 | the loop runs only while the stop flag is clear and batch_count < max_batches: every loop test before the last found the flag clear and the count below the cap, and the last found the flag set or the cap reached; batch_count rises by one per non-None descriptor read, whether or not multicast failed; a queue with no refusing queue at or before it gets every descriptor in order, every other queue is left exactly as it was; the grid ends swept |
| Protocol.GeneratorRelease | adlkit/data_provider/generators.py:77-93 | a watched release keeps the world well formed and leaves the releasing generator holding nothing, every other generator's pending bucket unchanged |
| Protocol.GeneratorAcquire | adlkit/data_provider/generators.py:118-127 | a watched acquisition keeps the world well formed and makes the generator hold the bucket its index names, or nothing when the index is out of range |
| Protocol.WatcherSweep | adlkit/data_provider/watchers.py:88-102 | the sweep moves no generator: slots and pending buckets stay, and a well-formed world stays well formed |
| Protocol.InvBoundsOutstanding | adlkit/data_provider/generators.py:77-127 | under the protocol invariant every bucket has released <= entered <= released + n_generators |
| Protocol.HoldersUpdate | adlkit/data_provider/generators.py:93-127 | changing one generator's pending bucket moves each bucket's holder count by exactly what that generator held before and holds after |
| Protocol.HoldersBounds | adlkit/data_provider/generators.py:127 | a held bucket has at least one holder and no bucket has more holders than there are generators |
| Protocol.ReleaseKeepsInv | adlkit/data_provider/generators.py:77-93 | a watched release keeps entered == released + holders for every bucket |
| Protocol.AcquireKeepsInv | adlkit/data_provider/generators.py:118-127 | a watched acquisition keeps entered == released + holders for every bucket |
| Protocol.SweepKeepsInv | adlkit/data_provider/watchers.py:88-102 | the sweep keeps entered == released + holders for every bucket |
| Protocol.SweepReclaimsOnlyUnheld | adlkit/data_provider/watchers.py:96-102 | under the invariant a bucket passes the sweep's test iff no generator holds it and entered == n_generators; a bucket some generator holds is left unchanged |
| Protocol.ThreeGeneratorsReclaim | adlkit/data_provider/watchers.py:96-102 | three generators entering in order G1, G3, G2 and releasing in order G2, G1, G3 leave the bucket at entered == released == 3, and the sweep then resets it |

## Left out

- Real concurrency and locking. Each lock-scoped block is one atomic step, and this is an assumption, not a proof. In the source the sweep's `with a and b and c` holds only the lock of `released`. The generator raises `entered` under that counter's own lock.
- Queues and channels. Generator reads are a script of `Option<Descriptor>`. Watcher reads are a script of `Empty | Received(item)`. A `put` appends to a sequence. A queue that refuses raises ValueError; the flag stands for whatever makes the real queue raise it. A blocking `put` on a full queue is not modelled.
- Process lifecycle. `should_stop()` is a scripted answer. `sleep()` does nothing. `seppuku()` is the `Seppuku` exit value. The SIGINT handler of `run` is not modelled.
- Logging and all timing.
- `delivery_function` is an arbitrary function from mini-batch to mini-batch. Any exception it raises is not modelled.
- Generators.Generator.Generate: does not say which bucket each yielded mini-batch came from. `Generators.Generator.Round` states that exactly for each turn of the loop, through `Generators.Generator.Pass`; carrying it across turns made the proof too costly.
- Generators.Generator.Iteration: a malformed descriptor yields `None` and ends the pass. The source then falls through with `bucket_index` unbound (a NameError) or stale (a second acquisition of an earlier bucket). That fall-through is not reproduced.
- Laziness. A run is the whole sequence of yields, as if the caller pulls every one. A caller that stops pulling, and Python 2 generator mechanics, are not modelled.
- Payload values. Arrays are sequences of samples made of integer or text cells. Floats, `int()` truncating a float, and `int()` parsing a numeric string are not modelled. `int()` of text is a ValueError.
- The producer, which fills payloads and sets `occupied`, is not part of this model. `Protocol` has no producer transition.
- `workers.py` and `config.py` are not part of this model. The watcher's `batch_count` starts at 0 in the constructor. Worker-id offsets are left out.
- `class_index_map` is only stored by the source and is not modelled.
- `adlkit/data_catalog/abstract.py` has only type-checking asserts and an abstract method, so there is nothing to model.
- The generator stores the bucket index it resolved, which is never negative. The source stores the raw index. Both name the same bucket, because the grid's shape is fixed.
- The `World` of `Protocol` covers watched mode only. Unwatched-mode effects are stated per method: `Generators.Generator.Release`, `Generators.Generator.Acquire`, `Generators.Generator.Generate`.
- Protocol.InvBoundsOutstanding: bounds `entered - released` by n_generators, not `entered` itself. `entered <= n_generators` also needs a producer that never reposts a bucket before it is reclaimed, and the producer is outside the model. `Watchers.SweepKeepsCountersBounded` proves that the sweep preserves the full bound when it holds.
