/** The shared-memory bucket grid: an ordered sequence of producer slots, each an
    ordered sequence of buckets. A bucket is the 4-element record
    `[occupied, payload, entered, released]` of the data provider. */
module BucketGrid {

  /** One cell of a sample. Payload arrays hold numbers; a translated column holds a
      file name next to a number. */
  datatype Cell = Num(n: int) | Text(s: string)

  /** One sample (one row along the sample axis) of a payload array. */
  type Sample = seq<Cell>

  /** A payload is a tuple of arrays that are meant to have equal length. */
  type Payload = seq<seq<Sample>>

  datatype Bucket = Bucket(occupied: int, payload: Payload, entered: nat, released: nat)

  type Slots = seq<seq<Bucket>>

  /** The grid object shared by the watcher and every generator; its slot and bucket
      counts are fixed, only bucket fields change. */
  class SharedGrid {
    var slots: Slots

    constructor (slots: Slots)
      ensures this.slots == slots
    {
      this.slots := slots;
    }
  }

  /** Two grids have the same slots, each with the same number of buckets. */
  ghost predicate SameShape(a: Slots, b: Slots) {
    |a| == |b| && forall s :: 0 <= s < |a| ==> |a[s]| == |b[s]|
  }

  ghost predicate ValidBucket(slots: Slots, s: int, b: int) {
    0 <= s < |slots| && 0 <= b < |slots[s]|
  }

  /** The counting-protocol invariant of every bucket: 0 <= released <= entered <= n. */
  ghost predicate CountersBounded(slots: Slots, n: nat) {
    forall s, b :: ValidBucket(slots, s, b) ==>
      slots[s][b].released <= slots[s][b].entered <= n
  }
}
