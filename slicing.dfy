/** Carving a bucket payload into mini-batches: every array of the payload is cut with
    the same window `[start, start + size)`, for start = 0, size, 2 * size, ... below
    the length of the first array. */
module Slicing {
  import opened PySemantics

  /** The mini-batch start offsets for `samples` samples: `range(0, samples, size)`. */
  function Offsets(samples: nat, size: nat): seq<nat>
    requires size > 0
  {
    Range(0, samples, size)
  }

  /** The aligned window `[start, start + size)` of every array of a payload. */
  function Window<T>(payload: seq<seq<T>>, start: nat, size: nat): seq<seq<T>>
  {
    seq(|payload|, k requires 0 <= k < |payload| => Slice(payload[k], start, start + size))
  }

  /** The windows at the given offsets, in order. */
  function Batches<T>(payload: seq<seq<T>>, offsets: seq<nat>, size: nat): seq<seq<seq<T>>>
  {
    if offsets == [] then []
    else [Window(payload, offsets[0], size)] + Batches(payload, offsets[1..], size)
  }

  /** The mini-batches of a payload; the sample count is taken from its first array. */
  function MiniBatches<T>(payload: seq<seq<T>>, size: nat): seq<seq<seq<T>>>
    requires |payload| > 0 && size > 0
  {
    Batches(payload, Offsets(|payload[0]|, size), size)
  }

  /** The pieces one array is cut into at the given offsets. */
  function Pieces<T>(s: seq<T>, offsets: seq<nat>, size: nat): seq<seq<T>>
  {
    if offsets == [] then []
    else [Slice(s, offsets[0], offsets[0] + size)] + Pieces(s, offsets[1..], size)
  }

  function Concat<T>(ss: seq<seq<T>>): seq<T>
  {
    if ss == [] then [] else ss[0] + Concat(ss[1..])
  }

  /** Position `k` of every batch, in batch order. */
  function Column<T>(batches: seq<seq<seq<T>>>, k: nat): seq<seq<T>>
    requires forall i :: 0 <= i < |batches| ==> k < |batches[i]|
  {
    seq(|batches|, i requires 0 <= i < |batches| => batches[i][k])
  }

  /** Builds one mini-batch the way the generator does: position by position, each
      array's window `[start, start + size)`. */
  method CutBatch<T>(payload: seq<seq<T>>, start: nat, size: nat) returns (batch: seq<seq<T>>)
    ensures batch == Window(payload, start, size)
    ensures |batch| == |payload|
    ensures forall k :: 0 <= k < |batch| ==> |batch[k]| <= size
  {
    batch := [];
    for k := 0 to |payload|
      invariant |batch| == k
      invariant forall j :: 0 <= j < k ==> batch[j] == Slice(payload[j], start, start + size)
    {
      batch := batch + [Slice(payload[k], start, start + size)];
    }
  }

  lemma {:induction false} PiecesAt<T>(s: seq<T>, offsets: seq<nat>, size: nat, i: nat)
    requires i < |offsets|
    ensures |Pieces(s, offsets, size)| == |offsets|
    ensures Pieces(s, offsets, size)[i] == Slice(s, offsets[i], offsets[i] + size)
    decreases i
  {
    PiecesLength(s, offsets, size);
    if i > 0 {
      PiecesAt(s, offsets[1..], size, i - 1);
    }
  }

  lemma {:induction false} PiecesLength<T>(s: seq<T>, offsets: seq<nat>, size: nat)
    ensures |Pieces(s, offsets, size)| == |offsets|
    decreases |offsets|
  {
    if offsets != [] {
      PiecesLength(s, offsets[1..], size);
    }
  }

  /** Concatenating the pieces cut at offsets `start`, `start + size`, ... gives back
      the array from `start` on. */
  lemma {:induction false} PiecesFrom<T>(s: seq<T>, start: nat, size: nat)
    requires size > 0 && start <= |s|
    ensures Concat(Pieces(s, Range(start, |s|, size), size)) == s[start..]
    decreases |s| - start
  {
    var offsets := Range(start, |s|, size);
    if start < |s| {
      assert offsets[0] == start && offsets[1..] == Range(start + size, |s|, size);
      if start + size <= |s| {
        PiecesFrom(s, start + size, size);
        assert s[start..] == s[start..start + size] + s[start + size..];
      } else {
        assert Range(start + size, |s|, size) == [];
      }
    } else {
      assert offsets == [];
    }
  }

  /** The round-trip law for one array: concatenating its mini-batch pieces
      reproduces it exactly. */
  lemma PiecesRoundTrip<T>(s: seq<T>, size: nat)
    requires size > 0
    ensures Concat(Pieces(s, Offsets(|s|, size), size)) == s
  {
    PiecesFrom(s, 0, size);
  }

  /** Every piece holds `size` elements, except the last, which holds between 1 and
      `size`; the number of pieces is ceil(|s| / size). */
  lemma PieceSizes<T>(s: seq<T>, size: nat)
    requires size > 0
    ensures |Pieces(s, Offsets(|s|, size), size)| == (|s| + size - 1) / size
    ensures forall i :: 0 <= i < |Pieces(s, Offsets(|s|, size), size)| - 1 ==>
              |Pieces(s, Offsets(|s|, size), size)[i]| == size
    ensures var pieces := Pieces(s, Offsets(|s|, size), size);
              |s| > 0 ==> |pieces| > 0 && 0 < |pieces[|pieces| - 1]| <= size
  {
    var offsets := Offsets(|s|, size);
    var pieces := Pieces(s, offsets, size);
    PiecesLength(s, offsets, size);
    RangeLength(|s|, size);
    RangeEnd(0, |s|, size);
    forall i | 0 <= i < |pieces| - 1
      ensures |pieces[i]| == size
    {
      PiecesAt(s, offsets, size, i);
      RangeAt(0, |s|, size, i);
      RangeAt(0, |s|, size, i + 1);
      Distribute(i, size);
    }
    if |s| > 0 {
      var last := |offsets| - 1;
      PiecesAt(s, offsets, size, last);
      RangeAt(0, |s|, size, last);
      Distribute(last, size);
    }
  }

  lemma {:induction false} BatchesLength<T>(payload: seq<seq<T>>, offsets: seq<nat>, size: nat)
    ensures |Batches(payload, offsets, size)| == |offsets|
    ensures forall i :: 0 <= i < |offsets| ==>
              Batches(payload, offsets, size)[i] == Window(payload, offsets[i], size)
    decreases |offsets|
  {
    if offsets != [] {
      BatchesLength(payload, offsets[1..], size);
    }
  }

  /** The batch at one offset, on its own. */
  lemma BatchAt<T>(payload: seq<seq<T>>, offsets: seq<nat>, size: nat, i: nat)
    requires i < |offsets|
    ensures |Batches(payload, offsets, size)| == |offsets|
    ensures Batches(payload, offsets, size)[i] == Window(payload, offsets[i], size)
  {
    BatchesLength(payload, offsets, size);
  }

  /** Position `k` across the batches is exactly array `k` cut at the same offsets. */
  lemma ColumnOfBatches<T>(payload: seq<seq<T>>, offsets: seq<nat>, size: nat, k: nat)
    requires k < |payload|
    ensures forall i :: 0 <= i < |Batches(payload, offsets, size)| ==> k < |Batches(payload, offsets, size)[i]|
    ensures Column(Batches(payload, offsets, size), k) == Pieces(payload[k], offsets, size)
  {
    BatchesLength(payload, offsets, size);
    PiecesLength(payload[k], offsets, size);
    forall i | 0 <= i < |offsets|
      ensures Column(Batches(payload, offsets, size), k)[i] == Pieces(payload[k], offsets, size)[i]
    {
      PiecesAt(payload[k], offsets, size, i);
    }
  }

  /** A payload of S samples gives ceil(S / size) mini-batches; mini-batch i starts at
      sample i * size, below S, and holds the same window of every array. */
  lemma MiniBatchCount<T>(payload: seq<seq<T>>, size: nat)
    requires |payload| > 0 && size > 0
    ensures |MiniBatches(payload, size)| == (|payload[0]| + size - 1) / size
    ensures forall i :: 0 <= i < |MiniBatches(payload, size)| ==>
              i * size < |payload[0]| &&
              MiniBatches(payload, size)[i] == Window(payload, i * size, size)
  {
    var offsets := Offsets(|payload[0]|, size);
    BatchesLength(payload, offsets, size);
    RangeLength(|payload[0]|, size);
    forall i | 0 <= i < |offsets|
      ensures i * size < |payload[0]| && MiniBatches(payload, size)[i] == Window(payload, i * size, size)
    {
      RangeAt(0, |payload[0]|, size, i);
    }
  }

  /** When every array has the same length, the mini-batches are aligned: within each
      mini-batch every array holds the same number of samples, and concatenating
      position k across all mini-batches reproduces array k. */
  lemma MiniBatchesRoundTrip<T>(payload: seq<seq<T>>, size: nat)
    requires |payload| > 0 && size > 0
    requires forall k :: 0 <= k < |payload| ==> |payload[k]| == |payload[0]|
    ensures forall i :: 0 <= i < |MiniBatches(payload, size)| ==>
              |MiniBatches(payload, size)[i]| == |payload|
    ensures forall i, k :: 0 <= i < |MiniBatches(payload, size)| && 0 <= k < |payload| ==>
              |MiniBatches(payload, size)[i][k]| == |MiniBatches(payload, size)[i][0]|
    ensures forall k :: 0 <= k < |payload| ==>
              Concat(Column(MiniBatches(payload, size), k)) == payload[k]
  {
    var offsets := Offsets(|payload[0]|, size);
    BatchesLength(payload, offsets, size);
    forall k | 0 <= k < |payload|
      ensures Concat(Column(MiniBatches(payload, size), k)) == payload[k]
    {
      ColumnOfBatches(payload, offsets, size, k);
      PiecesRoundTrip(payload[k], size);
    }
  }

  /** Batch size 2 over `[[10, 20, 30, 40, 50]]`: two full windows and a short last one. */
  lemma FiveSamplesInPairs()
    ensures MiniBatches([[10, 20, 30, 40, 50]], 2) == [[[10, 20]], [[30, 40]], [[50]]]
  {
    var p := [[10, 20, 30, 40, 50]];
    assert Range(6, 5, 2) == [];
    assert Range(4, 5, 2) == [4];
    assert Range(2, 5, 2) == [2, 4];
    assert Offsets(5, 2) == [0, 2, 4];
    assert Slice(p[0], 0, 2) == [10, 20];
    assert Slice(p[0], 2, 4) == [30, 40];
    assert Slice(p[0], 4, 6) == [50];
    assert Window(p, 4, 2) == [[50]];
    assert Batches(p, [4], 2) == [[[50]]];
    assert Window(p, 2, 2) == [[30, 40]];
    assert Batches(p, [2, 4], 2) == [[[30, 40]], [[50]]];
    assert Window(p, 0, 2) == [[10, 20]];
  }
}
