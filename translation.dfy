/** The optional column translation of a mini-batch: every sample `x` at the designated
    position becomes `[file_index_list[int(x[0])], int(x[1])]`. */
module Translation {
  import opened PySemantics
  import opened BucketGrid

  /** A mini-batch: one slice per payload array, in payload order. */
  type Batch = seq<seq<Sample>>

  /** `int(c)`: a number is kept, text raises ValueError. */
  function ToInt(c: Cell): Result<int>
  {
    match c
    case Num(n) => Ok(n)
    case Text(_) => Err(ValueError)
  }

  /** One sample, evaluated left to right: `x[0]`, `int(x[0])`, the file list lookup,
      then `x[1]` and `int(x[1])`; the first failure is the exception raised. */
  function TranslateSample(x: Sample, files: seq<string>): (r: Result<Sample>)
    ensures r.Ok? <==> |x| >= 2 && x[0].Num? && x[1].Num? && Position(|files|, x[0].n).Some?
    ensures r.Ok? ==> r.value == [Text(files[Position(|files|, x[0].n).value]), x[1]]
    ensures r.Err? && |x| >= 1 && x[0].Num? && Position(|files|, x[0].n).None? ==> r.error == IndexError
  {
    if |x| == 0 then Err(IndexError)
    else match ToInt(x[0])
      case Err(e) => Err(e)
      case Ok(i) =>
        match Position(|files|, i)
        case None => Err(IndexError)
        case Some(j) =>
          if |x| < 2 then Err(IndexError)
          else match ToInt(x[1])
            case Err(e) => Err(e)
            case Ok(n) => Ok([Text(files[j]), Num(n)])
  }

  /** The `map` over one column: every sample translated in order; the first sample
      that fails stops the whole column with its exception. */
  function TranslateColumn(rows: seq<Sample>, files: seq<string>): Result<seq<Sample>>
  {
    if rows == [] then Ok([])
    else match TranslateSample(rows[0], files)
      case Err(e) => Err(e)
      case Ok(x) =>
        match TranslateColumn(rows[1..], files)
        case Err(e) => Err(e)
        case Ok(xs) => Ok([x] + xs)
  }

  /** A column translates exactly when every sample does, and then sample by sample;
      otherwise the exception is the one of the first sample that fails. */
  lemma {:induction false} TranslateColumnSpec(rows: seq<Sample>, files: seq<string>)
    ensures TranslateColumn(rows, files).Ok? <==> forall i :: 0 <= i < |rows| ==> TranslateSample(rows[i], files).Ok?
    ensures TranslateColumn(rows, files).Ok? ==>
              && |TranslateColumn(rows, files).value| == |rows|
              && forall i :: 0 <= i < |rows| ==>
                   TranslateColumn(rows, files).value[i] == TranslateSample(rows[i], files).value
    ensures TranslateColumn(rows, files).Err? ==>
              exists i :: 0 <= i < |rows| && TranslateSample(rows[i], files) == Err(TranslateColumn(rows, files).error) &&
                          (forall j :: 0 <= j < i ==> TranslateSample(rows[j], files).Ok?)
    decreases |rows|
  {
    if rows != [] {
      TranslateColumnSpec(rows[1..], files);
      assert forall i :: 0 < i < |rows| ==> rows[i] == rows[1..][i - 1];
      match TranslateSample(rows[0], files) {
        case Err(e) =>
          assert TranslateSample(rows[0], files) == Err(TranslateColumn(rows, files).error);
        case Ok(x) =>
          match TranslateColumn(rows[1..], files) {
            case Err(e) =>
              var i :| 0 <= i < |rows[1..]| && TranslateSample(rows[1..][i], files) == Err(e) &&
                       forall j :: 0 <= j < i ==> TranslateSample(rows[1..][j], files).Ok?;
              assert TranslateSample(rows[i + 1], files) == Err(TranslateColumn(rows, files).error);
            case Ok(xs) =>
          }
      }
    }
  }

  /** Translation of position `col` of a mini-batch. */
  function Translate(batch: Batch, col: int, files: seq<string>): Result<Batch>
  {
    if col == 0 then Ok(batch)
    else match Position(|batch|, col)
      case None => Err(IndexError)
      case Some(j) =>
        match TranslateColumn(batch[j], files)
        case Err(e) => Err(e)
        case Ok(c) => Ok(batch[j := c])
  }

  /** A `col` of 0 is falsy, so position 0 is never translated and the batch is kept; a
      `col` outside the batch raises IndexError; otherwise the batch translates exactly
      when every sample at that position does, and then only that position changes, each
      of its samples replaced by its translation. */
  lemma TranslateSpec(batch: Batch, col: int, files: seq<string>)
    ensures col == 0 ==> Translate(batch, col, files) == Ok(batch)
    ensures col != 0 && Position(|batch|, col).None? ==> Translate(batch, col, files) == Err(IndexError)
    ensures col != 0 && Position(|batch|, col).Some? ==>
              var j, r := Position(|batch|, col).value, Translate(batch, col, files);
              && (r.Ok? <==> forall i :: 0 <= i < |batch[j]| ==> TranslateSample(batch[j][i], files).Ok?)
              && (r.Ok? ==> |r.value| == |batch| && |r.value[j]| == |batch[j]|
                            && (forall i :: 0 <= i < |batch[j]| ==> r.value[j][i] == TranslateSample(batch[j][i], files).value)
                            && forall k :: 0 <= k < |batch| && k != j ==> r.value[k] == batch[k])
  {
    if col != 0 && Position(|batch|, col).Some? {
      TranslateColumnSpec(batch[Position(|batch|, col).value], files);
    }
  }
}
