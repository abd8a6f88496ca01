/** Python's own semantics for the few built-in operations the data provider leans on:
    indexing with negative positions, clamped slicing, `range` with a positive step,
    and the exceptions that escape the modelled code. */
module PySemantics {

  datatype Option<T> = None | Some(value: T)

  /** The exceptions the data provider raises and does not catch itself. */
  datatype Exception = IndexError | ValueError

  datatype Result<T> = Ok(value: T) | Err(error: Exception)

  /** The answer of the p-th call of a worker's `should_stop()`, from a script of
      answers; once the script is used up the flag reads as set. */
  function StopRequested(polls: seq<bool>, p: nat): bool
  {
    p >= |polls| || polls[p]
  }

  /** The element position `xs[i]` denotes in a list of length `len`: a non-negative `i`
      counts from the front, a negative one from the back; anything else is an IndexError. */
  function Position(len: nat, i: int): (r: Option<nat>)
    ensures r.Some? <==> -(len as int) <= i < len
    ensures r.Some? ==> r.value < len && r.value == (if i < 0 then len + i else i)
  {
    if 0 <= i < len then Some(i)
    else if -(len as int) <= i < 0 then Some(len + i)
    else None
  }

  /** `s[i:j]` for `0 <= i <= j`: both bounds are clamped to the length of `s`. */
  function Slice<T>(s: seq<T>, i: nat, j: nat): (r: seq<T>)
    requires i <= j
    ensures |r| == (if j <= |s| then j - i else if i <= |s| then |s| - i else 0)
    ensures forall k :: 0 <= k < |r| ==> r[k] == s[i + k]
  {
    if |s| <= i then []
    else if |s| <= j then s[i..]
    else s[i..j]
  }

  /** `range(start, stop, step)` for a positive step. */
  function Range(start: nat, stop: nat, step: nat): seq<nat>
    requires step > 0
    decreases stop - start
  {
    if start >= stop then [] else [start] + Range(start + step, stop, step)
  }

  /** The k-th element of `range(start, stop, step)` is `start + k * step`, below `stop`. */
  lemma {:induction false} RangeAt(start: nat, stop: nat, step: nat, k: nat)
    requires step > 0
    requires k < |Range(start, stop, step)|
    ensures Range(start, stop, step)[k] == start + k * step < stop
    decreases k
  {
    if k > 0 {
      RangeAt(start + step, stop, step, k - 1);
      Distribute(k - 1, step);
    }
  }

  /** `range(start, stop, step)` stops at the first value that is not below `stop`:
      its last element plus `step` reaches `stop`. */
  lemma {:induction false} RangeEnd(start: nat, stop: nat, step: nat)
    requires step > 0
    ensures start >= stop <==> Range(start, stop, step) == []
    ensures start < stop ==> start + |Range(start, stop, step)| * step >= stop
    decreases stop - start
  {
    if start + step < stop {
      var rest := Range(start + step, stop, step);
      RangeEnd(start + step, stop, step);
      Distribute(|rest|, step);
    }
  }

  lemma Distribute(k: nat, step: nat)
    ensures (k + 1) * step == k * step + step
  {
  }

  /** `range(0, n, step)` has exactly ceil(n / step) elements. */
  lemma RangeLength(n: nat, step: nat)
    requires step > 0
    ensures |Range(0, n, step)| == (n + step - 1) / step
  {
    var len := |Range(0, n, step)|;
    RangeEnd(0, n, step);
    if n == 0 {
      assert len == 0;
    } else {
      assert len > 0;
      assert (len - 1) * step < n by {
        RangeAt(0, n, step, len - 1);
      }
      assert len * step >= n;
      CeilingDivision(n, step, len);
    }
  }

  /** An integer `q` with `(q - 1) * d < n <= q * d` is ceil(n / d). */
  lemma CeilingDivision(n: nat, d: nat, q: nat)
    requires d > 0 && q > 0
    requires (q - 1) * d < n <= q * d
    ensures q == (n + d - 1) / d
  {
    var m := n + d - 1;
    assert q * d <= m by {
      assert (q - 1) * d == q * d - d;
    }
    assert m < (q + 1) * d by {
      assert (q + 1) * d == q * d + d;
    }
    DivisionBetween(m, d, q);
  }

  lemma DivisionBetween(m: nat, d: nat, q: nat)
    requires d > 0
    requires q * d <= m < (q + 1) * d
    ensures m / d == q
  {
    var r := m / d;
    assert m == r * d + m % d && m % d < d;
    Distribute(r, d);
    if r < q {
      MulMonotone(r + 1, q, d);
      assert false;
    } else if r > q {
      MulMonotone(q + 1, r, d);
      assert false;
    }
  }

  lemma MulMonotone(a: nat, b: nat, d: nat)
    requires a <= b
    ensures a * d <= b * d
  {
  }
}
