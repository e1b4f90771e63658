/**
 * Offset arithmetic of the trajectory buffer: the width of one record, the
 * number of records allocated for a run, and the facts about them that the
 * driver and the serializer rely on.
 */
module Layout {

  /** Values in one record: time, nx states, nx derivatives, ny algebraics. */
  function RecordWidth(nx: nat, ny: nat): (w: nat)
    ensures w >= 1
    ensures w == 1 + nx + nx + ny
  {
    1 + 2 * nx + ny
  }

  /** The C conversion `long(r)`: discard the fractional part, rounding toward zero. */
  function Trunc(r: real): (n: int)
    ensures r >= 0.0 ==> 0 <= n && n as real <= r < n as real + 1.0
    ensures r < 0.0 ==> n <= 0 && n as real - 1.0 < r <= n as real
  {
    if r >= 0.0 then r.Floor else -((-r).Floor)
  }

  /** Records allocated for a run: `long((stop - start) / step) + 2`. */
  function NumPoints(start: real, stop: real, step: real): (n: int)
    requires step != 0.0
    ensures (stop - start) / step >= 0.0 ==>
      2 <= n && (n - 2) as real <= (stop - start) / step < (n - 1) as real
    ensures (stop - start) / step < 0.0 ==>
      n <= 2 && (n - 3) as real < (stop - start) / step <= (n - 2) as real
  {
    Trunc((stop - start) / step) + 2
  }

  /** Values allocated for a run: `numpoints * (nx * 2 + ny + 1)`. */
  function Capacity(numPoints: int, nx: nat, ny: nat): (c: int)
    ensures c < 0 <==> numPoints < 0
    ensures c == 0 <==> numPoints == 0
  {
    numPoints * RecordWidth(nx, ny)
  }

  /**
   * Offset of record i in a gapless layout of records of width w. It is
   * `i * w` (RowOffsetIsProduct); the recursive form keeps the buffer's
   * proofs free of non-linear arithmetic.
   */
  function RowOffset(i: nat, w: nat): nat {
    if i == 0 then 0 else RowOffset(i - 1, w) + w
  }

  lemma {:induction false} RowOffsetIsProduct(i: nat, w: nat)
    ensures RowOffset(i, w) == i * w
  {
    if i > 0 {
      RowOffsetIsProduct(i - 1, w);
    }
  }

  lemma {:induction false} RowOffsetMonotone(i: nat, n: nat, w: nat)
    requires i <= n
    ensures RowOffset(i, w) <= RowOffset(n, w)
  {
    if i < n {
      RowOffsetMonotone(i, n - 1, w);
    }
  }

  /** With non-empty records, a layout that fits in n records has at most n of them. */
  lemma RowOffsetGrows(k: nat, n: nat, w: nat)
    requires w >= 1 && RowOffset(k, w) <= RowOffset(n, w)
    ensures k <= n
  {
  }

  /** Cell `col` of record `i` lies inside the first `n` records. */
  lemma CellInRange(i: nat, n: nat, w: nat, col: nat)
    requires i < n && col < w
    ensures RowOffset(i, w) + col < RowOffset(n, w)
  {
  }

  /** For a forward run over a non-negative horizon, the truncation is a floor. */
  lemma {:induction false} NumPointsForward(start: real, stop: real, step: real)
    requires step > 0.0 && start <= stop
    ensures NumPoints(start, stop, step) == ((stop - start) / step).Floor + 2
    ensures NumPoints(start, stop, step) >= 2
  {
  }

  /**
   * Capacity rule of the driver loop: if k records have been taken at the
   * times start + step, ..., start + k*step and the last is still before
   * stop, there is room for another record.
   */
  lemma {:induction false} RoomForNextRecord(start: real, stop: real, step: real, k: nat)
    requires step > 0.0 && 1 <= k
    requires start + (k as real) * step < stop
    ensures k + 1 < NumPoints(start, stop, step)
  {
    var d := stop - start;
    var q := d / step;
    assert (k as real) * step < d;
    assert q * step == d;
    assert (k as real) < q by {
      if q <= k as real {
        MulRealMonotone(q, k as real, step);
      }
    }
    assert q > 0.0;
    assert Trunc(q) == q.Floor;
    assert k <= q.Floor;
  }

  lemma MulRealMonotone(a: real, b: real, c: real)
    requires a <= b && c > 0.0
    ensures a * c <= b * c
  {
  }

  /** Backward steps never reach a stop that lies ahead of the first target. */
  lemma {:induction false} BackwardStaysBefore(start: real, stop: real, step: real, k: nat)
    requires step < 0.0 && 1 <= k
    requires start + step < stop
    ensures start + (k as real) * step < stop
  {
  }
}
