/**
 * The trajectory buffer: one flat array of values holding one record per
 * captured instant, filled by add_result through an append cursor.
 */
module Trajectory {
  import opened Layout

  /** One captured instant, as passed to add_result. */
  datatype Row = Row(time: real, x: seq<real>, xd: seq<real>, y: seq<real>)

  predicate Shaped(r: Row, nx: nat, ny: nat) {
    |r.x| == nx && |r.xd| == nx && |r.y| == ny
  }

  predicate AllShaped(rows: seq<Row>, nx: nat, ny: nat) {
    forall k | 0 <= k < |rows| :: Shaped(rows[k], nx, ny)
  }

  /** The values of one record in buffer order. */
  function Cells(r: Row): seq<real> {
    [r.time] + r.x + r.xd + r.y
  }

  /**
   * Column `col` of a record, by what it holds: column 0 is time, columns
   * 1..nx the states, then the derivatives, then the algebraic variables.
   */
  function Column(r: Row, nx: nat, ny: nat, col: nat): real
    requires Shaped(r, nx, ny) && col < RecordWidth(nx, ny)
  {
    if col == 0 then r.time
    else if col < 1 + nx then r.x[col - 1]
    else if col < 1 + 2 * nx then r.xd[col - 1 - nx]
    else r.y[col - 1 - 2 * nx]
  }

  lemma CellsColumns(r: Row, nx: nat, ny: nat)
    requires Shaped(r, nx, ny)
    ensures |Cells(r)| == RecordWidth(nx, ny)
    ensures forall col | 0 <= col < RecordWidth(nx, ny) :: Cells(r)[col] == Column(r, nx, ny, col)
  {
  }

  /** The buffer contents after appending `rows` in order. */
  function Flatten(rows: seq<Row>): seq<real> {
    if rows == [] then [] else Flatten(rows[..|rows| - 1]) + Cells(rows[|rows| - 1])
  }

  lemma {:induction false} FlattenLength(rows: seq<Row>, nx: nat, ny: nat)
    requires AllShaped(rows, nx, ny)
    ensures |Flatten(rows)| == RowOffset(|rows|, RecordWidth(nx, ny))
  {
    if rows != [] {
      var n := |rows| - 1;
      FlattenLength(rows[..n], nx, ny);
      CellsColumns(rows[n], nx, ny);
    }
  }

  /** Record i occupies the cells [i*w, (i+1)*w) of the flattened buffer. */
  lemma {:induction false} FlattenCell(rows: seq<Row>, nx: nat, ny: nat, i: nat, col: nat)
    requires AllShaped(rows, nx, ny)
    requires i < |rows| && col < RecordWidth(nx, ny)
    ensures RowOffset(i, RecordWidth(nx, ny)) + col < |Flatten(rows)|
    ensures Flatten(rows)[RowOffset(i, RecordWidth(nx, ny)) + col] == Column(rows[i], nx, ny, col)
  {
    var w := RecordWidth(nx, ny);
    var n := |rows| - 1;
    FlattenLength(rows, nx, ny);
    FlattenLength(rows[..n], nx, ny);
    CellInRange(i, |rows|, w, col);
    CellsColumns(rows[n], nx, ny);
    if i < n {
      FlattenCell(rows[..n], nx, ny, i, col);
      assert Flatten(rows) == Flatten(rows[..n]) + Cells(rows[n]);
    } else {
      assert Flatten(rows)[RowOffset(i, w) + col] == Cells(rows[n])[col];
    }
  }

  /** Reading a buffer back at the serializer's offsets yields the appended records. */
  lemma ReadBack(cells: seq<real>, rows: seq<Row>, nx: nat, ny: nat)
    requires AllShaped(rows, nx, ny)
    requires RowOffset(|rows|, RecordWidth(nx, ny)) <= |cells|
    requires cells[..RowOffset(|rows|, RecordWidth(nx, ny))] == Flatten(rows)
    ensures forall i, col | 0 <= i < |rows| && 0 <= col < RecordWidth(nx, ny) ::
      RowOffset(i, RecordWidth(nx, ny)) + col < |cells| &&
      cells[RowOffset(i, RecordWidth(nx, ny)) + col] == Column(rows[i], nx, ny, col)
  {
    forall i, col | 0 <= i < |rows| && 0 <= col < RecordWidth(nx, ny)
      ensures RowOffset(i, RecordWidth(nx, ny)) + col < |cells| &&
              cells[RowOffset(i, RecordWidth(nx, ny)) + col] == Column(rows[i], nx, ny, col)
    {
      ReadBackCell(cells, rows, nx, ny, i, col);
    }
  }

  lemma ReadBackCell(cells: seq<real>, rows: seq<Row>, nx: nat, ny: nat, i: nat, col: nat)
    requires AllShaped(rows, nx, ny) && i < |rows| && col < RecordWidth(nx, ny)
    requires RowOffset(|rows|, RecordWidth(nx, ny)) <= |cells|
    requires cells[..RowOffset(|rows|, RecordWidth(nx, ny))] == Flatten(rows)
    ensures RowOffset(i, RecordWidth(nx, ny)) + col < |cells|
    ensures cells[RowOffset(i, RecordWidth(nx, ny)) + col] == Column(rows[i], nx, ny, col)
  {
    var w := RecordWidth(nx, ny);
    FlattenCell(rows, nx, ny, i, col);
    var p := RowOffset(i, w) + col;
    assert cells[p] == cells[..RowOffset(|rows|, w)][p];
  }

  /**
   * The buffer of initialize_simdata and add_result. The append cursor,
   * a function-local static in the source, and the count of appended
   * records are fields here; `rows` is the abstract contents.
   */
  class TrajectoryBuffer {
    const nx: nat
    const ny: nat
    const numPoints: nat
    const data: array<real>
    var cursor: nat
    var actualPoints: nat
    ghost var rows: seq<Row>

    ghost predicate Valid()
      reads this, data
    {
      data.Length == RowOffset(numPoints, RecordWidth(nx, ny)) &&
      AllShaped(rows, nx, ny) &&
      actualPoints == |rows| &&
      cursor == RowOffset(actualPoints, RecordWidth(nx, ny)) &&
      cursor <= data.Length &&
      data[..cursor] == Flatten(rows)
    }

    /** initialize_simdata: room for `numPoints` records, none written yet. */
    constructor (numPoints: nat, nx: nat, ny: nat)
      ensures Valid() && fresh(data)
      ensures this.numPoints == numPoints && this.nx == nx && this.ny == ny
      ensures data.Length == numPoints * (nx * 2 + ny + 1)
      ensures rows == [] && cursor == 0 && actualPoints == 0
    {
      this.nx, this.ny, this.numPoints := nx, ny, numPoints;
      data := new real[numPoints * RecordWidth(nx, ny)];
      RowOffsetIsProduct(numPoints, RecordWidth(nx, ny));
      cursor, actualPoints := 0, 0;
      rows := [];
    }

    /**
     * After k appends the cursor is k record widths in, record i begins at
     * i * (1 + 2 * nx + ny) with its time, and no more than numPoints records
     * have been written into the allocation.
     */
    lemma CursorAtRecordBoundary()
      requires Valid()
      ensures cursor == actualPoints * (1 + 2 * nx + ny) && actualPoints <= numPoints
      ensures forall i | 0 <= i < actualPoints ::
        i * (1 + 2 * nx + ny) < data.Length && data[i * (1 + 2 * nx + ny)] == rows[i].time
    {
      var w := RecordWidth(nx, ny);
      RowOffsetIsProduct(actualPoints, w);
      RowOffsetGrows(actualPoints, numPoints, w);
      forall i | 0 <= i < actualPoints
        ensures i * w < data.Length && data[i * w] == rows[i].time
      {
        RowOffsetIsProduct(i, w);
        FlattenCell(rows, nx, ny, i, 0);
        var p := RowOffset(i, w);
        assert p < cursor && data[..cursor][p] == rows[i].time;
      }
    }

    /**
     * add_result: writes time, x, xd and y at the cursor, advances the
     * cursor by one record width and counts the record.
     */
    method AddResult(time: real, x: seq<real>, xd: seq<real>, y: seq<real>)
      requires Valid()
      requires |x| == nx && |xd| == nx && |y| == ny
      requires cursor + RecordWidth(nx, ny) <= data.Length
      modifies this, data
      ensures Valid()
      ensures rows == old(rows) + [Row(time, x, xd, y)]
      ensures actualPoints == old(actualPoints) + 1
      ensures cursor == old(cursor) + RecordWidth(nx, ny)
      ensures data[..] == old(data[..])[..old(cursor)] + Cells(Row(time, x, xd, y)) + old(data[..])[cursor..]
    {
      ghost var row := Row(time, x, xd, y);
      ghost var before := data[..];
      var start := cursor;
      cursor := WriteRecord(data, start, time, x, xd, y);
      actualPoints := actualPoints + 1;
      AppendRow(rows, row, nx, ny);
      rows := rows + [row];
      SplicePrefix(before, start, Cells(row));
      assert data[..cursor] == data[..][..cursor];
    }
  }

  /** The writes of add_result: time, then the states, derivatives and algebraics. */
  method WriteRecord(a: array<real>, start: nat, time: real, x: seq<real>, xd: seq<real>, y: seq<real>)
    returns (next: nat)
    requires |xd| == |x| && start + RecordWidth(|x|, |y|) <= a.Length
    modifies a
    ensures next == start + RecordWidth(|x|, |y|)
    ensures a[..] == old(a[..])[..start] + Cells(Row(time, x, xd, y)) + old(a[..])[next..]
  {
    ghost var before := a[..];
    a[start] := time;
    ghost var s1 := a[..];
    next := CopyInto(a, start + 1, x);
    ghost var s2 := a[..];
    next := CopyInto(a, next, xd);
    ghost var s3 := a[..];
    next := CopyInto(a, next, y);
    RowWritten(before, s1, s2, s3, a[..], start, Row(time, x, xd, y), |x|, |y|);
  }

  /** The four writes of add_result lay one record out at `start` and touch nothing else. */
  lemma RowWritten(s0: seq<real>, s1: seq<real>, s2: seq<real>, s3: seq<real>, s4: seq<real>,
                   start: nat, r: Row, nx: nat, ny: nat)
    requires Shaped(r, nx, ny) && start + RecordWidth(nx, ny) <= |s0|
    requires s1 == s0[start := r.time]
    requires s2 == s1[..start + 1] + r.x + s1[start + 1 + nx..]
    requires s3 == s2[..start + 1 + nx] + r.xd + s2[start + 1 + 2 * nx..]
    requires s4 == s3[..start + 1 + 2 * nx] + r.y + s3[start + RecordWidth(nx, ny)..]
    ensures |s4| == |s0|
    ensures s4 == s0[..start] + Cells(r) + s0[start + RecordWidth(nx, ny)..]
  {
  }

  /**
   * What add_result's new buffer holds (AddResult states it as `after`):
   * time at the old cursor, then x, xd and y, and every cell outside the
   * new record as it was.
   */
  lemma RecordAt(before: seq<real>, after: seq<real>, start: nat, r: Row, nx: nat, ny: nat)
    requires Shaped(r, nx, ny) && start + RecordWidth(nx, ny) <= |before|
    requires after == before[..start] + Cells(r) + before[start + RecordWidth(nx, ny)..]
    ensures |after| == |before|
    ensures after[start] == r.time
    ensures forall i | 0 <= i < nx :: after[start + 1 + i] == r.x[i]
    ensures forall i | 0 <= i < nx :: after[start + 1 + nx + i] == r.xd[i]
    ensures forall i | 0 <= i < ny :: after[start + 1 + 2 * nx + i] == r.y[i]
    ensures forall j | 0 <= j < |after| && (j < start || start + RecordWidth(nx, ny) <= j) :: after[j] == before[j]
  {
  }

  lemma SplicePrefix(s: seq<real>, start: nat, c: seq<real>)
    requires start + |c| <= |s|
    ensures (s[..start] + c + s[start + |c|..])[..start + |c|] == s[..start] + c
  {
  }

  lemma AppendRow(rows: seq<Row>, r: Row, nx: nat, ny: nat)
    requires AllShaped(rows, nx, ny) && Shaped(r, nx, ny)
    ensures AllShaped(rows + [r], nx, ny)
    ensures Flatten(rows + [r]) == Flatten(rows) + Cells(r)
  {
  }

  /** One of add_result's copy loops: writes `vs` to `a[from..]`, leaving every other slot alone. */
  method CopyInto(a: array<real>, from: nat, vs: seq<real>) returns (next: nat)
    requires from + |vs| <= a.Length
    modifies a
    ensures next == from + |vs|
    ensures a[..] == old(a[..])[..from] + vs + old(a[..])[next..]
  {
    next := from;
    for i := 0 to |vs|
      invariant next == from + i
      invariant a[from..next] == vs[..i]
      invariant forall j | 0 <= j < a.Length && !(from <= j < next) :: a[j] == old(a[j])
    {
      a[next] := vs[i];
      next := next + 1;
    }
  }
}
