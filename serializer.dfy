/**
 * store_result: the trajectory written as a Ptolemy plot, one data set per
 * variable (not per time step), each a list of (time, value) pairs. The
 * text formatting and the file itself are not modelled; the plot is the
 * sequence of data sets the file would hold.
 */
module Serializer {
  import opened Layout

  datatype DataSet = DataSet(name: string, points: seq<(real, real)>)

  datatype Plot = Plot(banner: string, intervalSize: int, title: string, xLabel: string, dataSets: seq<DataSet>)

  const Banner: string := "#Ptolemy Plot file, generated by OpenModelica"
  const TitleText: string := "OpenModelica simulation plot"
  const XLabel: string := "t"

  /** `points` pairs the time of each of the first n records with its column `col`. */
  ghost predicate ColumnRead(data: array<real>, n: nat, w: nat, col: nat, points: seq<(real, real)>)
    reads data
  {
    |points| == n &&
    forall i | 0 <= i < n ::
      RowOffset(i, w) + col < data.Length &&
      points[i] == (data[RowOffset(i, w)], data[RowOffset(i, w) + col])
  }

  /** The inner loop of each data set: `data[i*num_vars]` paired with `data[i*num_vars + col]`. */
  method ReadColumn(data: array<real>, numPoints: nat, numVars: nat, col: nat) returns (points: seq<(real, real)>)
    requires col < numVars && numPoints * numVars <= data.Length
    ensures |points| == numPoints
    ensures forall i | 0 <= i < numPoints ::
      RowOffset(i, numVars) + col < data.Length &&
      points[i] == (data[RowOffset(i, numVars)], data[RowOffset(i, numVars) + col])
  {
    RowOffsetIsProduct(numPoints, numVars);
    points := [];
    for i := 0 to numPoints
      invariant ColumnRead(data, i, numVars, col, points)
    {
      CellInRange(i, numPoints, numVars, col);
      RowOffsetIsProduct(i, numVars);
      points := points + [(data[i * numVars], data[i * numVars + col])];
    }
  }

  /** Name of the data set for column `col`: "time", then `varnames` in order. */
  function DataSetName(varnames: seq<string>, col: nat): string
    requires col <= |varnames|
  {
    if col == 0 then "time" else varnames[col - 1]
  }

  /** Data set `c` of the plot is named for column `c` and reads column `c` of every record. */
  ghost predicate DataSetFor(data: array<real>, n: nat, w: nat, varnames: seq<string>, c: nat, ds: DataSet)
    reads data
  {
    c <= |varnames| && ds.name == DataSetName(varnames, c) && ColumnRead(data, n, w, c, ds.points)
  }

  /**
   * store_result: a header giving the number of records, then the time
   * data set, the nx state data sets, the nx derivative data sets and the
   * ny algebraic data sets, each with one point per record. Data set c is
   * column c of the records, so the names are "time", then varnames[var],
   * varnames[var + nx] and varnames[var + 2*nx].
   */
  method StoreResult(data: array<real>, numPoints: nat, nx: nat, ny: nat, varnames: seq<string>)
    returns (plot: Plot)
    requires numPoints * (1 + nx * 2 + ny) <= data.Length
    requires 2 * nx + ny <= |varnames|
    ensures plot.banner == Banner && plot.title == TitleText && plot.xLabel == XLabel
    ensures plot.intervalSize == numPoints
    ensures |plot.dataSets| == RecordWidth(nx, ny)
    ensures plot.dataSets[0].name == "time"
    ensures forall c | 1 <= c < |plot.dataSets| :: plot.dataSets[c].name == varnames[c - 1]
    ensures forall c | 0 <= c < |plot.dataSets| :: |plot.dataSets[c].points| == numPoints
    ensures forall c, i | 0 <= c < |plot.dataSets| && 0 <= i < numPoints ::
      RowOffset(i, RecordWidth(nx, ny)) + c < data.Length &&
      plot.dataSets[c].points[i] ==
        (data[RowOffset(i, RecordWidth(nx, ny))], data[RowOffset(i, RecordWidth(nx, ny)) + c])
  {
    var numVars := 1 + nx * 2 + ny;
    var times := ReadColumn(data, numPoints, numVars, 0);
    var sets := [DataSet("time", times)];
    for v := 0 to nx
      invariant |sets| == 1 + v
      invariant forall c | 0 <= c < |sets| :: DataSetFor(data, numPoints, numVars, varnames, c, sets[c])
    {
      var points := ReadColumn(data, numPoints, numVars, 1 + v);
      sets := sets + [DataSet(varnames[v], points)];
    }
    for v := 0 to nx
      invariant |sets| == 1 + nx + v
      invariant forall c | 0 <= c < |sets| :: DataSetFor(data, numPoints, numVars, varnames, c, sets[c])
    {
      var points := ReadColumn(data, numPoints, numVars, 1 + nx + v);
      sets := sets + [DataSet(varnames[v + nx], points)];
    }
    for v := 0 to ny
      invariant |sets| == 1 + 2 * nx + v
      invariant forall c | 0 <= c < |sets| :: DataSetFor(data, numPoints, numVars, varnames, c, sets[c])
    {
      var points := ReadColumn(data, numPoints, numVars, 1 + 2 * nx + v);
      sets := sets + [DataSet(varnames[v + 2 * nx], points)];
    }
    plot := Plot(Banner, numPoints, TitleText, XLabel, sets);
  }
}
