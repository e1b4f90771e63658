# OpenModelica simulation runtime: a Dafny model

This project models the simulation driver of OpenModelica's early C runtime
(`c_runtime/simulation_runtime.cpp`). A compiled model program reads its initial
values from a commented text file and checks the file's declared dimensions
against the model. It then sizes one flat trajectory buffer. It calls the
DASSL/DASRT integrator once, then again and again while `t < stop`, appending
one record (time, states, derivatives, algebraic variables) after each call.
Finally it writes the buffer out as a Ptolemy plot: a header and one data set of
`(time, value)` pairs per variable.

The Dafny modules follow that structure:

- `Layout` holds the offset arithmetic: the record width `1 + 2*nx + ny`, the
  record count `long((stop-start)/step) + 2` with C truncation, and the
  capacity rules the driver relies on.
- `Trajectory` holds the records, their flat layout, and the class
  `TrajectoryBuffer`. The class keeps the buffer array, the append cursor (a
  function-local `static` in the source) and the record count as fields.
  `AddResult` writes the array in place.
- `Serializer` is `store_result`. Its output is the abstract plot (header
  fields and the sequence of data sets) that the file would contain.
- `InputLoader` is `read_input` and both `read_commented_value` overloads. It
  works on a file already split into lines of `(value, comment)`, and returns
  errors where the source calls `exit(-1)`.
- `ModelBinding` holds what the generated model code supplies: `nx`, `ny`, `np`
  and `varnames`.
- `Driver` is `main`: the sizing, the pre-loop solver step, the `while (t < stop)`
  loop, `store_result`, and the no-op `zeroCrossing` and `dummyJacobianDASSL`.

Two function parameters stand for the code main calls into but does not
contain. `solve(t, state, tout, hooks)` is one `DDASRT` call, with the
generated residual `functionDAE_res` folded into it; it has no parameter of
its own. It returns the time reached and the new states and derivatives.
`hooks` carries the two callbacks main hands to every call, `zeroCrossing`
and `dummyJacobianDASSL`, as `Driver.StubHooks`. `output(t, x, xd)` is the
generated `functionDAE_output` and returns the algebraic variables.
Assumptions about the parameters are explicit predicates:

- `SolverKeepsShape` and `OutputFits` require the dimensions to be preserved.
- `LandsOnTarget` is the ideal solver, which always stops exactly at `tout`.

Time is an exact `real`.

The code records its first row at `start + step`, not at `start`. The first
solver call targets `tout = start + step` before the first `add_result`
(lines 109-114). The model follows the code: `Driver.Tout` numbers the targets
from that first call.

## Model

| member | source | states |
|---|---|---|
| Layout.RecordWidth | c_runtime/simulation_runtime.cpp:161 | `num_vars`, the values of one record: 1 + nx + nx + ny, never 0 |
| Layout.NumPoints | c_runtime/simulation_runtime.cpp:105 | `long((stop-start)/step)+2`: for a non-negative quotient q it is at least 2 and q lies in [n-2, n-1); for a negative q it is at most 2 and q lies in (n-3, n-2] |
| Layout.Trunc | c_runtime/simulation_runtime.cpp:105 | the C conversion `long(r)`: the integer part toward zero, within 1 below a non-negative r and within 1 above a negative one |
| Layout.Capacity | c_runtime/simulation_runtime.cpp:59 | the allocation `numpoints*(nx*2+ny+1)` is negative exactly when numpoints is, and zero exactly when numpoints is |
| Layout.RowOffsetIsProduct | c_runtime/simulation_runtime.cpp:161-166 | the start of record i in the gapless layout is `i*num_vars` |
| Layout.RowOffsetGrows | c_runtime/simulation_runtime.cpp:59 | with a record width of at least 1, k records fit in an allocation of n records only if k <= n |
| Layout.CellInRange | c_runtime/simulation_runtime.cpp:161-191 | cell `col < num_vars` of record `i < n` lies inside the first n records |
| Layout.NumPointsForward | c_runtime/simulation_runtime.cpp:105 | for step > 0 and start <= stop, numpoints is floor((stop-start)/step) + 2, so at least 2 |
| Layout.RoomForNextRecord | c_runtime/simulation_runtime.cpp:105-124 | stepping forward, if k records ending at start + k*step are still before stop, then k+1 < numpoints, so another record fits |
| Layout.BackwardStaysBefore | c_runtime/simulation_runtime.cpp:117-124 | stepping backward from a first target start+step below stop, every later target start + k*step stays below stop |
| Trajectory.CellsColumns | c_runtime/simulation_runtime.cpp:214-226 | the cells of a record are time, then x, then xd, then y: cell `col` is column `col` |
| Trajectory.FlattenLength | c_runtime/simulation_runtime.cpp:209-228 | k records laid out without gaps take k record widths |
| Trajectory.FlattenCell | c_runtime/simulation_runtime.cpp:209-228 | in the layout of k records, cell `RowOffset(i) + col` is column `col` of record i |
| Trajectory.ReadBack | c_runtime/simulation_runtime.cpp:161-191 | any buffer whose prefix is the layout of the records gives back column `col` of record i at `RowOffset(i) + col` |
| Trajectory.TrajectoryBuffer.constructor | c_runtime/simulation_runtime.cpp:56-66 | initialize_simdata: a fresh array of `numpoints*(nx*2+ny+1)` values, with no records and the cursor at 0 |
| Trajectory.TrajectoryBuffer.CursorAtRecordBoundary | c_runtime/simulation_runtime.cpp:209-228 | after k appends the cursor is `k*(1+2*nx+ny)` and k <= numpoints; record i starts at `i*num_vars` with its time |
| Trajectory.TrajectoryBuffer.AddResult | c_runtime/simulation_runtime.cpp:206-229 | given room for one record: the new array is the old one with the record's cells (time, x, xd, y) spliced in at the old cursor; the cursor moves one record width; actual_points grows by one; the abstract rows gain that record, and the buffer stays a gapless layout of the rows |
| Trajectory.RecordAt | c_runtime/simulation_runtime.cpp:209-228 | in the spliced array: time at the old cursor, then x[0..nx), xd[0..nx) and y[0..ny) at consecutive cells, and every cell outside the new record as before |
| Trajectory.WriteRecord | c_runtime/simulation_runtime.cpp:214-226 | the four writes lay out exactly one record at `start` and touch nothing else |
| Trajectory.CopyInto | c_runtime/simulation_runtime.cpp:216-226 | each of add_result's three loops copies its vector to consecutive cells from the cursor and leaves the rest of the array alone |
| Serializer.ReadColumn | c_runtime/simulation_runtime.cpp:165-189 | one point per record i, the pair `(data[i*num_vars], data[i*num_vars + col])` |
| Serializer.StoreResult | c_runtime/simulation_runtime.cpp:143-199 | the header lines and `IntervalSize = numpoints`; exactly `1+2*nx+ny` data sets: "time" and then `varnames` in order; numpoints points each; point i of data set c is the time of record i paired with cell c of record i |
| InputLoader.ReadCommentedValue | c_runtime/simulation_runtime.cpp:285-290 | reads one line exactly, yields its value and drops the rest of the line; an exhausted file is an error at that line |
| InputLoader.ReadCommentedCount | c_runtime/simulation_runtime.cpp:292-297 | the int overload: one line's value, truncated to an integer, and one line consumed |
| InputLoader.InitialValues | c_runtime/simulation_runtime.cpp:270-281 | the values read from a well-formed file have the model's dimensions |
| InputLoader.ReadValues | c_runtime/simulation_runtime.cpp:270-281 | one of the value loops: the n values of consecutive lines, or an error when the file ends first |
| InputLoader.ReadInput | c_runtime/simulation_runtime.cpp:236-282 | a missing file, a short header, declared counts that differ from nx, ny, np (reported as read) and a short body each give their error, with no values; otherwise start, stop, step then x, xd, y, p in file order; success exactly for well-formed files |
| InputLoader.InputFileRoundTrip | c_runtime/simulation_runtime.cpp:255-280 | a file written as start, stop, step, the three counts, x, xd, y, p is well-formed for its dimensions and reads back to the same input |
| Driver.ZeroCrossing | c_runtime/simulation_runtime.cpp:29-36 | the event function reports status 0 |
| Driver.DummyJacobian | c_runtime/simulation_runtime.cpp:38-42 | the Jacobian hook reports status 0 |
| Driver.StubHooksSucceed | c_runtime/simulation_runtime.cpp:29-42 | both hooks main hands to DDASRT report status 0 for every argument |
| Driver.Advance | c_runtime/simulation_runtime.cpp:112-113 | one DDASRT call with the stub hooks, then functionDAE_output: the time, x and xd are the ones the solver returned, y is the output at that time and state, p is unchanged, the solver's dimensions are kept, and the ideal solver reaches tout exactly |
| Driver.Tout | c_runtime/simulation_runtime.cpp:110-123 | the target of solver call k: `t+step` before the first call and `tout += step` after every call; ToutIsLinear gives its value start + (k+1)*step |
| Driver.ToutIsLinear | c_runtime/simulation_runtime.cpp:110-123 | solver call k targets start + (k+1)*step |
| Driver.ToutBefore | c_runtime/simulation_runtime.cpp:110-123 | the target before call k is start + k*step |
| Driver.PlotBlocks | c_runtime/simulation_runtime.cpp:161-191 | round trip: the time data set holds (t_i, t_i); state block v holds (t_i, x_i[v]) under varnames[v]; derivative block v holds (t_i, xd_i[v]) under varnames[v+nx]; algebraic block v holds (t_i, y_i[v]) under varnames[v+2*nx] |
| Driver.SteppedExtend | c_runtime/simulation_runtime.cpp:118-124 | one loop iteration (a solver call from the last record, the output call, one append) extends a stepped run |
| Driver.IdealTimes | c_runtime/simulation_runtime.cpp:109-124 | with the ideal solver, record k is at its target `Tout(k)`, which is start + (k+1)*step |
| Driver.IdealRoom | c_runtime/simulation_runtime.cpp:105-121 | with the ideal solver, a run still below stop has room for another record, unless it steps backward from start+step < stop |
| Driver.IdealBackward | c_runtime/simulation_runtime.cpp:118 | with the ideal solver stepping backward from start+step < stop, the loop condition `t < stop` never fails |
| Driver.StepWhileBefore | c_runtime/simulation_runtime.cpp:118-124 | each iteration adds one record from one solver call towards the next target and stays stepped; records before the last are before stop; it ends with the last record at or after stop, or, when the next record would not fit, before stop with numpoints records already taken |
| Driver.Integrate | c_runtime/simulation_runtime.cpp:109-124 | one record before the loop, then the loop; every record but the last is before stop and the last is at or after it; an overrun means numpoints is 0, or all numpoints records are taken, stepped from the input, and every one is before stop; with the ideal solver it overruns exactly when numpoints is 0 or the run steps backward from start+step < stop, and every record lands on its target |
| Driver.StoreTrajectory | c_runtime/simulation_runtime.cpp:143-199 | store_result on the filled buffer: the plot holds, for every record and column, (time, that column's value) |
| Driver.Simulate | c_runtime/simulation_runtime.cpp:105-133 | `ZeroStep` exactly when step is 0; `AllocationFailed` with the requested size exactly when numpoints is negative; `BufferOverrun` when numpoints is 0, and otherwise only with all numpoints records taken and every one before stop; on success between 1 and numpoints records, stepped from the input, all but the last before stop and the last at or after it, plotted; with the ideal solver success exactly when numpoints >= 1 and the run steps forward or starts at or after stop |
| Driver.ZeroHorizonOneRecord | c_runtime/simulation_runtime.cpp:105-124 | with stop equal to start and a forward step, the ideal solver's run succeeds with exactly one record, at start + step |
| Driver.ForwardRunOutcome | c_runtime/simulation_runtime.cpp:105-124 | for any solver, a run with step > 0 and start <= stop either succeeds or overruns after taking all numpoints records, stepped from the input, with every one of them before stop |
| Driver.Run | c_runtime/simulation_runtime.cpp:68-136 | main: a load error exactly when the file is missing or malformed, and then the error read_input stops with (`CannotOpen`, `UnexpectedEnd` at the file's length, or `DimensionMismatch` with the counts read); for a well-formed file, everything Simulate promises for the values read: each error exactly with its cause, between 1 and numpoints records, all but the last before stop and the last at or after it, the plot, and with the ideal solver the exact success condition and the record times |

## Left out

- `OMEdit/OMEditGUI/main.cpp`, the Qt GUI launcher, is not part of this model: it is application-object and widget setup with no separable logic.
- `DDASRT` and the generated `functionDAE_res` / `functionDAE_output` are external numerics. `DDASRT` together with `functionDAE_res` is the parameter `solve`, and `functionDAE_output` is the parameter `output`. They are constrained only by the dimension predicates and, for the capacity results, the ideal solver `LandsOnTarget`. The stub hooks are passed to `solve` but nothing says how it uses them; main passes `ng = 0` constraint functions, so the event hook has nothing to report.
- The solver workspace and status are not modelled: `info`, `iwork`, `rwork` and their zeroing loops, `rtol`/`atol`, `idid`, `jroot`. The source never inspects `idid`. As a result, `solve` is a pure function of (t, state, tout, hooks). The history DDASRT keeps in `rwork`/`iwork` is not an input to it, and neither is the continuation flag `info[0] = 1` set at line 115. So the call before the loop and the calls in the loop are the same function, and `Stepped` makes every record a function of the record before it and its target alone.
- Floating point is not modelled. Time and values are exact reals, so `tout += step` does not drift, and `(stop-start)/step` is exact before the truncation. The output precision of line 153 is left out.
- Text I/O is not modelled. This covers `ifstream`/`ofstream`, numeral parsing by `f >> x`, the 160-character `getline` buffer, the formatting of the plot file, and the messages to `cerr`. The file is given as lines already split into a value and the rest of the line. A file that cannot be opened is `None`. The plot is returned as a value.
- InputLoader.ReadCommentedCount: the count is modelled from the line's numeric value, not from its spelling. `f >> int` stops at the first character that is not a digit, so `2.5` reads 2 in both, but `1e1` reads 1 in the source and 10 here. The stream state a partial read leaves behind is not modelled.
- InputLoader.ReadInput: the source never checks the stream after the open. A file that ends early is an `UnexpectedEnd` error here, where the source would go on with stale values.
- `getFlagValue`, `flagSet`, the `-f`/`-r`/`?` flags and the default file names `model_name + "_init.txt"` / `"_res.plt"` are not modelled; `options.h` is not part of this model.
- A result file that cannot be created or written (store_result's `exit(-1)` paths) is not modelled, because the model has no files.
- `dumpresult` is not modelled: it is a debug print whose call sites are commented out.
- Driver.Simulate: a zero step, where the source converts an infinite or undefined quotient to `long`, is reported as `ZeroStep`.
- Driver.Simulate: a negative numpoints, which the C++ `new[]` rejects, is reported as `AllocationFailed` carrying the requested size `numpoints*(nx*2+ny+1)`. The size in the source's message omits the `+1`. The model does not reproduce the message.
- Driver.Integrate: the source appends without a bounds check and writes past the buffer when a run needs more records than numpoints. The model checks before every append and stops with `BufferOverrun`, so it says nothing about the overrun's effect. For any solver it happens only when numpoints is 0, or when all numpoints records are taken and the last is still before stop. With the ideal solver it happens exactly when numpoints is 0 or the run steps backward from start+step below stop.
- The wrap-around of `long`/`int` arithmetic at very large counts is not modelled; all integers are unbounded.
