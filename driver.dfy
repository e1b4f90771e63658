/**
 * The simulation driver of main: read the initial values, size the
 * trajectory buffer, take one solver step and record it, then step and
 * record while t < stop, and finally hand the buffer to store_result.
 *
 * DDASRT, with the residual functionDAE_res it integrates, is the function
 * parameter `solve(t, s, tout, hooks)`: it integrates from t towards tout,
 * handed the zero-crossing and Jacobian hooks, and gives the time reached
 * with the new x and xd. The generated functionDAE_output is the parameter
 * `output(t, x, xd)`, which gives y. Time is an exact real, so the drift of
 * `tout += step` in doubles is absent.
 */
module Driver {
  import opened Wrappers
  import opened Layout
  import opened Trajectory
  import opened Serializer
  import opened InputLoader
  import opened ModelBinding

  datatype Reached = Reached(t: real, x: seq<real>, xd: seq<real>)

  /** The callbacks main hands to DDASRT besides the residual: the event function and the Jacobian. */
  datatype Hooks = Hooks(zeroCrossing: (real, seq<real>) -> int, jacobian: (real, seq<real>, seq<real>) -> int)

  type Solver = (real, SimState, real, Hooks) -> Reached

  type Output = (real, seq<real>, seq<real>) -> seq<real>

  datatype RunError =
    | LoadFailed(cause: LoadError)
    | ZeroStep
    | AllocationFailed(size: int)
    | BufferOverrun

  /** The solver leaves the dimensions of x and xd alone (they are fixed arrays in the source). */
  ghost predicate SolverKeepsShape(solve: Solver) {
    forall t, s, tout, h :: |solve(t, s, tout, h).x| == |s.x| && |solve(t, s, tout, h).xd| == |s.xd|
  }

  ghost predicate OutputFits(output: Output, ny: nat) {
    forall t, x, xd :: |output(t, x, xd)| == ny
  }

  /** The idealised solver: each call ends exactly at the requested tout. */
  ghost predicate LandsOnTarget(solve: Solver) {
    forall t, s, tout, h :: solve(t, s, tout, h).t == tout
  }

  /** zeroCrossing: the event hook handed to the solver; it reports success and no events. */
  function ZeroCrossing(t: real, y: seq<real>): (status: int)
    ensures status == 0
  {
    0
  }

  /** dummyJacobianDASSL: the Jacobian hook; it reports success and supplies no Jacobian. */
  function DummyJacobian(t: real, y: seq<real>, yprime: seq<real>): (status: int)
    ensures status == 0
  {
    0
  }

  /** The hooks of every DDASRT call in main: zeroCrossing and dummyJacobianDASSL. */
  const StubHooks: Hooks := Hooks(ZeroCrossing, DummyJacobian)

  /** Both hooks main passes report success whatever they are given. */
  lemma StubHooksSucceed(t: real, y: seq<real>, yprime: seq<real>)
    ensures StubHooks.zeroCrossing(t, y) == 0 && StubHooks.jacobian(t, y, yprime) == 0
  {
  }

  /**
   * One solver call with the stub hooks followed by the output function, as
   * main does before and in its loop. The new y comes from the output
   * function at the time and state reached; p is passed along untouched.
   */
  function Advance(solve: Solver, output: Output, t: real, s: SimState, tout: real): (r: (real, SimState))
    ensures r.0 == solve(t, s, tout, StubHooks).t
    ensures r.1.x == solve(t, s, tout, StubHooks).x && r.1.xd == solve(t, s, tout, StubHooks).xd
    ensures r.1.y == output(r.0, r.1.x, r.1.xd) && r.1.p == s.p
    ensures SolverKeepsShape(solve) ==> |r.1.x| == |s.x| && |r.1.xd| == |s.xd|
    ensures LandsOnTarget(solve) ==> r.0 == tout
  {
    var reached := solve(t, s, tout, StubHooks);
    (reached.t, SimState(reached.x, reached.xd, output(reached.t, reached.x, reached.xd), s.p))
  }

  function RowOf(step: (real, SimState)): Row {
    Row(step.0, step.1.x, step.1.xd, step.1.y)
  }

  function StateOf(r: Row, p: seq<real>): SimState {
    SimState(r.x, r.xd, r.y, p)
  }

  /**
   * Target time of solver call k (from 0): start + step before the loop,
   * and `tout += step` after every call, so start + (k+1)*step (ToutIsLinear).
   */
  function Tout(start: real, step: real, k: nat): real {
    if k == 0 then start + step else Tout(start, step, k - 1) + step
  }

  lemma {:induction false} ToutIsLinear(start: real, step: real, k: nat)
    ensures Tout(start, step, k) == start + ((k + 1) as real) * step
  {
    if k == 0 {
      assert ((k + 1) as real) * step == step;
    } else {
      ToutIsLinear(start, step, k - 1);
      assert (((k - 1) + 1) as real) == k as real;
      assert ((k + 1) as real) * step == (k as real) * step + step;
    }
  }

  lemma ToutBefore(start: real, step: real, k: nat)
    requires k >= 1
    ensures Tout(start, step, k - 1) == start + (k as real) * step
  {
    ToutIsLinear(start, step, k - 1);
  }

  /** The records main takes: each one solver step after the last, with the given targets. */
  ghost predicate Stepped(rows: seq<Row>, solve: Solver, output: Output, start: real, step: real, init: SimState) {
    |rows| >= 1 &&
    rows[0] == RowOf(Advance(solve, output, start, init, Tout(start, step, 0))) &&
    forall k | 1 <= k < |rows| ::
      rows[k] == RowOf(Advance(solve, output, rows[k - 1].time, StateOf(rows[k - 1], init.p), Tout(start, step, k)))
  }

  /** The plot holds, for every record i and column c, the pair (time of i, column c of i). */
  ghost predicate PlotOf(plot: Plot, rows: seq<Row>, nx: nat, ny: nat, varnames: seq<string>)
    requires AllShaped(rows, nx, ny)
  {
    plot.intervalSize == |rows| &&
    |plot.dataSets| == RecordWidth(nx, ny) &&
    plot.dataSets[0].name == "time" &&
    (forall c | 1 <= c < |plot.dataSets| :: c - 1 < |varnames| && plot.dataSets[c].name == varnames[c - 1]) &&
    (forall c | 0 <= c < |plot.dataSets| :: |plot.dataSets[c].points| == |rows|) &&
    forall c, i | 0 <= c < |plot.dataSets| && 0 <= i < |rows| ::
      plot.dataSets[c].points[i] == (rows[i].time, Column(rows[i], nx, ny, c))
  }

  /**
   * The blocks of a plot read in source terms: (t, t) for time, then per
   * state, derivative and algebraic variable the pairs (t, value) exactly
   * as add_result was given them, under varnames[v], varnames[v + nx] and
   * varnames[v + 2 * nx].
   */
  lemma PlotBlocks(plot: Plot, rows: seq<Row>, nx: nat, ny: nat, varnames: seq<string>)
    requires AllShaped(rows, nx, ny) && PlotOf(plot, rows, nx, ny, varnames)
    ensures |plot.dataSets| == 1 + 2 * nx + ny && plot.intervalSize == |rows|
    ensures forall i | 0 <= i < |rows| :: plot.dataSets[0].points[i] == (rows[i].time, rows[i].time)
    ensures forall v, i | 0 <= v < nx && 0 <= i < |rows| ::
      plot.dataSets[1 + v].name == varnames[v] && plot.dataSets[1 + v].points[i] == (rows[i].time, rows[i].x[v])
    ensures forall v, i | 0 <= v < nx && 0 <= i < |rows| ::
      plot.dataSets[1 + nx + v].name == varnames[v + nx] &&
      plot.dataSets[1 + nx + v].points[i] == (rows[i].time, rows[i].xd[v])
    ensures forall v, i | 0 <= v < ny && 0 <= i < |rows| ::
      plot.dataSets[1 + 2 * nx + v].name == varnames[v + 2 * nx] &&
      plot.dataSets[1 + 2 * nx + v].points[i] == (rows[i].time, rows[i].y[v])
  {
  }

  lemma SteppedExtend(rows: seq<Row>, solve: Solver, output: Output, start: real, step: real, init: SimState, next: Row)
    requires Stepped(rows, solve, output, start, step, init)
    requires next == RowOf(Advance(solve, output, rows[|rows| - 1].time, StateOf(rows[|rows| - 1], init.p), Tout(start, step, |rows|)))
    ensures Stepped(rows + [next], solve, output, start, step, init)
  {
  }

  /** With the ideal solver every record lands on its target time. */
  lemma IdealTimes(rows: seq<Row>, solve: Solver, output: Output, start: real, step: real, init: SimState)
    requires Stepped(rows, solve, output, start, step, init) && LandsOnTarget(solve)
    ensures forall k | 0 <= k < |rows| :: rows[k].time == Tout(start, step, k)
  {
  }

  /**
   * With the ideal solver, a run still short of stop has room for one more
   * record when stepping forward, and can only be short of stop when
   * stepping backward if start + step already was.
   */
  lemma IdealRoom(rows: seq<Row>, solve: Solver, output: Output, start: real, stop: real, step: real, init: SimState)
    requires Stepped(rows, solve, output, start, step, init) && LandsOnTarget(solve) && step != 0.0
    requires forall k | 0 <= k < |rows| :: rows[k].time < stop
    ensures |rows| + 1 <= NumPoints(start, stop, step) || (step < 0.0 && start + step < stop)
  {
    IdealTimes(rows, solve, output, start, step, init);
    if step > 0.0 {
      var k := |rows|;
      ToutBefore(start, step, k);
      assert rows[k - 1].time == start + (k as real) * step;
      RoomForNextRecord(start, stop, step, k);
    } else {
      assert rows[0].time == start + step;
    }
  }

  /** With the ideal solver stepping backward from start + step < stop, the time never reaches stop. */
  lemma IdealBackward(rows: seq<Row>, solve: Solver, output: Output, start: real, stop: real, step: real, init: SimState)
    requires Stepped(rows, solve, output, start, step, init) && LandsOnTarget(solve)
    requires step < 0.0 && start + step < stop
    ensures rows[|rows| - 1].time < stop
  {
    IdealTimes(rows, solve, output, start, step, init);
    ToutBefore(start, step, |rows|);
    BackwardStaysBefore(start, stop, step, |rows|);
  }

  lemma BeforeStopExtend(rows: seq<Row>, next: Row, stop: real)
    requires 1 <= |rows| && rows[|rows| - 1].time < stop
    requires forall k | 0 <= k < |rows| - 1 :: rows[k].time < stop
    ensures forall k | 0 <= k < |rows + [next]| - 1 :: (rows + [next])[k].time < stop
  {
  }

  /**
   * The loop of main: while the last record is before stop, one solver
   * call from it towards the next target, the output call and one append.
   * Returns true, with the run still before stop, when the next record
   * would not fit; the source writes past the buffer there.
   */
  method StepWhileBefore(buf: TrajectoryBuffer, input: Input, solve: Solver, output: Output, t0: real, s0: SimState)
    returns (overrun: bool)
    requires buf.Valid() && input.step != 0.0
    requires Stepped(buf.rows, solve, output, input.start, input.step, input.init)
    requires forall k | 0 <= k < |buf.rows| - 1 :: buf.rows[k].time < input.stop
    requires t0 == buf.rows[|buf.rows| - 1].time && s0 == StateOf(buf.rows[|buf.rows| - 1], input.init.p)
    requires SolverKeepsShape(solve) && OutputFits(output, buf.ny)
    modifies buf, buf.data
    ensures buf.Valid() && Stepped(buf.rows, solve, output, input.start, input.step, input.init)
    ensures forall k | 0 <= k < |buf.rows| - 1 :: buf.rows[k].time < input.stop
    ensures !overrun ==> buf.rows[|buf.rows| - 1].time >= input.stop
    ensures overrun ==> buf.rows[|buf.rows| - 1].time < input.stop && buf.numPoints < |buf.rows| + 1
  {
    var start, stop, step := input.start, input.stop, input.step;
    var numPoints := buf.numPoints;
    var w := RecordWidth(buf.nx, buf.ny);
    var t, s := t0, s0;
    while t < stop
      invariant buf.Valid() && Stepped(buf.rows, solve, output, start, step, input.init)
      invariant t == buf.rows[|buf.rows| - 1].time && s == StateOf(buf.rows[|buf.rows| - 1], input.init.p)
      invariant forall k | 0 <= k < |buf.rows| - 1 :: buf.rows[k].time < stop
      decreases numPoints - buf.actualPoints
    {
      var k := buf.actualPoints;
      if buf.cursor + w > buf.data.Length {
        if numPoints >= k + 1 {
          RowOffsetMonotone(k + 1, numPoints, w);
        }
        return true;
      }
      RowOffsetGrows(k + 1, numPoints, w);
      var next := Advance(solve, output, t, s, Tout(start, step, k));
      SteppedExtend(buf.rows, solve, output, start, step, input.init, RowOf(next));
      BeforeStopExtend(buf.rows, RowOf(next), stop);
      t, s := next.0, next.1;
      buf.AddResult(t, s.x, s.xd, s.y);
    }
    return false;
  }

  /**
   * The stepping of main on an empty buffer: one solver call and record
   * before the loop, then the loop. Returns true when a record would not
   * fit, where the source writes past the buffer: either numpoints is 0,
   * or all numpoints records are taken and the last is still before stop.
   */
  method Integrate(buf: TrajectoryBuffer, input: Input, solve: Solver, output: Output) returns (overrun: bool)
    requires buf.Valid() && buf.rows == [] && input.step != 0.0
    requires buf.numPoints == NumPoints(input.start, input.stop, input.step)
    requires StateFits(input.init, buf.nx, buf.ny, |input.init.p|)
    requires SolverKeepsShape(solve) && OutputFits(output, buf.ny)
    modifies buf, buf.data
    ensures buf.Valid()
    ensures !overrun ==> 1 <= |buf.rows| && Stepped(buf.rows, solve, output, input.start, input.step, input.init)
    ensures !overrun ==> (forall k | 0 <= k < |buf.rows| - 1 :: buf.rows[k].time < input.stop) &&
                         buf.rows[|buf.rows| - 1].time >= input.stop
    ensures overrun ==>
      ((buf.numPoints == 0 && buf.rows == []) ||
       (|buf.rows| == buf.numPoints && Stepped(buf.rows, solve, output, input.start, input.step, input.init) &&
        forall k | 0 <= k < |buf.rows| :: buf.rows[k].time < input.stop))
    ensures LandsOnTarget(solve) ==>
      (overrun <==> buf.numPoints == 0 || (input.step < 0.0 && input.start + input.step < input.stop))
    ensures LandsOnTarget(solve) && !overrun ==>
      forall k | 0 <= k < |buf.rows| :: buf.rows[k].time == Tout(input.start, input.step, k)
  {
    var start, stop, step := input.start, input.stop, input.step;
    var w := RecordWidth(buf.nx, buf.ny);
    if buf.cursor + w > buf.data.Length {
      return true;
    }
    var next := Advance(solve, output, start, input.init, start + step);
    buf.AddResult(next.0, next.1.x, next.1.xd, next.1.y);
    overrun := StepWhileBefore(buf, input, solve, output, next.0, StateOf(RowOf(next), input.init.p));
    RowOffsetGrows(|buf.rows|, buf.numPoints, w);
    if LandsOnTarget(solve) {
      if overrun {
        IdealRoom(buf.rows, solve, output, start, stop, step, input.init);
      } else {
        IdealTimes(buf.rows, solve, output, start, step, input.init);
        if step < 0.0 && start + step < stop {
          IdealBackward(buf.rows, solve, output, start, stop, step, input.init);
          assert false;
        }
      }
    }
  }

  /** store_result on the buffer main filled: the plot reads back every record. */
  method StoreTrajectory(buf: TrajectoryBuffer, varnames: seq<string>) returns (plot: Plot)
    requires buf.Valid() && 2 * buf.nx + buf.ny <= |varnames|
    ensures AllShaped(buf.rows, buf.nx, buf.ny) && PlotOf(plot, buf.rows, buf.nx, buf.ny, varnames)
  {
    var w := RecordWidth(buf.nx, buf.ny);
    RowOffsetIsProduct(buf.actualPoints, w);
    plot := StoreResult(buf.data, buf.actualPoints, buf.nx, buf.ny, varnames);
    ghost var cells := buf.data[..];
    ReadBack(cells, buf.rows, buf.nx, buf.ny);
    forall c, i | 0 <= c < |plot.dataSets| && 0 <= i < |buf.rows|
      ensures plot.dataSets[c].points[i] == (buf.rows[i].time, Column(buf.rows[i], buf.nx, buf.ny, c))
    {
      assert cells[RowOffset(i, w)] == Column(buf.rows[i], buf.nx, buf.ny, 0);
      assert cells[RowOffset(i, w) + c] == Column(buf.rows[i], buf.nx, buf.ny, c);
    }
  }

  /**
   * What main promises once read_input has produced `input` (the contract
   * of Simulate): each error tied to its cause, between 1 and numpoints records stepped
   * from the input, all but the last before stop and the last at or after
   * it, their plot, and with the ideal solver the exact success condition
   * and the record times.
   */
  ghost predicate SimulationOutcome(input: Input, b: Binding, solve: Solver, output: Output,
                                    r: Result<Plot, RunError>, rows: seq<Row>)
  {
    (r.Err? ==> r.error.ZeroStep? || r.error.AllocationFailed? || r.error.BufferOverrun?) &&
    (r == Err(ZeroStep) <==> input.step == 0.0) &&
    ((r.Err? && r.error.AllocationFailed?) <==>
      input.step != 0.0 && NumPoints(input.start, input.stop, input.step) < 0) &&
    (input.step != 0.0 && NumPoints(input.start, input.stop, input.step) < 0 ==>
      r == Err(AllocationFailed(Capacity(NumPoints(input.start, input.stop, input.step), b.nx, b.ny)))) &&
    (input.step != 0.0 && NumPoints(input.start, input.stop, input.step) == 0 ==> r == Err(BufferOverrun)) &&
    (r == Err(BufferOverrun) ==>
      (input.step != 0.0 &&
       (NumPoints(input.start, input.stop, input.step) == 0 ||
        (|rows| == NumPoints(input.start, input.stop, input.step) &&
         Stepped(rows, solve, output, input.start, input.step, input.init) &&
         forall k | 0 <= k < |rows| :: rows[k].time < input.stop)))) &&
    (r.Ok? ==> input.step != 0.0 && 1 <= |rows| <= NumPoints(input.start, input.stop, input.step) &&
               Stepped(rows, solve, output, input.start, input.step, input.init) &&
               (forall k | 0 <= k < |rows| - 1 :: rows[k].time < input.stop) && rows[|rows| - 1].time >= input.stop &&
               AllShaped(rows, b.nx, b.ny) && PlotOf(r.value, rows, b.nx, b.ny, b.varnames)) &&
    (LandsOnTarget(solve) ==>
      (r.Ok? <==> input.step != 0.0 && NumPoints(input.start, input.stop, input.step) >= 1 &&
                  (input.step > 0.0 || input.start + input.step >= input.stop))) &&
    (LandsOnTarget(solve) && r.Ok? ==> forall k | 0 <= k < |rows| :: rows[k].time == Tout(input.start, input.step, k))
  }

  /**
   * A run whose stop is start, stepping forward with the ideal solver,
   * succeeds with exactly one record, taken at start + step.
   */
  lemma ZeroHorizonOneRecord(input: Input, b: Binding, solve: Solver, output: Output,
                             r: Result<Plot, RunError>, rows: seq<Row>)
    requires SimulationOutcome(input, b, solve, output, r, rows) && LandsOnTarget(solve)
    requires input.step > 0.0 && input.stop == input.start
    ensures r.Ok? && |rows| == 1 && rows[0].time == input.start + input.step
  {
    assert NumPoints(input.start, input.stop, input.step) == 2;
    assert rows[0].time == Tout(input.start, input.step, 0);
  }

  /**
   * A forward run (step > 0, start <= stop) never fails for want of a
   * step or an allocation: it either succeeds or takes all numpoints
   * records, stepped from the input, without reaching stop.
   */
  lemma ForwardRunOutcome(input: Input, b: Binding, solve: Solver, output: Output,
                          r: Result<Plot, RunError>, rows: seq<Row>)
    requires SimulationOutcome(input, b, solve, output, r, rows)
    requires input.step > 0.0 && input.start <= input.stop
    ensures r.Ok? || r == Err(BufferOverrun)
    ensures r.Err? ==>
      (|rows| == NumPoints(input.start, input.stop, input.step) &&
       Stepped(rows, solve, output, input.start, input.step, input.init) &&
       forall k | 0 <= k < |rows| :: rows[k].time < input.stop)
  {
    NumPointsForward(input.start, input.stop, input.step);
  }

  /**
   * main after read_input: the buffer sizing, the stepping and
   * store_result. Writing past the buffer, which the source leaves
   * unchecked, is reported as BufferOverrun instead.
   */
  method Simulate(input: Input, b: Binding, solve: Solver, output: Output)
    returns (r: Result<Plot, RunError>, ghost rows: seq<Row>)
    requires NamesFit(b) && StateFits(input.init, b.nx, b.ny, b.np)
    requires SolverKeepsShape(solve) && OutputFits(output, b.ny)
    ensures r.Err? ==> r.error.ZeroStep? || r.error.AllocationFailed? || r.error.BufferOverrun?
    ensures r == Err(ZeroStep) <==> input.step == 0.0
    ensures (r.Err? && r.error.AllocationFailed?) <==>
      input.step != 0.0 && NumPoints(input.start, input.stop, input.step) < 0
    ensures input.step != 0.0 && NumPoints(input.start, input.stop, input.step) < 0 ==>
      r == Err(AllocationFailed(Capacity(NumPoints(input.start, input.stop, input.step), b.nx, b.ny)))
    ensures input.step != 0.0 && NumPoints(input.start, input.stop, input.step) == 0 ==> r == Err(BufferOverrun)
    ensures r == Err(BufferOverrun) ==>
      (input.step != 0.0 &&
       (NumPoints(input.start, input.stop, input.step) == 0 ||
        (|rows| == NumPoints(input.start, input.stop, input.step) &&
         Stepped(rows, solve, output, input.start, input.step, input.init) &&
         forall k | 0 <= k < |rows| :: rows[k].time < input.stop)))
    ensures r.Ok? ==> input.step != 0.0 && 1 <= |rows| <= NumPoints(input.start, input.stop, input.step)
    ensures r.Ok? ==> Stepped(rows, solve, output, input.start, input.step, input.init)
    ensures r.Ok? ==> (forall k | 0 <= k < |rows| - 1 :: rows[k].time < input.stop) && rows[|rows| - 1].time >= input.stop
    ensures r.Ok? ==> AllShaped(rows, b.nx, b.ny) && PlotOf(r.value, rows, b.nx, b.ny, b.varnames)
    ensures LandsOnTarget(solve) ==>
      (r.Ok? <==> input.step != 0.0 && NumPoints(input.start, input.stop, input.step) >= 1 &&
                  (input.step > 0.0 || input.start + input.step >= input.stop))
    ensures LandsOnTarget(solve) && r.Ok? ==> forall k | 0 <= k < |rows| :: rows[k].time == Tout(input.start, input.step, k)
  {
    rows := [];
    if input.step == 0.0 {
      return Err(ZeroStep), rows;
    }
    var numPoints := NumPoints(input.start, input.stop, input.step);
    if numPoints < 0 {
      return Err(AllocationFailed(Capacity(numPoints, b.nx, b.ny))), rows;
    }
    var buf := new TrajectoryBuffer(numPoints, b.nx, b.ny);
    var overrun := Integrate(buf, input, solve, output);
    if overrun {
      return Err(BufferOverrun), buf.rows;
    }
    var plot := StoreTrajectory(buf, b.varnames);
    RowOffsetGrows(buf.actualPoints, numPoints, RecordWidth(b.nx, b.ny));
    rows := buf.rows;
    return Ok(plot), rows;
  }

  /**
   * main: read_input on the initial-value file, then the simulation and
   * store_result. A failed read ends the run before anything is allocated.
   */
  method Run(file: Option<seq<Line>>, b: Binding, solve: Solver, output: Output)
    returns (r: Result<Plot, RunError>, ghost rows: seq<Row>)
    requires NamesFit(b) && SolverKeepsShape(solve) && OutputFits(output, b.ny)
    ensures file.None? ==> r == Err(LoadFailed(CannotOpen))
    ensures !WellFormed(file, b.nx, b.ny, b.np) <==> r.Err? && r.error.LoadFailed?
    ensures !WellFormed(file, b.nx, b.ny, b.np) ==> r == Err(LoadFailed(LoadFailure(file, b.nx, b.ny, b.np)))
    ensures WellFormed(file, b.nx, b.ny, b.np) ==>
      SimulationOutcome(InitialValues(file.value, b.nx, b.ny, b.np), b, solve, output, r, rows)
  {
    rows := [];
    var loaded := ReadInput(file, b.nx, b.ny, b.np);
    if loaded.Err? {
      return Err(LoadFailed(loaded.error)), rows;
    }
    assert WellFormed(file, b.nx, b.ny, b.np) && loaded.value == InitialValues(file.value, b.nx, b.ny, b.np);
    r, rows := Simulate(loaded.value, b, solve, output);
    assert SimulationOutcome(loaded.value, b, solve, output, r, rows);
  }
}
