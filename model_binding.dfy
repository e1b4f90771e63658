/**
 * What the generated model unit supplies to the runtime: its dimensions,
 * its variable names and the state arrays x, xd, y and p.
 */
module ModelBinding {

  /** The DAE state at one instant: states, their derivatives, algebraics, parameters. */
  datatype SimState = SimState(x: seq<real>, xd: seq<real>, y: seq<real>, p: seq<real>)

  /** Compiled-in dimensions and variable names of the model. */
  datatype Binding = Binding(nx: nat, ny: nat, np: nat, varnames: seq<string>)

  /** The names are ordered [state names][derivative names][algebraic names]. */
  predicate NamesFit(b: Binding) {
    |b.varnames| == 2 * b.nx + b.ny
  }

  predicate StateFits(s: SimState, nx: nat, ny: nat, np: nat) {
    |s.x| == nx && |s.xd| == nx && |s.y| == ny && |s.p| == np
  }
}
