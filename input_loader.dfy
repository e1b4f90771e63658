/**
 * read_input and read_commented_value: the initial-value file, one value
 * per line followed by an optional comment, read in a fixed order and
 * checked against the model's compiled-in dimensions.
 *
 * The file is given as its lines, each already split into the numeral's
 * value and the rest of the line; None stands for a file that cannot be
 * opened. Errors are returned instead of ending the process.
 */
module InputLoader {
  import opened Wrappers
  import opened Layout
  import opened ModelBinding

  datatype Line = Line(value: real, comment: string)

  datatype LoadError =
    | CannotOpen
    | UnexpectedEnd(line: nat)
    | DimensionMismatch(nxFound: int, nyFound: int, npFound: int)

  /** What the file yields: the time span, the step and the initial state. */
  datatype Input = Input(start: real, stop: real, step: real, init: SimState)

  /** Lines before the values: start, stop, step and the three counts. */
  const HeaderLines: nat := 6

  /** read_commented_value for a double: the line's value; the rest of the line is dropped. */
  function ReadCommentedValue(lines: seq<Line>, pos: nat): (r: Result<(real, nat), LoadError>)
    ensures r.Ok? <==> pos < |lines|
    ensures r.Ok? ==> r.value.1 == pos + 1 && r.value.0 == lines[pos].value
    ensures r.Err? ==> r.error == UnexpectedEnd(pos)
  {
    if pos < |lines| then Ok((lines[pos].value, pos + 1)) else Err(UnexpectedEnd(pos))
  }

  /** The count read from a line by the int overload, `f >> int`: the integer part. */
  function DeclaredCount(l: Line): int {
    Trunc(l.value)
  }

  /** read_commented_value for an int: the integer part of the line's value; the rest is dropped. */
  function ReadCommentedCount(lines: seq<Line>, pos: nat): (r: Result<(int, nat), LoadError>)
    ensures r.Ok? <==> pos < |lines|
    ensures r.Ok? ==> r.value.1 == pos + 1 && r.value.0 == Trunc(lines[pos].value)
    ensures r.Err? ==> r.error == UnexpectedEnd(pos)
  {
    if pos < |lines| then Ok((DeclaredCount(lines[pos]), pos + 1)) else Err(UnexpectedEnd(pos))
  }

  /** The values of the n lines starting at `from`. */
  function Values(lines: seq<Line>, from: nat, n: nat): (vs: seq<real>)
    requires from + n <= |lines|
    ensures |vs| == n && forall k | 0 <= k < n :: vs[k] == lines[from + k].value
  {
    seq(n, k requires 0 <= k < n => lines[from + k].value)
  }

  /** The declared counts agree with the model. */
  predicate CountsMatch(lines: seq<Line>, nx: nat, ny: nat, np: nat)
    requires HeaderLines <= |lines|
  {
    DeclaredCount(lines[3]) == nx && DeclaredCount(lines[4]) == ny && DeclaredCount(lines[5]) == np
  }

  /** Lines a file for these dimensions must have. */
  function FileLength(nx: nat, ny: nat, np: nat): nat {
    HeaderLines + 2 * nx + ny + np
  }

  /** A file read_input accepts: present, long enough and with the model's counts. */
  predicate WellFormed(file: Option<seq<Line>>, nx: nat, ny: nat, np: nat) {
    file.Some? && FileLength(nx, ny, np) <= |file.value| && CountsMatch(file.value, nx, ny, np)
  }

  /**
   * The error read_input stops with on a file it does not accept, checked
   * in its order: the file itself, the six header lines, the declared
   * counts (reported as read), then the values.
   */
  function LoadFailure(file: Option<seq<Line>>, nx: nat, ny: nat, np: nat): LoadError
    requires !WellFormed(file, nx, ny, np)
  {
    if file.None? then CannotOpen
    else if |file.value| < HeaderLines then UnexpectedEnd(|file.value|)
    else if !CountsMatch(file.value, nx, ny, np) then
      DimensionMismatch(DeclaredCount(file.value[3]), DeclaredCount(file.value[4]), DeclaredCount(file.value[5]))
    else UnexpectedEnd(|file.value|)
  }

  /** What a well-formed file holds: the three times, then x, xd, y and p in that order. */
  function InitialValues(lines: seq<Line>, nx: nat, ny: nat, np: nat): (i: Input)
    requires FileLength(nx, ny, np) <= |lines|
    ensures StateFits(i.init, nx, ny, np)
  {
    Input(lines[0].value, lines[1].value, lines[2].value,
          SimState(Values(lines, 6, nx), Values(lines, 6 + nx, nx),
                   Values(lines, 6 + 2 * nx, ny), Values(lines, 6 + 2 * nx + ny, np)))
  }

  function Uncommented(vs: seq<real>): (ls: seq<Line>)
    ensures |ls| == |vs| && forall k | 0 <= k < |vs| :: ls[k] == Line(vs[k], "")
  {
    seq(|vs|, k requires 0 <= k < |vs| => Line(vs[k], ""))
  }

  /**
   * An initial-value file for the input, in the order read_input reads it: the
   * three times, the three counts, then x, xd, y and p, one per line.
   */
  function InputFile(i: Input): seq<Line> {
    [Line(i.start, ""), Line(i.stop, ""), Line(i.step, ""),
     Line(|i.init.x| as real, ""), Line(|i.init.y| as real, ""), Line(|i.init.p| as real, "")] +
    Uncommented(i.init.x) + Uncommented(i.init.xd) + Uncommented(i.init.y) + Uncommented(i.init.p)
  }

  /** read_input gives back exactly what InputFile wrote, for the dimensions of the input. */
  lemma InputFileRoundTrip(i: Input, nx: nat, ny: nat, np: nat)
    requires StateFits(i.init, nx, ny, np)
    ensures |InputFile(i)| == FileLength(nx, ny, np)
    ensures CountsMatch(InputFile(i), nx, ny, np)
    ensures InitialValues(InputFile(i), nx, ny, np) == i
  {
  }

  /** One of read_input's value loops: n values from consecutive lines. */
  method ReadValues(lines: seq<Line>, from: nat, n: nat) returns (r: Result<seq<real>, LoadError>)
    requires from <= |lines|
    ensures from + n <= |lines| ==> r == Ok(Values(lines, from, n))
    ensures from + n > |lines| ==> r == Err(UnexpectedEnd(|lines|))
  {
    var vs: seq<real> := [];
    var pos := from;
    for i := 0 to n
      invariant pos == from + i && pos <= |lines|
      invariant vs == Values(lines, from, i)
    {
      var v :- ReadCommentedValue(lines, pos);
      vs := vs + [v.0];
      pos := v.1;
    }
    return Ok(vs);
  }

  /**
   * read_input: start, stop and step, then the declared nx, ny and np,
   * which must equal the model's; only then the nx values of x, the nx of
   * xd, the ny of y and the np of p, one line each.
   */
  method ReadInput(file: Option<seq<Line>>, nx: nat, ny: nat, np: nat) returns (r: Result<Input, LoadError>)
    ensures file.None? ==> r == Err(CannotOpen)
    ensures file.Some? && |file.value| < HeaderLines ==> r == Err(UnexpectedEnd(|file.value|))
    ensures file.Some? && HeaderLines <= |file.value| && !CountsMatch(file.value, nx, ny, np) ==>
      r == Err(DimensionMismatch(DeclaredCount(file.value[3]), DeclaredCount(file.value[4]), DeclaredCount(file.value[5])))
    ensures file.Some? && HeaderLines <= |file.value| < FileLength(nx, ny, np) && CountsMatch(file.value, nx, ny, np) ==>
      r == Err(UnexpectedEnd(|file.value|))
    ensures file.Some? && FileLength(nx, ny, np) <= |file.value| && CountsMatch(file.value, nx, ny, np) ==>
      r == Ok(InitialValues(file.value, nx, ny, np))
    ensures r.Ok? <==> WellFormed(file, nx, ny, np)
    ensures !WellFormed(file, nx, ny, np) ==> r == Err(LoadFailure(file, nx, ny, np))
  {
    if file.None? {
      return Err(CannotOpen);
    }
    var lines := file.value;
    var start :- ReadCommentedValue(lines, 0);
    var stop :- ReadCommentedValue(lines, start.1);
    var step :- ReadCommentedValue(lines, stop.1);
    var nxChk :- ReadCommentedCount(lines, step.1);
    var nyChk :- ReadCommentedCount(lines, nxChk.1);
    var npChk :- ReadCommentedCount(lines, nyChk.1);
    if nxChk.0 != nx || nyChk.0 != ny || npChk.0 != np {
      return Err(DimensionMismatch(nxChk.0, nyChk.0, npChk.0));
    }
    var pos := npChk.1;
    var x :- ReadValues(lines, pos, nx);
    pos := pos + nx;
    var xd :- ReadValues(lines, pos, nx);
    pos := pos + nx;
    var y :- ReadValues(lines, pos, ny);
    pos := pos + ny;
    var p :- ReadValues(lines, pos, np);
    return Ok(Input(start.0, stop.0, step.0, SimState(x, xd, y, p)));
  }
}
