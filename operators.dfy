/**
 * Linear operators as the prolongation code sees them, and the vocabulary the
 * other modules use to describe what a multiply call does to its output vector.
 *
 * An `mfem::Operator` reports a width (input dimension) and a height (output
 * dimension) and offers `Mult` and `MultTranspose`. The arithmetic behind those
 * calls is foreign code working in floating point; here the two maps are
 * arbitrary functions on sequences of reals, tied to the dimensions by
 * `WellFormed`.
 */
module Operators {

  datatype Option<T> = None | Some(value: T)

  datatype LinearOperator = LinearOperator(
    width: nat,
    height: nat,
    mult: seq<real> -> seq<real>,
    multTranspose: seq<real> -> seq<real>)

  /** `mult` takes width-sized inputs to height-sized outputs, `multTranspose` the reverse. */
  ghost predicate WellFormed(op: LinearOperator) {
    && (forall x: seq<real> | |x| == op.width :: |op.mult(x)| == op.height)
    && (forall x: seq<real> | |x| == op.height :: |op.multTranspose(x)| == op.width)
  }

  /** Why a call stops at a failed assertion. */
  datatype Failure =
    | SeparateMemorySpace  // the device reports its own memory space: the staging copy is not written
    | OutputSizeMismatch   // the explicit-matrix multiply rejected the size of `y`

  /** What a call does to its output vector `y`, as a value: new contents, or a stop. */
  datatype Effect = Writes(values: seq<real>) | Aborts(reason: Failure)

  /** What a method reports back. */
  datatype Outcome = Completed | Aborted(reason: Failure)

  /**
   * The call whose effect is `e` reported `st` and took `y` from `before` to
   * `after`: a write leaves exactly `e.values`, a stop leaves `y` as it was.
   */
  ghost predicate Performs(e: Effect, st: Outcome, before: seq<real>, after: seq<real>) {
    match e
    case Writes(values) => st == Completed && after == values
    case Aborts(reason) => st == Aborted(reason) && after == before
  }

  /**
   * Applies the map `f` to the contents of `x` and stores the result in `y`,
   * as an operator's `Mult(x, y)` does. All of `x` is read before `y` is written.
   */
  method Apply(f: seq<real> -> seq<real>, x: array<real>, y: array<real>)
    requires |f(x[..])| == y.Length
    modifies y
    ensures y[..] == f(old(x[..]))
  {
    var r := f(x[..]);
    forall i | 0 <= i < y.Length {
      y[i] := r[i];
    }
  }
}
