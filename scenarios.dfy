/**
 * A worked case: the projection `y = [x0 + x1, x2]` from three entries to two,
 * with transpose `x = [y0, y0, y1]`, used as the matrix of a prolongation
 * operator and as its device sparse-matrix pair.
 */
module Scenarios {
  import opened Operators
  import opened Prolongation

  function Project(x: seq<real>): seq<real> {
    if |x| == 3 then [x[0] + x[1], x[2]] else [0.0, 0.0]
  }

  function ProjectTranspose(y: seq<real>): seq<real> {
    if |y| == 2 then [y[0], y[0], y[1]] else [0.0, 0.0, 0.0]
  }

  /** The projection as a 3-to-2 operator. */
  function Projection(): (op: LinearOperator)
    ensures WellFormed(op) && op.width == 3 && op.height == 2
  {
    LinearOperator(3, 2, Project, ProjectTranspose)
  }

  /** The transpose as an operator of its own, as the second matrix of a sparse pair. */
  function ProjectionTranspose(): (op: LinearOperator)
    ensures WellFormed(op) && op.width == 2 && op.height == 3
  {
    LinearOperator(2, 3, ProjectTranspose, Project)
  }

  /**
   * As written, `Mult_` with the projection as its matrix stops on
   * x = [1, 2, 3] and a y of the two entries the projection produces.
   */
  lemma ExplicitProjectionAborts()
    ensures MultEffect(FromLayouts(3, 2, Some(Projection())), false, [1.0, 2.0, 3.0], 2) == Aborts(OutputSizeMismatch)
  {
  }

  /**
   * With the intended check the same call writes [3, 3], which is also what the
   * device sparse pair writes, on either kind of device.
   */
  lemma ProjectionWritesThreeThree(separate: bool)
    ensures IntendedMultEffect(FromLayouts(3, 2, Some(Projection())), false, [1.0, 2.0, 3.0], 2) == Writes([3.0, 3.0])
    ensures MultEffect(FromSparsePair(Projection(), ProjectionTranspose()), separate, [1.0, 2.0, 3.0], 2)
         == Writes([3.0, 3.0])
  {
    assert Project([1.0, 2.0, 3.0]) == [3.0, 3.0];
  }

  /** The operations on arrays, from a caller's side. */
  method ProjectionClient() {
    var x := new real[3];
    x[0], x[1], x[2] := 1.0, 2.0, 3.0;
    var y := new real[2];
    assert x[..] == [1.0, 2.0, 3.0];

    var explicit := FromLayouts(3, 2, Some(Projection()));
    var st := Mult(explicit, false, x, y);
    assert st == Aborted(OutputSizeMismatch);

    var native := FromSparsePair(Projection(), ProjectionTranspose());
    st := Mult(native, true, x, y);
    assert st == Completed && y[..] == [3.0, 3.0];

    // the transpose path has no size check: it completes on unified memory
    var back := new real[3];
    st := MultTranspose(explicit, false, y, back);
    assert st == Completed && back[..] == [3.0, 3.0, 3.0];
    st := MultTranspose(explicit, true, y, back);
    assert st == Aborted(SeparateMemorySpace) && back[..] == [3.0, 3.0, 3.0];
  }
}
