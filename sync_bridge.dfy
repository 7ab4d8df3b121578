/**
 * The synchronization bridge: `KernelsMult` and `KernelsMultTranspose` apply
 * a host operator to device vectors.
 *
 * The device's memory model is the boolean `separate` ("has a separate memory
 * space"). A device vector's memory is an `array<real>`; under unified memory
 * the host views `hostX` and `hostY` are views over that same array, and
 * `Pull`/`Push` leave its values as they are. On a device with a separate
 * memory space both functions stop at `assert(false)`: the copy through scratch
 * vectors is not written.
 */
module SyncBridge {
  import opened Operators

  /** What `KernelsMult(op, x, y)` does to `y`. */
  function BridgeMult(op: LinearOperator, separate: bool, x: seq<real>): (e: Effect)
    ensures e.Writes? <==> !separate
    ensures e.Aborts? ==> e.reason == SeparateMemorySpace
    ensures WellFormed(op) && |x| == op.width && e.Writes? ==> |e.values| == op.height
  {
    if separate then Aborts(SeparateMemorySpace) else Writes(op.mult(x))
  }

  /** What `KernelsMultTranspose(op, x, y)` does to `y`. */
  function BridgeMultTranspose(op: LinearOperator, separate: bool, x: seq<real>): (e: Effect)
    ensures e.Writes? <==> !separate
    ensures e.Aborts? ==> e.reason == SeparateMemorySpace
    ensures WellFormed(op) && |x| == op.height && e.Writes? ==> |e.values| == op.width
  {
    if separate then Aborts(SeparateMemorySpace) else Writes(op.multTranspose(x))
  }

  /**
   * With a separate memory space the bridge stops whatever the operator and
   * the input are: the operator is never reached.
   */
  lemma SeparateMemoryNeverReachesOperator(op1: LinearOperator, op2: LinearOperator, x1: seq<real>, x2: seq<real>)
    ensures BridgeMult(op1, true, x1) == BridgeMult(op2, true, x2) == Aborts(SeparateMemorySpace)
    ensures BridgeMultTranspose(op1, true, x1) == BridgeMultTranspose(op2, true, x2) == Aborts(SeparateMemorySpace)
  {
  }

  /**
   * Under unified memory the bridge writes exactly what the operator computes,
   * a vector of the operator's output dimension.
   */
  lemma UnifiedMemoryDelegates(op: LinearOperator, x: seq<real>)
    requires WellFormed(op)
    ensures |x| == op.width ==> BridgeMult(op, false, x) == Writes(op.mult(x)) && |op.mult(x)| == op.height
    ensures |x| == op.height ==>
      BridgeMultTranspose(op, false, x) == Writes(op.multTranspose(x)) && |op.multTranspose(x)| == op.width
  {
  }

  /**
   * `y := op * x` through host views over the device memory of `x` and `y`.
   * The sizes are what `op.Mult` demands of its arguments, so they matter only
   * on the path that reaches it.
   */
  method KernelsMult(op: LinearOperator, separate: bool, x: array<real>, y: array<real>) returns (st: Outcome)
    requires !separate ==> WellFormed(op) && x.Length == op.width && y.Length == op.height
    modifies y
    ensures st == Completed <==> !separate
    ensures separate ==> st == Aborted(SeparateMemorySpace) && y[..] == old(y[..])
    ensures !separate ==> y[..] == op.mult(old(x[..]))
    ensures Performs(BridgeMult(op, separate, old(x[..])), st, old(y[..]), y[..])
    ensures x != y ==> x[..] == old(x[..])
  {
    if separate {
      st := Aborted(SeparateMemorySpace);
      return;
    }
    // hostX views x and hostY views y; Pull, Pull(false) and Push move no values
    Apply(op.mult, x, y);
    st := Completed;
  }

  /** `y := op^T * x`, the same way, with width and height exchanged. */
  method KernelsMultTranspose(op: LinearOperator, separate: bool, x: array<real>, y: array<real>) returns (st: Outcome)
    requires !separate ==> WellFormed(op) && x.Length == op.height && y.Length == op.width
    modifies y
    ensures st == Completed <==> !separate
    ensures separate ==> st == Aborted(SeparateMemorySpace) && y[..] == old(y[..])
    ensures !separate ==> y[..] == op.multTranspose(old(x[..]))
    ensures Performs(BridgeMultTranspose(op, separate, old(x[..])), st, old(y[..]), y[..])
    ensures x != y ==> x[..] == old(x[..])
  {
    if separate {
      st := Aborted(SeparateMemorySpace);
      return;
    }
    Apply(op.multTranspose, x, y);
    st := Completed;
  }
}
