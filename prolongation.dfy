/**
 * `ProlongationOperator`: an operator fixed at construction in one of its
 * modes, whose `Mult_` and `MultTranspose_` dispatch on whether it holds an
 * explicit host matrix `pmat`.
 *
 * - Built from a pair of device sparse matrices, it has no matrix and
 *   multiplies with those matrices directly on the device (`Native`).
 * - Built from two layouts and a matrix, it sends every multiply through the
 *   synchronization bridge with that matrix (`Explicit`).
 * - Built from two layouts and no matrix, its multiply operators are the
 *   operator itself, so `Mult_` would call itself without end
 *   (`SelfDelegating`); the multiplies require that this is not the mode.
 *
 * The operator is a value: neither multiply changes it.
 */
module Prolongation {
  import opened Operators
  import SyncBridge

  datatype Mode =
    | Explicit(pmat: LinearOperator)
    | Native(multOp: LinearOperator, multTransposeOp: LinearOperator)
    | SelfDelegating

  datatype ProlongationOperator = ProlongationOperator(width: nat, height: nat, mode: Mode)

  /** The constructor from two device sparse matrices: no matrix, the dimensions of `multOp`. */
  function FromSparsePair(multOp: LinearOperator, multTransposeOp: LinearOperator): (p: ProlongationOperator)
    ensures p.mode.Native? && p.mode.multOp == multOp && p.mode.multTransposeOp == multTransposeOp
    ensures p.width == multOp.width && p.height == multOp.height
  {
    ProlongationOperator(multOp.width, multOp.height, Native(multOp, multTransposeOp))
  }

  /**
   * The constructor from an input layout of `inSize` entries, an output layout
   * of `outSize` entries and an optional matrix.
   */
  function FromLayouts(inSize: nat, outSize: nat, pmat: Option<LinearOperator>): (p: ProlongationOperator)
    ensures p.width == inSize && p.height == outSize
    ensures p.mode.Explicit? <==> pmat.Some?
    ensures pmat.Some? ==> p.mode.pmat == pmat.value
    ensures pmat.None? ==> p.mode.SelfDelegating?
  {
    ProlongationOperator(inSize, outSize, if pmat.Some? then Explicit(pmat.value) else SelfDelegating)
  }

  /**
   * What `Mult_(x, y)` does to `y`, for `y` of `yLen` entries. With a matrix
   * the size of `y` is compared with the matrix WIDTH, as the code has it,
   * before the bridge is called; without one the device multiply runs, on any device.
   */
  function MultEffect(p: ProlongationOperator, separate: bool, x: seq<real>, yLen: nat): (e: Effect)
    requires !p.mode.SelfDelegating?
    ensures p.mode.Native? ==> e == Writes(p.mode.multOp.mult(x))
    ensures p.mode.Explicit? ==> (e.Writes? <==> !separate && yLen == p.mode.pmat.width)
    ensures p.mode.Explicit? && yLen != p.mode.pmat.width ==> e == Aborts(OutputSizeMismatch)
    ensures p.mode.Explicit? && yLen == p.mode.pmat.width && separate ==> e == Aborts(SeparateMemorySpace)
    ensures p.mode.Explicit? && e.Writes? ==> e.values == p.mode.pmat.mult(x)
  {
    match p.mode
    case Explicit(pmat) =>
      if yLen != pmat.width then Aborts(OutputSizeMismatch) else SyncBridge.BridgeMult(pmat, separate, x)
    case Native(multOp, _) => Writes(multOp.mult(x))
  }

  /**
   * What `MultTranspose_(x, y)` does to `y`: with a matrix, straight to the
   * bridge with no size check; without one, the forward multiply of the
   * transpose sparse matrix.
   */
  function MultTransposeEffect(p: ProlongationOperator, separate: bool, x: seq<real>): (e: Effect)
    requires !p.mode.SelfDelegating?
    ensures p.mode.Native? ==> e == Writes(p.mode.multTransposeOp.mult(x))
    ensures p.mode.Explicit? ==> (e.Writes? <==> !separate)
    ensures p.mode.Explicit? && separate ==> e == Aborts(SeparateMemorySpace)
    ensures p.mode.Explicit? && e.Writes? ==> e.values == p.mode.pmat.multTranspose(x)
  {
    match p.mode
    case Explicit(pmat) => SyncBridge.BridgeMultTranspose(pmat, separate, x)
    case Native(_, multTransposeOp) => Writes(multTransposeOp.mult(x))
  }

  /**
   * The sizes each path's callee demands: the bridge's host matrix when it is
   * reached, or the device sparse matrix.
   */
  ghost predicate MultAdmissible(p: ProlongationOperator, separate: bool, xLen: nat, yLen: nat) {
    match p.mode
    case Explicit(pmat) =>
      !separate && yLen == pmat.width ==> WellFormed(pmat) && xLen == pmat.width && yLen == pmat.height
    case Native(multOp, _) => WellFormed(multOp) && xLen == multOp.width && yLen == multOp.height
    case SelfDelegating => false
  }

  ghost predicate MultTransposeAdmissible(p: ProlongationOperator, separate: bool, xLen: nat, yLen: nat) {
    match p.mode
    case Explicit(pmat) => !separate ==> WellFormed(pmat) && xLen == pmat.height && yLen == pmat.width
    case Native(_, multTransposeOp) =>
      WellFormed(multTransposeOp) && xLen == multTransposeOp.width && yLen == multTransposeOp.height
    case SelfDelegating => false
  }

  /** `Mult_(x, y)`. */
  method Mult(p: ProlongationOperator, separate: bool, x: array<real>, y: array<real>) returns (st: Outcome)
    requires MultAdmissible(p, separate, x.Length, y.Length)
    modifies y
    ensures Performs(MultEffect(p, separate, old(x[..]), y.Length), st, old(y[..]), y[..])
    ensures x != y ==> x[..] == old(x[..])
  {
    match p.mode
    case Explicit(pmat) =>
      // the output is compared with the matrix's input dimension (see IntendedMultEffect)
      if y.Length != pmat.width {
        st := Aborted(OutputSizeMismatch);
      } else {
        st := SyncBridge.KernelsMult(pmat, separate, x, y);
      }
    case Native(multOp, _) =>
      Apply(multOp.mult, x, y);
      st := Completed;
  }

  /** `MultTranspose_(x, y)`. */
  method MultTranspose(p: ProlongationOperator, separate: bool, x: array<real>, y: array<real>) returns (st: Outcome)
    requires MultTransposeAdmissible(p, separate, x.Length, y.Length)
    modifies y
    ensures Performs(MultTransposeEffect(p, separate, old(x[..])), st, old(y[..]), y[..])
    ensures x != y ==> x[..] == old(x[..])
  {
    match p.mode
    case Explicit(pmat) =>
      st := SyncBridge.KernelsMultTranspose(pmat, separate, x, y);
    case Native(_, multTransposeOp) =>
      Apply(multTransposeOp.mult, x, y);
      st := Completed;
  }

  /**
   * Without a matrix, neither multiply depends on the device's memory model:
   * they never reach the bridge (nor, through it, the scratch pool).
   */
  lemma NativeModeIgnoresDevice(p: ProlongationOperator, x: seq<real>, yLen1: nat, yLen2: nat)
    requires p.mode.Native?
    ensures MultEffect(p, true, x, yLen1) == MultEffect(p, false, x, yLen2)
    ensures MultTransposeEffect(p, true, x) == MultTransposeEffect(p, false, x)
    ensures MultEffect(p, true, x, yLen1).Writes? && MultTransposeEffect(p, true, x).Writes?
  {
  }

  /**
   * As written, `Mult_` with a matrix that is not square stops on every output
   * vector of the size the matrix produces.
   */
  lemma MultRejectsConformingOutput(p: ProlongationOperator, separate: bool, x: seq<real>)
    requires p.mode.Explicit? && p.mode.pmat.width != p.mode.pmat.height
    ensures MultEffect(p, separate, x, p.mode.pmat.height) == Aborts(OutputSizeMismatch)
  {
  }

  /**
   * What `Mult_` evidently means to do with a matrix: compare `y` with the
   * matrix HEIGHT, its output dimension.
   */
  function IntendedMultEffect(p: ProlongationOperator, separate: bool, x: seq<real>, yLen: nat): (e: Effect)
    requires !p.mode.SelfDelegating?
    ensures p.mode.Native? ==> e == MultEffect(p, separate, x, yLen)
    ensures p.mode.Explicit? ==> (e.Writes? <==> !separate && yLen == p.mode.pmat.height)
    ensures p.mode.Explicit? && e.Writes? ==> e.values == p.mode.pmat.mult(x)
  {
    match p.mode
    case Explicit(pmat) =>
      if yLen != pmat.height then Aborts(OutputSizeMismatch) else SyncBridge.BridgeMult(pmat, separate, x)
    case Native(multOp, _) => Writes(multOp.mult(x))
  }

  /**
   * With the intended check, a matrix multiply completes exactly when the
   * device shares memory and `y` has the matrix's output size, and then `y`
   * receives the product, of that size.
   */
  lemma IntendedMultMatchesOperator(p: ProlongationOperator, separate: bool, x: seq<real>, yLen: nat)
    requires p.mode.Explicit? && WellFormed(p.mode.pmat) && |x| == p.mode.pmat.width
    ensures IntendedMultEffect(p, separate, x, yLen).Writes? <==> !separate && yLen == p.mode.pmat.height
    ensures IntendedMultEffect(p, separate, x, yLen).Writes? ==>
      IntendedMultEffect(p, separate, x, yLen).values == p.mode.pmat.mult(x) && |p.mode.pmat.mult(x)| == yLen
  {
  }

  /**
   * With the intended check, a matrix given through the layouts and the same
   * matrix given as a device sparse matrix produce the same `y` on a
   * unified-memory device.
   */
  lemma IntendedExplicitAgreesWithNative(m: LinearOperator, t: LinearOperator, x: seq<real>, separate: bool)
    ensures IntendedMultEffect(FromLayouts(m.width, m.height, Some(m)), false, x, m.height)
         == MultEffect(FromSparsePair(m, t), separate, x, m.height)
  {
  }
}
