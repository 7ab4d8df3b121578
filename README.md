# Prolongation operator of the MFEM kernels backend, in Dafny

This project models `backends/kernels/linalg/prolong.cpp` of MFEM's kernels
backend. It has three parts:

- the scratch pool `GetHostVector` (module `ScratchPool`);
- the synchronization bridge `KernelsMult` / `KernelsMultTranspose` (module `SyncBridge`);
- `ProlongationOperator`: its two constructors and the dispatch of `Mult_` / `MultTranspose_` (module `Prolongation`).

Module `Operators` holds the shared vocabulary, and module `Scenarios` works
through one concrete operator.

The pool is a class `Pool` whose slots are `HostVector` objects. `GetHostVector`
appends fresh empty vectors until slot `id` exists, then resizes that slot when
`size` is not negative. Its contract ties the new slot lengths to the function
`Acquire` of the old ones. It also states that existing slots keep their
identity, that every other slot keeps its contents, and that the returned
vector is slot `id`. The lemmas about `Acquire` and about a series of requests
(`AcquireAll`) cover growth, framing and idempotence.

Host operators (`mfem::Operator`) are values of `LinearOperator`. Each one has
a width, a height and two arbitrary maps on `seq<real>`, which `WellFormed`
ties to the dimensions.

The device's memory model is the boolean `separate`. A device vector's memory
is an `array<real>`. Under unified memory the host views are views over that
same array. `Pull`/`Push` do not change the values.

A failed `assert` is modelled as an `Aborted` outcome that leaves `y` unchanged.
The pure functions `BridgeMult`, `MultEffect` and `MultTransposeEffect` say
what each call does to `y`. The methods over arrays are proved to perform
exactly that.

The operator modes come from the code:

- The constructor from a pair of device sparse matrices sets `pmat` to null. Its multiplies run on the device (`Mode.Native`).
- The constructor from layouts carries the matrix (`Mode.Explicit`).
- The constructor from layouts with a null matrix makes the operator its own multiply operator (`Mode.SelfDelegating`).

It is the layout constructor, not the sparse-pair one, that carries the
matrix. The code checks only one size: `y` in the matrix `Mult_`, compared
with the matrix width; every other size is left to the operator that is called. `Prolongation.Mult` keeps that
check as written. The finding below gives the check the code evidently means.

## Model

| member | source | states |
|---|---|---|
| `Operators.Apply` | backends/kernels/linalg/prolong.cpp:64 | applying an operator's map writes exactly the map of the old input into the output array |
| `ScratchPool.Grow` | backends/kernels/linalg/prolong.cpp:28-34 | the growth loop extends the pool to `max(old length, id + 1)` slots, keeps every existing slot and adds only empty ones |
| `ScratchPool.Acquire` | backends/kernels/linalg/prolong.cpp:28-38 | after a request the pool has `max(old length, id + 1)` slots; every slot other than `id` keeps its length; slots created by the request are empty; slot `id` has `size` when `size >= 0`, otherwise its previous length (0 if it was just created) |
| `ScratchPool.AcquireIdempotent` | backends/kernels/linalg/prolong.cpp:28-38 | asking again for the same slot with a negative size, or with the same size, changes no slot length |
| `ScratchPool.AcquireAllFrames` | backends/kernels/linalg/prolong.cpp:24-41 | over any series of requests the pool never shrinks, its length is the extent the largest requested id needs, every requested id is a valid slot, and a slot nobody requested keeps its length |
| `ScratchPool.ZeroThenThreeMaterializesFour` | backends/kernels/linalg/prolong.cpp:28-34 | requesting slot 0 and then slot 3 of an empty pool yields four empty slots |
| `ScratchPool.HostVector.constructor` | backends/kernels/linalg/prolong.cpp:32 | a slot created by the pool starts as an empty vector |
| `ScratchPool.HostVector.SetSize` | backends/kernels/linalg/prolong.cpp:37 | resizing a slot's vector gives it exactly the requested length |
| `ScratchPool.Pool.constructor` | backends/kernels/linalg/prolong.cpp:27 | the pool starts with no slots |
| `ScratchPool.Pool.GetHostVector` | backends/kernels/linalg/prolong.cpp:24-41 | slot lengths become `Acquire` of the old lengths; existing slots keep their identity and order; the added slots are fresh vectors; every other old slot keeps its contents, and so does slot `id` when `size` is negative; the pool stays a pool of distinct vectors; the result is slot `id` |
| `SyncBridge.SeparateMemoryNeverReachesOperator` | backends/kernels/linalg/prolong.cpp:48-50 | on a device with a separate memory space both bridge functions stop whatever the operator and input are, so the operator is never reached |
| `SyncBridge.UnifiedMemoryDelegates` | backends/kernels/linalg/prolong.cpp:57-66 | on unified memory the bridge writes exactly the operator's product (forward or transpose), a vector of the operator's output dimension |
| `SyncBridge.BridgeMult` | backends/kernels/linalg/prolong.cpp:44-68 | `KernelsMult` as an effect on `y`: it writes exactly when the memory is unified, and then a vector of the operator's output size; otherwise it stops for the separate memory space |
| `SyncBridge.BridgeMultTranspose` | backends/kernels/linalg/prolong.cpp:71-97 | `KernelsMultTranspose` as an effect on `y`: it writes exactly when the memory is unified, and then a vector of the operator's input size; otherwise it stops for the separate memory space |
| `SyncBridge.KernelsMult` | backends/kernels/linalg/prolong.cpp:44-68 | stops with `y` unchanged exactly when the memory is separate; otherwise completes with `y == op.Mult(x)`; performs exactly `BridgeMult`; `x` is never changed unless it is `y` |
| `SyncBridge.KernelsMultTranspose` | backends/kernels/linalg/prolong.cpp:71-97 | stops with `y` unchanged exactly when the memory is separate; otherwise completes with `y == op.MultTranspose(x)`; performs exactly `BridgeMultTranspose`; `x` is never changed unless it is `y` |
| `Prolongation.FromSparsePair` | backends/kernels/linalg/prolong.cpp:100-105 | the sparse-pair constructor builds an operator with no matrix that multiplies with the two given sparse matrices and takes its dimensions from the first |
| `Prolongation.FromLayouts` | backends/kernels/linalg/prolong.cpp:108-114 | the layout constructor takes its dimensions from the layouts; it is in explicit mode exactly when a matrix is given, and with no matrix it delegates to itself |
| `Prolongation.MultEffect` | backends/kernels/linalg/prolong.cpp:117-133 | without a matrix, `Mult_` writes the device multiply's result on any device; with one, it completes exactly when `y` has the matrix WIDTH entries and memory is unified, writing the matrix product; otherwise it stops with the size failure or the memory failure |
| `Prolongation.MultTransposeEffect` | backends/kernels/linalg/prolong.cpp:136-149 | without a matrix, `MultTranspose_` writes the forward product of the transpose sparse matrix; with one, it completes exactly when memory is unified, with no size check, writing the matrix's transpose product |
| `Prolongation.Mult` | backends/kernels/linalg/prolong.cpp:117-133 | on arrays, `Mult_` reports and writes what `MultEffect` says, and leaves `x` unchanged unless it is `y` |
| `Prolongation.MultTranspose` | backends/kernels/linalg/prolong.cpp:136-149 | on arrays, `MultTranspose_` reports and writes what `MultTransposeEffect` says, and leaves `x` unchanged unless it is `y` |
| `Prolongation.NativeModeIgnoresDevice` | backends/kernels/linalg/prolong.cpp:127-131 | without a matrix both multiplies always complete and do not depend on the device's memory model: the bridge and the pool are never used |
| `Prolongation.MultRejectsConformingOutput` | backends/kernels/linalg/prolong.cpp:121-123 | with a non-square matrix, `Mult_` as written stops on every `y` whose size is the matrix's output dimension |
| `Prolongation.IntendedMultEffect` | backends/kernels/linalg/prolong.cpp:121-125 | corrected `Mult_`: without a matrix it is the code's `Mult_`; with one it completes exactly when memory is unified and `y` has the matrix HEIGHT entries, writing the matrix product |
| `Prolongation.IntendedMultMatchesOperator` | backends/kernels/linalg/prolong.cpp:121-125 | with the output checked against the matrix height, the matrix multiply completes exactly when memory is unified and `y` has the matrix's output size, and then writes the matrix product of that size |
| `Prolongation.IntendedExplicitAgreesWithNative` | backends/kernels/linalg/prolong.cpp:117-133 | with the intended check, giving a matrix through the layouts or as a device sparse matrix writes the same `y` on unified memory |
| `Scenarios.ExplicitProjectionAborts` | backends/kernels/linalg/prolong.cpp:123 | as written, the 3-to-2 projection as matrix stops on `x = [1, 2, 3]` with a two-entry `y` |
| `Scenarios.ProjectionWritesThreeThree` | backends/kernels/linalg/prolong.cpp:117-133 | with the intended check the projection writes `[3, 3]`, and so does the sparse-pair operator on either kind of device |

## Left out

- Tracing calls (`push()`, `pop()`, `dbg(...)`): they do not affect behaviour.
- Memory coherence behind `Pull()`, `Pull(false)`, `Push()` and `KernelsMem().ptr()`: unified memory is one shared array, and these calls keep its values.
- The copy path for devices with a separate memory space: it is commented out in the code. The model stops there, as the `assert(false)` does.
- Builds with `NDEBUG`: both `assert`s disappear and the calls continue. The model follows builds with assertions enabled.
- Floating point and the arithmetic inside host operators and device sparse matrices: these are foreign code. They are arbitrary maps on reals, constrained only by `WellFormed`.
- Device lookup `x.KernelsLayout().KernelsEngine().GetDevice()`: it is the boolean parameter `separate`. Layouts are reduced to their sizes.
- Sizes checked inside the host operator or the sparse matrix: these are callee code. Each `requires` states the sizes the callee demands, only on the path that reaches it.
- Aliasing of `x` and `y`: the model reads all of `x` before writing `y`. A real operator given the same vector twice may behave differently.
- The process-wide `static` storage of the pool: it is a `Pool` object passed by reference. Thread safety, heap ownership and leaks of the pooled vectors are not modelled.
- The build-flag guard around the file: not modelled.
- Negative `id`: the `(size_t)` cast leads to out-of-range indexing. `id` is a `nat`.
- `ScratchPool.Pool.GetHostVector`: does not model how the 64-bit `size` is narrowed when passed to `SetSize(int)`, nor overflow of `id + 1`.
- `ScratchPool.HostVector.SetSize`: states only the new length. MFEM's `Vector::SetSize` is not part of this model, and its contents after a resize are not promised.
- `Prolongation.Mult`: requires that the operator is not in `SelfDelegating` mode. In that mode `Mult_` calls itself until the stack runs out, which is not modelled.
- `Prolongation.MultTranspose`: has the same requirement, for the same reason.
- The commented-out `Mult` and `MultTranspose` of `ProlongationOperator`: they are dead code.

## Findings

| source | as written | input that shows it | evidently intended | confidence | as-written member | corrected member |
|---|---|---|---|---|---|---|
| backends/kernels/linalg/prolong.cpp:123 | `assert(y.Size()==pmat->Width())`: `Mult_` compares the output vector with the matrix's input dimension | the projection from 3 entries to 2 as `pmat`, `x = [1, 2, 3]`, `y` of 2 entries, unified memory: the call stops although both vectors conform | `y.Size()==pmat->Height()`, which then writes `y = [3, 3]` | not executed; high, whenever the matrix is not square (several ranks, non-conforming meshes) | `Prolongation.MultRejectsConformingOutput` | `Prolongation.IntendedMultEffect` |

`Prolongation.Mult` keeps the check as the code has it.
`Prolongation.IntendedMultMatchesOperator` states the intended behaviour, and
`Scenarios.ProjectionWritesThreeThree` works through the example above.
