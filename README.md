# Reverse-AD dispatch and Lagrange-multiplier Hessians (gtsam_unstable)

This project models two small pieces of gtsam_unstable in Dafny and proves
what they promise.

**Call records (`call_record.dfy`, module `CallRecord`).** A `CallRecord<Cols>`
is the per-node record of the expression engine's reverse mode. It exposes:

- one backward-propagation entry point for each static row count
  1..`MaxVirtualStaticRows` (4);
- one entry point for dynamic rows;
- one entry point for a fully dynamic matrix.

`reverseAD<Rows>` converts a block with more than four static rows to dynamic
rows, then lets overload resolution pick the entry point. The implementor
chain wires every entry point to the node's single row-generic `reverseAD`.

The C++ code is compile-time structure, so the model works on values:

- a matrix type is a pair of `Dim`s;
- the interface chain is a sequence of `RowClass` entry points;
- the implementor chain is a table from entry point to handler;
- overload resolution is an exact match on parameter types, where `None`
  means the call does not compile.

The node's `reverseAD`, `print` and `startReverseAD` are function
parameters. The shared `JacobianMap` accumulator is threaded as a value. A
record is a value that no operation can change.

**Equality constraints (`equality_constraint.dfy`, module
`EqualityConstraint`).** A `NonlinearEqualityConstraint` holds a dual key
and an `active_` flag. Its `multipliedHessian` builds the
Lagrange-multiplier part of the QP Hessian for constraints over one, two or
three variables:

1. `vectorizeHkt` flattens the transposed Jacobian column-major.
2. `evaluateHessians` slices each stacked second-derivative matrix into one
   block per constraint component.
3. `multipliedHessian` returns nothing when inactive. It throws when a block
   vector's length differs from `dim(lambda)`. Otherwise it sums
   `-lambda[i] * G[i]` into the blocks of a `HessianFactor`.

Matrices are `seq<seq<real>>` (`matrices.dfy`, module `Matrices`: zeros,
sums, scaling, blocks, transposition and column-major flattening, with their
entry lemmas). Reals are exact. The variable identifier `Key` is declared once, in `keys.dfy` (module `Keys`), and shared by both components. The 1-variable factor's constant `100.0` is
kept as written.

## Model

| member | source | states |
|---|---|---|
| CallRecord.ConvertToDynamicRowsIf | gtsam_unstable/nonlinear/CallRecord.h:41-62 | the conversion keeps the entries and the column type; with `true` the rows become dynamic, with `false` the block is returned unchanged |
| CallRecord.ParamTypeInjective | gtsam_unstable/nonlinear/CallRecord.h:73-84 | two entry points take the same parameter type only if they are the same entry point, so at most one overload matches exactly |
| CallRecord.InterfaceEntries | gtsam_unstable/nonlinear/CallRecord.h:64-85 | the entry points of ReverseADInterface at a level: level n declares n+2 of them, dynamic rows and fully dynamic first, then Static(n) last (full coverage and distinctness: see InterfaceCoversEachClassOnce) |
| CallRecord.InterfaceCoversEachClassOnce | gtsam_unstable/nonlinear/CallRecord.h:64-85 | level n of the interface chain declares n+2 entry points, all distinct: exactly dynamic rows, fully dynamic and `Static(k)` for 1 <= k <= n (both directions) |
| CallRecord.RecordInterfaceEntries | gtsam_unstable/nonlinear/CallRecord.h:98-100 | the record's interface, at bound `MaxVirtualStaticRows` = 4, is exactly the six entry points dynamic rows, fully dynamic and Static(1..4) |
| CallRecord.Resolve | gtsam_unstable/nonlinear/CallRecord.h:113-115 | overload resolution returns an entry point of the interface whose parameter type is the argument's type; if it finds none, no entry point has that type |
| CallRecord.Route | gtsam_unstable/nonlinear/CallRecord.h:113-115 | the entry point `reverseAD<Rows>` reaches, after the conversion of more than 4 rows: when there is one, it is an entry point of the record's interface taking the record's column type (the full routing rule: see RouteByRowCount) |
| CallRecord.RouteByRowCount | gtsam_unstable/nonlinear/CallRecord.h:110-116 | 1..4 static rows reach `Static(rows)`; more than 4 static rows, and dynamic rows, reach dynamic rows; the fully dynamic entry point is never reached; 0 rows match nothing |
| CallRecord.ImplementorMatchesInterface | gtsam_unstable/nonlinear/CallRecord.h:136-167 | level n of the implementor chain implements exactly the entry points level n of the interface declares, and every handler gives the routine's result for the same block and accumulator |
| CallRecord.ImplementorTable | gtsam_unstable/nonlinear/CallRecord.h:136-167 | the handlers of ReverseADImplementor at a level: every entry point the interface declares at that level has a handler (no extra handler, and every handler forwards to the routine: see ImplementorMatchesInterface) |
| CallRecord.Implement | gtsam_unstable/nonlinear/CallRecord.h:169-186 | the implemented record is complete (one handler per interface entry point); every handler, `print` hook and `startReverseAD` hook agrees with the node's own on every argument |
| CallRecord.Print | gtsam_unstable/nonlinear/CallRecord.h:102-104 | `print` writes what the record's print hook writes (for an implemented record, the node's own text: see ImplementForwardsPrintAndStart) |
| CallRecord.StartReverseAD | gtsam_unstable/nonlinear/CallRecord.h:106-108 | `startReverseAD` applies the record's start hook to the accumulator (for an implemented record, the node's own: see ImplementForwardsPrintAndStart) |
| CallRecord.ReverseAD | gtsam_unstable/nonlinear/CallRecord.h:110-116 | `reverseAD<Rows>` compiles exactly when the block's columns are the record's and its row type routes to an entry point the record implements; the accumulator it leaves: see ReverseADReachesRoutine |
| CallRecord.ImplementForwardsPrintAndStart | gtsam_unstable/nonlinear/CallRecord.h:102-108 | `print` and `startReverseAD` of an implemented record return what the node's own functions return for the same argument |
| CallRecord.ReverseADReachesRoutine | gtsam_unstable/nonlinear/CallRecord.h:110-116 | with matching columns and nonzero rows, `reverseAD` gives the routine's result on the block itself (rows <= 4 or dynamic) or on the same entries retyped with dynamic rows (rows > 4); otherwise it does not compile |
| CallRecord.StaticDynamicEquivalence | gtsam_unstable/nonlinear/CallRecord.h:110-116 | for a row-generic routine, a block with 1..4 static rows and the same entries as a dynamic-rows block leave the same accumulator |
| CallRecord.OverflowMatchesDynamic | gtsam_unstable/nonlinear/CallRecord.h:113-115 | a block with more than 4 static rows leaves exactly the accumulator its dynamic-rows twin leaves, for any routine, with no truncation |
| CallRecord.EntryPointsAgree | gtsam_unstable/nonlinear/CallRecord.h:143-165 | any two entry points of an implemented record have the same effect on the accumulator for the same block: the routine's |
| EqualityConstraint.NonlinearEqualityConstraint.constructor | gtsam_unstable/nonlinear/NonlinearEqualityConstraint.h:46-49 | the constraint stores the dual key it is given |
| EqualityConstraint.NonlinearEqualityConstraint.IsActive | gtsam_unstable/nonlinear/NonlinearEqualityConstraint.h:36-38 | an equality constraint always reports itself active |
| EqualityConstraint.NonlinearEqualityConstraint.SetActive | gtsam_unstable/nonlinear/NonlinearEqualityConstraint.h:40-42 | the flag takes the given value and the dual key is unchanged |
| EqualityConstraint.NonlinearEqualityConstraint.DualKey | gtsam_unstable/nonlinear/NonlinearEqualityConstraint.h:57-60 | returns the stored dual key |
| EqualityConstraint.SetActiveKeepsConstraint | gtsam_unstable/nonlinear/NonlinearEqualityConstraint.h:36-42 | after `setActive_` the dual key is unchanged and the constraint still reports itself active, whatever the flag |
| EqualityConstraint.VectorizeTransposed | gtsam_unstable/nonlinear/NonlinearEqualityConstraint.h:159-166 | `vectorizeH1t`: the flattened transposed Jacobian has one entry per Jacobian entry (its layout: see VectorizeTransposedLayout) |
| EqualityConstraint.VectorizeTransposedLayout | gtsam_unstable/nonlinear/NonlinearEqualityConstraint.h:159-166 | the flattened transposed Jacobian has constraintDim*xkDim entries, and entry c*xkDim + j is Hk[c][j]: component 0's gradient first, then component 1's, and so on (the same function serves vectorizeH1t/H2t/H3t at lines 301-317 and 536-561) |
| EqualityConstraint.AppendOneBlock | gtsam_unstable/nonlinear/NonlinearEqualityConstraint.h:151-152 | pushing block n, taken from rows n*rowDim.. of the stack, keeps the earlier entries and extends the appended blocks by one |
| EqualityConstraint.EvaluateHessians1 | gtsam_unstable/nonlinear/NonlinearEqualityConstraint.h:136-156 | the output vector is its old contents followed by exactly constraintDim blocks; block i is rows i*x1Dim..i*x1Dim+x1Dim-1 and columns 0..x1Dim-1 of G11all |
| EqualityConstraint.EvaluateHessians2 | gtsam_unstable/nonlinear/NonlinearEqualityConstraint.h:262-298 | the same for G11, G12 and G22, with row offsets i*x1Dim, i*x1Dim and i*x2Dim and widths x1Dim, x2Dim and x2Dim |
| EqualityConstraint.EvaluateHessians3 | gtsam_unstable/nonlinear/NonlinearEqualityConstraint.h:477-533 | the same for the six vectors G11..G33, each block at the row offset of its first variable and the width of its second |
| EqualityConstraint.SlicedBlockShape | gtsam_unstable/nonlinear/NonlinearEqualityConstraint.h:151-152 | every block sliced from a stack has rowDim rows of colDim entries |
| EqualityConstraint.SlicedBlocksCombine | gtsam_unstable/nonlinear/NonlinearEqualityConstraint.h:117-129 | blocks sliced into an empty vector pass the size check exactly when dim(lambda) is the constraint dimension; they all have the block shape; the combined block keeps that shape |
| EqualityConstraint.LagrangeSum | gtsam_unstable/nonlinear/NonlinearEqualityConstraint.h:126-129 | the sum of -lambda[i]*G[i] over i < n, starting from zeros shaped like G[0], keeps that shape (its entries: see LagrangeSumEntry) |
| EqualityConstraint.LagrangeSumStep | gtsam_unstable/nonlinear/NonlinearEqualityConstraint.h:127-129 | block i has the shape of block 0, so the running sum and -lambda[i]*G[i] can be added, and adding them gives the next running sum |
| EqualityConstraint.MultiplierSum | gtsam_unstable/nonlinear/NonlinearEqualityConstraint.h:126-129 | the accumulation loop, from zeros shaped like G[0], returns the sum of -lambda[i]*G[i] over every i < dim(lambda) |
| EqualityConstraint.LagrangeSumEntryStep | gtsam_unstable/nonlinear/NonlinearEqualityConstraint.h:128 | one loop step adds -lambda[i] times entry (r, c) of block i to entry (r, c) of the running sum |
| EqualityConstraint.LagrangeSumEntry | gtsam_unstable/nonlinear/NonlinearEqualityConstraint.h:126-129 | every entry (r, c) of the combined block is minus the dot product of lambda with the (r, c) entries of the blocks, a sum computed independently from the front |
| EqualityConstraint.LagrangeSumOfZeroMultipliers | gtsam_unstable/nonlinear/NonlinearEqualityConstraint.h:126-129 | an all-zero lambda gives the zero block of G[0]'s shape, whatever the blocks hold |
| EqualityConstraint.MultipliedHessian1 | gtsam_unstable/nonlinear/NonlinearEqualityConstraint.h:109-134 | inactive: no factor; block count differs from dim(lambda): runtime_error with the source's message; otherwise the factor on `key` with the combined block, a zero linear term of length x1Dim and constant 100.0 |
| EqualityConstraint.MultipliedHessian2 | gtsam_unstable/nonlinear/NonlinearEqualityConstraint.h:229-260 | the same three outcomes; the factor is keyed (key1, key2) with combined blocks G11, G12, G22, zero linear terms of lengths x1Dim and x2Dim, and constant 0.0 |
| EqualityConstraint.MultipliedHessian3 | gtsam_unstable/nonlinear/NonlinearEqualityConstraint.h:383-422 | the same three outcomes, checking all six vectors; the factor has combined blocks G11..G33, three zero linear terms and constant 0.0, keyed by the corrected layout (see Findings) |
| EqualityConstraint.Keys3 | gtsam_unstable/nonlinear/NonlinearEqualityConstraint.h:418-421 | the corrected key layout: one key per variable, in order key1, key2, key3 |
| EqualityConstraint.Keys3AsWritten | gtsam_unstable/nonlinear/NonlinearEqualityConstraint.h:418-421 | the key list as written: three keys, and key1 is among them only when it equals key2 or key3 (see Keys3AsWrittenDropsKey1) |
| EqualityConstraint.Keys3AsWrittenDropsKey1 | gtsam_unstable/nonlinear/NonlinearEqualityConstraint.h:418-421 | as written, a constraint over three distinct variables gets a factor that repeats key2 and omits key1 |
| EqualityConstraint.Keys3Distinct | gtsam_unstable/nonlinear/NonlinearEqualityConstraint.h:418-421 | with the corrected layout, the factor's keys are pairwise distinct exactly when the constraint's three variables are |

## Left out

- The finite-difference Hessians (`numericalDerivative11` .. `numericalDerivative33`, step 1e-5) are floating-point numerics in another library. Their results, the stacked derivative matrices, are inputs to `EvaluateHessians1/2/3`.
- The user hook `evaluateError` is abstract. The Jacobian it fills is an input to `VectorizeTransposed`.
- The base factor's `active(x)`, `Values::at`, `VectorValues::at` and the noise model's dimension are library calls. They are a boolean input, a dual vector given already looked up, and the `constraintDim` field.
- `HessianFactor` is modelled as its keys, blocks, linear terms and constant, not as the library's information matrix.
- `multipliedHessian` is modelled on the blocks `evaluateHessians` returned. Because those blocks are inputs, the model does not express that an inactive constraint never evaluates them; it only shows the result does not depend on them.
- MultipliedHessian1, MultipliedHessian2, MultipliedHessian3: when the size check passes, they require non-empty block vectors of one shape. In C++, `dim(lambda) = 0` reads `G[0]` of an empty vector (undefined behaviour), and `+=` on differently sized Eigen matrices is an assertion failure. Neither case has a defined result to model. `SlicedBlocksCombine` shows that blocks from `evaluateHessians` meet this requirement when the constraint dimension and the variable dimension are positive.
- MultipliedHessian2, MultipliedHessian3: the source updates all the sums in one loop over i. The model runs `MultiplierSum` once per block vector. Each sum depends only on its own blocks, so the results are the same.
- EvaluateHessians1, EvaluateHessians2, EvaluateHessians3: the caller-owned output vectors, passed by reference in C++, are passed in and returned, so aliasing between them is not modelled.
- Overload resolution is modelled as an exact parameter-type match. Eigen's implicit conversions between matrix types are not modelled. A call that would rely on one (0 static rows) is a call that does not compile.
- The concrete derived `reverseAD` is not part of this model, and neither are the matrix products it performs or the `JacobianMap` internals. The routine is a parameter, so nothing is proved about linearity of the propagated Jacobians. `StaticDynamicEquivalence` assumes the routine depends only on the block's entries.
- Matrices hold exact reals, not doubles. Over reals the front-summed dot product in `LagrangeSumEntry` equals the C++ left-to-right `+=` loop; in double arithmetic the two need not agree to the last bit, and rounding is not modelled.
- Variable and constraint dimensions are natural numbers. A variable type with `traits<VALUE>::dimension == Eigen::Dynamic` (-1) would give negative sizes to `block(i * X1Dim, 0, X1Dim, X1Dim)` and `zero(X1Dim)` (NonlinearEqualityConstraint.h:152 and :132); the model does not cover such variables.
- Virtual-table and CRTP mechanics, Eigen storage and the no-heap-allocation goal cannot be expressed here. Only the routing and the equality of the data passed on are modelled.
- Boost serialization, `boost::bind`/`boost::function` plumbing and the `debug` printing are not modelled.

## Findings

| source | as written | input that shows it | evidently intended | confidence | as-written member | corrected member |
|---|---|---|---|---|---|---|
| gtsam_unstable/nonlinear/NonlinearEqualityConstraint.h:418-421 | the 3-variable `multipliedHessian` builds its factor on keys (key2, key2, key3), so the blocks G11, G12, G13 that belong to the first variable are attached to the second variable and key1 is absent | any constraint over three distinct keys, e.g. key1 = 1, key2 = 2, key3 = 3, gives factor keys [2, 2, 3] | keys (key1, key2, key3), as the 1- and 2-variable cases and the block order G11..G33 imply | high, not executed | EqualityConstraint.Keys3AsWrittenDropsKey1 | EqualityConstraint.Keys3Distinct |
