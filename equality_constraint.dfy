/**
 * The Lagrange-multiplier Hessian assembly of nonlinear equality
 * constraints over one, two or three variables: flattening a transposed
 * Jacobian, slicing stacked second-derivative matrices into one block per
 * constraint component, and combining those blocks with the dual vector
 * lambda into the blocks of a Hessian factor.
 *
 * The finite-difference derivatives and the user's error function are not
 * part of the model: their results (the Jacobian, the stacked derivative
 * matrices, the block vectors) are inputs. The base factor's `active(x)` is
 * a boolean input, and the dual vector is given already looked up.
 */
module EqualityConstraint {
  import opened Matrices
  import opened Keys

  /** The state common to all equality constraints: the key of the dual variable and the `active_` flag. */
  class NonlinearEqualityConstraint {
    var dualKey: Key
    var active: bool

    /** Construct with the dual key; the `active_` flag is left unset and so may hold either value. */
    constructor (dualKey: Key)
      ensures this.dualKey == dualKey
    {
      this.dualKey := dualKey;
    }

    /** isActive_: equality constraints are always active, whatever the flag says. */
    function IsActive(): (r: bool)
      ensures r
    {
      true
    }

    /** setActive_: records the flag and changes nothing else. */
    method SetActive(active: bool)
      modifies this
      ensures this.active == active && dualKey == old(dualKey)
    {
      this.active := active;
    }

    /** dualKey(): the key given to the constructor. */
    function DualKey(): (k: Key)
      reads this
      ensures k == dualKey
    {
      dualKey
    }
  }

  /** Changing the flag leaves the dual key alone, and the constraint still reports itself active. */
  method SetActiveKeepsConstraint(c: NonlinearEqualityConstraint, active: bool) returns (stillActive: bool)
    modifies c
    ensures stillActive
    ensures c.active == active && c.DualKey() == old(c.DualKey())
  {
    c.SetActive(active);
    stillActive := c.IsActive();
  }

  /** A 1-variable constraint: its variable's key, the constraint dimension and the variable's dimension. */
  datatype Constraint1 = Constraint1(key: Key, constraintDim: nat, x1Dim: nat)

  /** A 2-variable constraint. */
  datatype Constraint2 = Constraint2(key1: Key, key2: Key, constraintDim: nat, x1Dim: nat, x2Dim: nat)

  /** A 3-variable constraint. */
  datatype Constraint3 = Constraint3(key1: Key, key2: Key, key3: Key, constraintDim: nat,
                                     x1Dim: nat, x2Dim: nat, x3Dim: nat)

  /**
   * A Hessian factor as built by its constructor: the keys, the upper
   * triangle of blocks G row by row, the linear terms g, and the constant f.
   */
  datatype HessianFactor = HessianFactor(keys: seq<Key>, info: seq<Matrix>, linear: seq<Vector>, constant: real)

  /** What multipliedHessian returns: an empty pointer, a factor, or a thrown runtime_error. */
  datatype Outcome = NoFactor | Built(factor: HessianFactor) | RuntimeError(message: string)

  const DimensionMismatch: string :=
    "Error in evaluateHessians: the number of returned Gij matrices must be the same as the constraint dimension!"

  /**
   * vectorizeHkt: transpose the Jacobian Hk (one row per constraint
   * component, one column per coordinate of the variable) and flatten it in
   * column-major order.
   */
  function VectorizeTransposed(Hk: Matrix, constraintDim: nat, xkDim: nat): (v: Vector)
    requires IsShape(Hk, constraintDim, xkDim)
    ensures |v| == constraintDim * xkDim
  {
    ColumnMajorLength(Transpose(Hk, constraintDim, xkDim), xkDim, constraintDim);
    ColumnMajor(Transpose(Hk, constraintDim, xkDim), xkDim, constraintDim)
  }

  /**
   * The flattened transposed Jacobian has one entry per Jacobian entry, and
   * entry c*xkDim + j is Hk[c][j]: the whole gradient of component 0 comes
   * first, then that of component 1, and so on.
   */
  lemma VectorizeTransposedLayout(Hk: Matrix, constraintDim: nat, xkDim: nat, c: nat, j: nat)
    requires IsShape(Hk, constraintDim, xkDim)
    requires c < constraintDim && j < xkDim
    ensures |VectorizeTransposed(Hk, constraintDim, xkDim)| == constraintDim * xkDim
    ensures c * xkDim + j < constraintDim * xkDim
    ensures VectorizeTransposed(Hk, constraintDim, xkDim)[c * xkDim + j] == Hk[c][j]
  {
    var t := Transpose(Hk, constraintDim, xkDim);
    ColumnMajorAt(t, xkDim, constraintDim, c, j);
  }

  /** `a <= b` scales: `a * k <= b * k` for every natural k. */
  lemma {:induction false} MulMonotone(a: nat, b: nat, k: nat)
    requires a <= b
    ensures a * k <= b * k
  {
    if k > 0 {
      MulMonotone(a, b, k - 1);
      assert a * k == a * (k - 1) + a;
      assert b * k == b * (k - 1) + b;
    }
  }

  /** Rows i*rowDim .. i*rowDim + rowDim - 1 of a stack of n blocks of rowDim rows lie inside the stack. */
  lemma StackedBlockInRange(i: nat, n: nat, rowDim: nat)
    requires i < n
    ensures i * rowDim + rowDim <= n * rowDim
  {
    MulMonotone(i + 1, n, rowDim);
  }

  /** The stacked derivative of a flattened transposed Jacobian: `total` blocks of rowDim rows and colDim columns. */
  predicate IsStack(all: Matrix, total: nat, rowDim: nat, colDim: nat) {
    IsShape(all, total * rowDim, colDim)
  }

  /**
   * `after` is `before` followed by the first n of the `total` blocks of a
   * stack: block i has rows i*rowDim .. i*rowDim + rowDim - 1 and columns
   * 0 .. colDim - 1 of `all`.
   */
  predicate AppendsBlocks(before: seq<Matrix>, after: seq<Matrix>, all: Matrix,
                          rowDim: nat, colDim: nat, total: nat, n: nat)
    requires IsStack(all, total, rowDim, colDim) && n <= total
  {
    && |after| == |before| + n
    && after[..|before|] == before
    && forall i :: 0 <= i < n ==>
         (StackedBlockInRange(i, total, rowDim);
          after[|before| + i] == Block(all, i * rowDim, 0, rowDim, colDim))
  }

  /** Pushing block n of the stack extends the appended prefix by one block. */
  lemma AppendOneBlock(before: seq<Matrix>, after: seq<Matrix>, all: Matrix,
                       rowDim: nat, colDim: nat, total: nat, n: nat)
    requires IsStack(all, total, rowDim, colDim) && n < total
    requires AppendsBlocks(before, after, all, rowDim, colDim, total, n)
    ensures n * rowDim + rowDim <= |all|
    ensures AppendsBlocks(before, after + [Block(all, n * rowDim, 0, rowDim, colDim)], all, rowDim, colDim, total, n + 1)
  {
    StackedBlockInRange(n, total, rowDim);
    var after' := after + [Block(all, n * rowDim, 0, rowDim, colDim)];
    assert after'[..|before|] == after[..|before|];
    forall i | 0 <= i < n + 1
      ensures (StackedBlockInRange(i, total, rowDim);
               after'[|before| + i] == Block(all, i * rowDim, 0, rowDim, colDim))
    {
      StackedBlockInRange(i, total, rowDim);
      if i < n {
        assert after'[|before| + i] == after[|before| + i];
      }
    }
  }

  /**
   * evaluateHessians for one variable: push block i of G11all (rows
   * i*x1Dim.., x1Dim by x1Dim) onto G11 for each constraint component i.
   */
  method EvaluateHessians1(f: Constraint1, G11all: Matrix, G11: seq<Matrix>) returns (G11': seq<Matrix>)
    requires IsStack(G11all, f.constraintDim, f.x1Dim, f.x1Dim)
    ensures AppendsBlocks(G11, G11', G11all, f.x1Dim, f.x1Dim, f.constraintDim, f.constraintDim)
  {
    G11' := G11;
    for i := 0 to f.constraintDim
      invariant AppendsBlocks(G11, G11', G11all, f.x1Dim, f.x1Dim, f.constraintDim, i)
    {
      AppendOneBlock(G11, G11', G11all, f.x1Dim, f.x1Dim, f.constraintDim, i);
      G11' := G11' + [Block(G11all, i * f.x1Dim, 0, f.x1Dim, f.x1Dim)];
    }
  }

  /** evaluateHessians for two variables: blocks of G11all, G12all and G22all in one pass. */
  method EvaluateHessians2(f: Constraint2, G11all: Matrix, G12all: Matrix, G22all: Matrix,
                           G11: seq<Matrix>, G12: seq<Matrix>, G22: seq<Matrix>)
    returns (G11': seq<Matrix>, G12': seq<Matrix>, G22': seq<Matrix>)
    requires IsStack(G11all, f.constraintDim, f.x1Dim, f.x1Dim)
    requires IsStack(G12all, f.constraintDim, f.x1Dim, f.x2Dim)
    requires IsStack(G22all, f.constraintDim, f.x2Dim, f.x2Dim)
    ensures AppendsBlocks(G11, G11', G11all, f.x1Dim, f.x1Dim, f.constraintDim, f.constraintDim)
    ensures AppendsBlocks(G12, G12', G12all, f.x1Dim, f.x2Dim, f.constraintDim, f.constraintDim)
    ensures AppendsBlocks(G22, G22', G22all, f.x2Dim, f.x2Dim, f.constraintDim, f.constraintDim)
  {
    G11', G12', G22' := G11, G12, G22;
    for i := 0 to f.constraintDim
      invariant AppendsBlocks(G11, G11', G11all, f.x1Dim, f.x1Dim, f.constraintDim, i)
      invariant AppendsBlocks(G12, G12', G12all, f.x1Dim, f.x2Dim, f.constraintDim, i)
      invariant AppendsBlocks(G22, G22', G22all, f.x2Dim, f.x2Dim, f.constraintDim, i)
    {
      AppendOneBlock(G11, G11', G11all, f.x1Dim, f.x1Dim, f.constraintDim, i);
      G11' := G11' + [Block(G11all, i * f.x1Dim, 0, f.x1Dim, f.x1Dim)];
      AppendOneBlock(G12, G12', G12all, f.x1Dim, f.x2Dim, f.constraintDim, i);
      G12' := G12' + [Block(G12all, i * f.x1Dim, 0, f.x1Dim, f.x2Dim)];
      AppendOneBlock(G22, G22', G22all, f.x2Dim, f.x2Dim, f.constraintDim, i);
      G22' := G22' + [Block(G22all, i * f.x2Dim, 0, f.x2Dim, f.x2Dim)];
    }
  }

  /** evaluateHessians for three variables: blocks of the six stacked matrices in one pass. */
  method EvaluateHessians3(f: Constraint3, G11all: Matrix, G12all: Matrix, G13all: Matrix,
                           G22all: Matrix, G23all: Matrix, G33all: Matrix,
                           G11: seq<Matrix>, G12: seq<Matrix>, G13: seq<Matrix>,
                           G22: seq<Matrix>, G23: seq<Matrix>, G33: seq<Matrix>)
    returns (G11': seq<Matrix>, G12': seq<Matrix>, G13': seq<Matrix>,
             G22': seq<Matrix>, G23': seq<Matrix>, G33': seq<Matrix>)
    requires IsStack(G11all, f.constraintDim, f.x1Dim, f.x1Dim)
    requires IsStack(G12all, f.constraintDim, f.x1Dim, f.x2Dim)
    requires IsStack(G13all, f.constraintDim, f.x1Dim, f.x3Dim)
    requires IsStack(G22all, f.constraintDim, f.x2Dim, f.x2Dim)
    requires IsStack(G23all, f.constraintDim, f.x2Dim, f.x3Dim)
    requires IsStack(G33all, f.constraintDim, f.x3Dim, f.x3Dim)
    ensures AppendsBlocks(G11, G11', G11all, f.x1Dim, f.x1Dim, f.constraintDim, f.constraintDim)
    ensures AppendsBlocks(G12, G12', G12all, f.x1Dim, f.x2Dim, f.constraintDim, f.constraintDim)
    ensures AppendsBlocks(G13, G13', G13all, f.x1Dim, f.x3Dim, f.constraintDim, f.constraintDim)
    ensures AppendsBlocks(G22, G22', G22all, f.x2Dim, f.x2Dim, f.constraintDim, f.constraintDim)
    ensures AppendsBlocks(G23, G23', G23all, f.x2Dim, f.x3Dim, f.constraintDim, f.constraintDim)
    ensures AppendsBlocks(G33, G33', G33all, f.x3Dim, f.x3Dim, f.constraintDim, f.constraintDim)
  {
    G11', G12', G13', G22', G23', G33' := G11, G12, G13, G22, G23, G33;
    for i := 0 to f.constraintDim
      invariant AppendsBlocks(G11, G11', G11all, f.x1Dim, f.x1Dim, f.constraintDim, i)
      invariant AppendsBlocks(G12, G12', G12all, f.x1Dim, f.x2Dim, f.constraintDim, i)
      invariant AppendsBlocks(G13, G13', G13all, f.x1Dim, f.x3Dim, f.constraintDim, i)
      invariant AppendsBlocks(G22, G22', G22all, f.x2Dim, f.x2Dim, f.constraintDim, i)
      invariant AppendsBlocks(G23, G23', G23all, f.x2Dim, f.x3Dim, f.constraintDim, i)
      invariant AppendsBlocks(G33, G33', G33all, f.x3Dim, f.x3Dim, f.constraintDim, i)
    {
      AppendOneBlock(G11, G11', G11all, f.x1Dim, f.x1Dim, f.constraintDim, i);
      G11' := G11' + [Block(G11all, i * f.x1Dim, 0, f.x1Dim, f.x1Dim)];
      AppendOneBlock(G12, G12', G12all, f.x1Dim, f.x2Dim, f.constraintDim, i);
      G12' := G12' + [Block(G12all, i * f.x1Dim, 0, f.x1Dim, f.x2Dim)];
      AppendOneBlock(G13, G13', G13all, f.x1Dim, f.x3Dim, f.constraintDim, i);
      G13' := G13' + [Block(G13all, i * f.x1Dim, 0, f.x1Dim, f.x3Dim)];
      AppendOneBlock(G22, G22', G22all, f.x2Dim, f.x2Dim, f.constraintDim, i);
      G22' := G22' + [Block(G22all, i * f.x2Dim, 0, f.x2Dim, f.x2Dim)];
      AppendOneBlock(G23, G23', G23all, f.x2Dim, f.x3Dim, f.constraintDim, i);
      G23' := G23' + [Block(G23all, i * f.x2Dim, 0, f.x2Dim, f.x3Dim)];
      AppendOneBlock(G33, G33', G33all, f.x3Dim, f.x3Dim, f.constraintDim, i);
      G33' := G33' + [Block(G33all, i * f.x3Dim, 0, f.x3Dim, f.x3Dim)];
    }
  }

  /** A non-empty vector of blocks, all rectangular and of the shape of the first. */
  predicate UniformShape(Gs: seq<Matrix>) {
    |Gs| > 0 && forall i :: 0 <= i < |Gs| ==> SameShape(Gs[0], Gs[i])
  }

  /**
   * The running sum of the loop in multipliedHessian after n steps: the zero
   * matrix shaped like Gs[0], plus -lambda[i] * Gs[i] for i = 0 .. n-1.
   */
  function LagrangeSum(lambda: Vector, Gs: seq<Matrix>, n: nat): (s: Matrix)
    requires n <= |lambda| && n <= |Gs| && UniformShape(Gs)
    ensures IsShape(s, Rows(Gs[0]), Cols(Gs[0]))
  {
    if n == 0 then Zeros(Rows(Gs[0]), Cols(Gs[0]))
    else Add(LagrangeSum(lambda, Gs, n - 1), Scale(-lambda[n - 1], Gs[n - 1]))
  }

  /** One step of the loop: the running sum and the next scaled block have one shape, and adding them gives the next running sum. */
  lemma LagrangeSumStep(lambda: Vector, Gs: seq<Matrix>, i: nat)
    requires i < |lambda| && i < |Gs| && UniformShape(Gs)
    ensures IsRectangular(Gs[i]) && Rows(Gs[i]) == Rows(Gs[0]) && Cols(Gs[i]) == Cols(Gs[0])
    ensures SameShape(LagrangeSum(lambda, Gs, i), Scale(-lambda[i], Gs[i]))
    ensures LagrangeSum(lambda, Gs, i + 1) == Add(LagrangeSum(lambda, Gs, i), Scale(-lambda[i], Gs[i]))
  {
    assert SameShape(Gs[0], Gs[i]);
  }

  /** The dot product of two vectors of one length, summed from the front. */
  function Dot(u: Vector, v: Vector): real
    requires |u| == |v|
  {
    if |u| == 0 then 0.0 else u[0] * v[0] + Dot(u[1..], v[1..])
  }

  /** Extending both vectors by one entry adds the product of the new entries. */
  lemma {:induction false} DotSnoc(u: Vector, v: Vector, a: real, b: real)
    requires |u| == |v|
    ensures Dot(u + [a], v + [b]) == Dot(u, v) + a * b
  {
    if |u| > 0 {
      assert (u + [a])[1..] == u[1..] + [a];
      assert (v + [b])[1..] == v[1..] + [b];
      DotSnoc(u[1..], v[1..], a, b);
    }
  }

  /** Entry (r, c) of each of the first n blocks, in order. */
  function EntryAcross(Gs: seq<Matrix>, n: nat, r: nat, c: nat): (v: Vector)
    requires n <= |Gs| && UniformShape(Gs) && r < Rows(Gs[0]) && c < Cols(Gs[0])
    ensures |v| == n && forall i :: 0 <= i < n ==> v[i] == Gs[i][r][c]
  {
    seq(n, i requires 0 <= i < n => Gs[i][r][c])
  }

  /** One step of the loop, entry by entry: entry (r, c) grows by -lambda[i] times that entry of block i. */
  lemma LagrangeSumEntryStep(lambda: Vector, Gs: seq<Matrix>, i: nat, r: nat, c: nat)
    requires i < |lambda| && i < |Gs| && UniformShape(Gs)
    requires r < Rows(Gs[0]) && c < Cols(Gs[0])
    ensures LagrangeSum(lambda, Gs, i + 1)[r][c] == LagrangeSum(lambda, Gs, i)[r][c] + -lambda[i] * Gs[i][r][c]
  {
    LagrangeSumStep(lambda, Gs, i);
    var prev, term := LagrangeSum(lambda, Gs, i), Scale(-lambda[i], Gs[i]);
    ScaleAt(-lambda[i], Gs[i], r, c);
    AddAt(prev, term, r, c);
  }

  /**
   * Each entry of the combined block is minus the dot product of lambda with
   * that entry across the blocks: sum over i < n of -lambda[i] * Gs[i][r][c].
   */
  lemma {:induction false} LagrangeSumEntry(lambda: Vector, Gs: seq<Matrix>, n: nat, r: nat, c: nat)
    requires n <= |lambda| && n <= |Gs| && UniformShape(Gs)
    requires r < Rows(Gs[0]) && c < Cols(Gs[0])
    ensures LagrangeSum(lambda, Gs, n)[r][c] == -Dot(lambda[..n], EntryAcross(Gs, n, r, c))
  {
    if n == 0 {
      assert lambda[..n] == [] && EntryAcross(Gs, n, r, c) == [];
    } else {
      var a, g := lambda[n - 1], Gs[n - 1][r][c];
      var u, v := lambda[..n - 1], EntryAcross(Gs, n - 1, r, c);
      assert lambda[..n] == u + [a];
      assert EntryAcross(Gs, n, r, c) == v + [g];
      LagrangeSumEntryStep(lambda, Gs, n - 1, r, c);
      LagrangeSumEntry(lambda, Gs, n - 1, r, c);
      DotSnoc(u, v, a, g);
    }
  }

  /** A zero multiplier vector gives the zero block, whatever the blocks hold. */
  lemma {:induction false} LagrangeSumOfZeroMultipliers(lambda: Vector, Gs: seq<Matrix>, n: nat)
    requires n <= |lambda| && n <= |Gs| && UniformShape(Gs)
    requires forall i :: 0 <= i < |lambda| ==> lambda[i] == 0.0
    ensures LagrangeSum(lambda, Gs, n) == Zeros(Rows(Gs[0]), Cols(Gs[0]))
  {
    if n > 0 {
      LagrangeSumOfZeroMultipliers(lambda, Gs, n - 1);
      LagrangeSumStep(lambda, Gs, n - 1);
      var z := Zeros(Rows(Gs[0]), Cols(Gs[0]));
      MatrixExtensionality(LagrangeSum(lambda, Gs, n), z, Rows(Gs[0]), Cols(Gs[0]));
    }
  }

  /** The factor keys of a 3-variable constraint, one per variable in order. */
  function Keys3(f: Constraint3): (keys: seq<Key>)
    ensures |keys| == 3 && keys[0] == f.key1 && keys[1] == f.key2 && keys[2] == f.key3
  {
    [f.key1, f.key2, f.key3]
  }

  /** The factor keys the 3-variable multipliedHessian passes, as written: key2 in the first place. */
  function Keys3AsWritten(f: Constraint3): (keys: seq<Key>)
    ensures |keys| == 3
    ensures f.key1 in keys ==> f.key1 == f.key2 || f.key1 == f.key3
  {
    [f.key2, f.key2, f.key3]
  }

  /**
   * As written, a 3-variable constraint over three distinct variables gets
   * a factor that repeats key2 and omits key1, so the blocks G11, G12, G13
   * land on the second variable.
   */
  lemma Keys3AsWrittenDropsKey1(f: Constraint3)
    requires f.key1 != f.key2 && f.key1 != f.key3
    ensures f.key1 !in Keys3AsWritten(f)
    ensures Keys3AsWritten(f)[0] == Keys3AsWritten(f)[1]
    ensures Keys3AsWritten(f) != Keys3(f)
  {
  }

  /** With the corrected layout, the factor's keys are distinct exactly when the constraint's variables are. */
  lemma Keys3Distinct(f: Constraint3)
    ensures (forall i, j :: 0 <= i < j < 3 ==> Keys3(f)[i] != Keys3(f)[j])
        <==> (f.key1 != f.key2 && f.key1 != f.key3 && f.key2 != f.key3)
  {
    var k := Keys3(f);
    if f.key1 != f.key2 && f.key1 != f.key3 && f.key2 != f.key3 {
      forall i, j | 0 <= i < j < 3 ensures k[i] != k[j] {
      }
    }
  }

  /**
   * The accumulation loop of multipliedHessian for one block vector: start
   * from zeros shaped like Gs[0] and add -lambda[i] * Gs[i] for every i.
   */
  method MultiplierSum(lambda: Vector, Gs: seq<Matrix>) returns (sum: Matrix)
    requires |Gs| == |lambda| && UniformShape(Gs)
    ensures sum == LagrangeSum(lambda, Gs, |lambda|)
  {
    sum := Zeros(Rows(Gs[0]), Cols(Gs[0]));
    var i := 0;
    while i < |lambda|
      invariant 0 <= i <= |lambda|
      invariant sum == LagrangeSum(lambda, Gs, i)
    {
      LagrangeSumStep(lambda, Gs, i);
      sum := Add(sum, Scale(-lambda[i], Gs[i]));
      i := i + 1;
    }
  }

  /**
   * multipliedHessian for one variable: no factor when inactive; a
   * runtime_error when the number of blocks differs from dim(lambda);
   * otherwise the factor on `key` whose block is the sum of -lambda[i]*G11[i],
   * with a zero linear term and the constant 100.0.
   */
  method MultipliedHessian1(f: Constraint1, active: bool, lambda: Vector, G11: seq<Matrix>) returns (r: Outcome)
    requires active && |lambda| == |G11| ==> UniformShape(G11)
    ensures !active ==> r == NoFactor
    ensures active && |lambda| != |G11| ==> r == RuntimeError(DimensionMismatch)
    ensures active && |lambda| == |G11| ==>
              r == Built(HessianFactor([f.key], [LagrangeSum(lambda, G11, |lambda|)],
                                       [ZeroVector(f.x1Dim)], 100.0))
  {
    if !active {
      return NoFactor;
    }
    if |lambda| != |G11| {
      return RuntimeError(DimensionMismatch);
    }
    var lG11sum := MultiplierSum(lambda, G11);
    r := Built(HessianFactor([f.key], [lG11sum], [ZeroVector(f.x1Dim)], 100.0));
  }

  /** The size check of the 2-variable multipliedHessian: every block vector has dim(lambda) entries. */
  predicate SizesMatch2(lambda: Vector, G11: seq<Matrix>, G12: seq<Matrix>, G22: seq<Matrix>) {
    |lambda| == |G11| == |G12| == |G22|
  }

  /**
   * multipliedHessian for two variables: as for one, checking all three
   * block vectors, and building the factor on (key1, key2) with blocks
   * G11, G12, G22, zero linear terms and the constant 0.0.
   */
  method MultipliedHessian2(f: Constraint2, active: bool, lambda: Vector,
                            G11: seq<Matrix>, G12: seq<Matrix>, G22: seq<Matrix>) returns (r: Outcome)
    requires active && SizesMatch2(lambda, G11, G12, G22) ==>
               UniformShape(G11) && UniformShape(G12) && UniformShape(G22)
    ensures !active ==> r == NoFactor
    ensures active && !SizesMatch2(lambda, G11, G12, G22) ==> r == RuntimeError(DimensionMismatch)
    ensures active && SizesMatch2(lambda, G11, G12, G22) ==>
              r == Built(HessianFactor([f.key1, f.key2],
                                       [LagrangeSum(lambda, G11, |lambda|), LagrangeSum(lambda, G12, |lambda|),
                                        LagrangeSum(lambda, G22, |lambda|)],
                                       [ZeroVector(f.x1Dim), ZeroVector(f.x2Dim)], 0.0))
  {
    if !active {
      return NoFactor;
    }
    if !SizesMatch2(lambda, G11, G12, G22) {
      return RuntimeError(DimensionMismatch);
    }
    var lG11sum := MultiplierSum(lambda, G11);
    var lG12sum := MultiplierSum(lambda, G12);
    var lG22sum := MultiplierSum(lambda, G22);
    r := Built(HessianFactor([f.key1, f.key2], [lG11sum, lG12sum, lG22sum],
                             [ZeroVector(f.x1Dim), ZeroVector(f.x2Dim)], 0.0));
  }

  /** The size check of the 3-variable multipliedHessian: every block vector has dim(lambda) entries. */
  predicate SizesMatch3(lambda: Vector, G11: seq<Matrix>, G12: seq<Matrix>, G13: seq<Matrix>,
                        G22: seq<Matrix>, G23: seq<Matrix>, G33: seq<Matrix>) {
    |lambda| == |G11| == |G12| == |G13| == |G22| == |G23| == |G33|
  }

  /**
   * multipliedHessian for three variables: as for one, checking all six
   * block vectors, and building the factor on the variables' keys (see
   * Keys3AsWritten for the layout the source passes) with blocks G11, G12,
   * G13, G22, G23, G33, zero linear terms and the constant 0.0.
   */
  method MultipliedHessian3(f: Constraint3, active: bool, lambda: Vector,
                            G11: seq<Matrix>, G12: seq<Matrix>, G13: seq<Matrix>,
                            G22: seq<Matrix>, G23: seq<Matrix>, G33: seq<Matrix>) returns (r: Outcome)
    requires active && SizesMatch3(lambda, G11, G12, G13, G22, G23, G33) ==>
               UniformShape(G11) && UniformShape(G12) && UniformShape(G13)
               && UniformShape(G22) && UniformShape(G23) && UniformShape(G33)
    ensures !active ==> r == NoFactor
    ensures active && !SizesMatch3(lambda, G11, G12, G13, G22, G23, G33) ==> r == RuntimeError(DimensionMismatch)
    ensures active && SizesMatch3(lambda, G11, G12, G13, G22, G23, G33) ==>
              r == Built(HessianFactor(Keys3(f),
                                       [LagrangeSum(lambda, G11, |lambda|), LagrangeSum(lambda, G12, |lambda|),
                                        LagrangeSum(lambda, G13, |lambda|), LagrangeSum(lambda, G22, |lambda|),
                                        LagrangeSum(lambda, G23, |lambda|), LagrangeSum(lambda, G33, |lambda|)],
                                       [ZeroVector(f.x1Dim), ZeroVector(f.x2Dim), ZeroVector(f.x3Dim)], 0.0))
  {
    if !active {
      return NoFactor;
    }
    if !SizesMatch3(lambda, G11, G12, G13, G22, G23, G33) {
      return RuntimeError(DimensionMismatch);
    }
    var lG11sum := MultiplierSum(lambda, G11);
    var lG12sum := MultiplierSum(lambda, G12);
    var lG13sum := MultiplierSum(lambda, G13);
    var lG22sum := MultiplierSum(lambda, G22);
    var lG23sum := MultiplierSum(lambda, G23);
    var lG33sum := MultiplierSum(lambda, G33);
    r := Built(HessianFactor(Keys3(f), [lG11sum, lG12sum, lG13sum, lG22sum, lG23sum, lG33sum],
                             [ZeroVector(f.x1Dim), ZeroVector(f.x2Dim), ZeroVector(f.x3Dim)], 0.0));
  }

  /** Block i sliced from a stack by evaluateHessians has the block shape. */
  lemma SlicedBlockShape(all: Matrix, rowDim: nat, colDim: nat, total: nat, Gs: seq<Matrix>, i: nat)
    requires IsStack(all, total, rowDim, colDim)
    requires AppendsBlocks([], Gs, all, rowDim, colDim, total, total)
    requires i < |Gs|
    ensures IsShape(Gs[i], rowDim, colDim)
  {
    StackedBlockInRange(i, total, rowDim);
    var empty: seq<Matrix> := [];
    assert Gs[i] == Gs[|empty| + i] == Block(all, i * rowDim, 0, rowDim, colDim);
  }

  /**
   * Blocks sliced from a stack by evaluateHessians, starting from an empty
   * vector, pass the size check exactly when dim(lambda) is the constraint
   * dimension, all have the block shape, and, when there is at least one
   * of them, the combined block keeps that shape.
   */
  lemma SlicedBlocksCombine(all: Matrix, rowDim: nat, colDim: nat, constraintDim: nat,
                            Gs: seq<Matrix>, lambda: Vector)
    requires IsStack(all, constraintDim, rowDim, colDim)
    requires AppendsBlocks([], Gs, all, rowDim, colDim, constraintDim, constraintDim)
    ensures |Gs| == |lambda| <==> constraintDim == |lambda|
    ensures forall i :: 0 <= i < |Gs| ==> IsShape(Gs[i], rowDim, colDim)
    ensures |Gs| == |lambda| && constraintDim > 0 && rowDim > 0 ==>
              UniformShape(Gs) && IsShape(LagrangeSum(lambda, Gs, |lambda|), rowDim, colDim)
  {
    forall i | 0 <= i < |Gs| ensures IsShape(Gs[i], rowDim, colDim) {
      SlicedBlockShape(all, rowDim, colDim, constraintDim, Gs, i);
    }
    if |Gs| == |lambda| && constraintDim > 0 && rowDim > 0 {
      assert Rows(Gs[0]) == rowDim && Cols(Gs[0]) == colDim;
      assert UniformShape(Gs);
    }
  }
}
