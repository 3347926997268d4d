/** LU decomposition by divide and conquer. */
module Lu {
  // The arithmetic is exact. The matrix is changed in place; a submatrix is given by the row and the column it starts
  // at. Spawned calls are made one after the other: the submatrices they write do not overlap.

  import opened Matrices

  const BLOCK_SIZE := 16

  // ---------------------------------------------------------------------------------------------
  // Submatrices
  // ---------------------------------------------------------------------------------------------

  /** The n by m submatrix at (r, c) does not overlap the square one of size k at (r', c'). */
  predicate Apart(r: int, c: int, n: int, m: int, r': int, c': int, k: int) {
    r + n <= r' || r' + k <= r || c + m <= c' || c' + k <= c
  }

  // ---------------------------------------------------------------------------------------------
  // Blocks
  // ---------------------------------------------------------------------------------------------

  /** Row yr has lost a times row xr, n elements of each. */
  ghost predicate RowLost(A: Mat, B: Mat, a: real, xr: int, xc: int, yr: int, yc: int, n: int) {
    && (forall i, j | i != yr || !(yc <= j < yc + n) :: At(B, i, j) == At(A, i, j))
    && (forall j | yc <= j < yc + n :: At(B, yr, j) == At(A, yr, j) - Mul(a, At(A, xr, xc + j - yc)))
  }

  /** elem_daxmy: y' = y - ax */
  method Daxmy(M: array2<real>, a: real, xr: int, xc: int, yr: int, yc: int, n: int)
    requires 0 <= n && 0 <= xr < M.Length0 && 0 <= yr < M.Length0
    requires 0 <= xc && xc + n <= M.Length1 && 0 <= yc && yc + n <= M.Length1
    requires xr != yr || xc + n <= yc || yc + n <= xc
    modifies M
    ensures RowLost(old(Snap(M)), Snap(M), a, xr, xc, yr, yc, n)
  {
    hide Mul;
    var m := n - 1;
    while m >= 0
      invariant -1 <= m < n
      invariant forall j | yc + m < j < yc + n :: M[yr, j] == old(M[yr, j]) - Mul(a, old(M[xr, xc + j - yc]))
      invariant forall i, j | 0 <= i < M.Length0 && 0 <= j < M.Length1 && !(i == yr && yc + m < j < yc + n) ::
                  M[i, j] == old(M[i, j])
      decreases m
    {
      M[yr, yc + m] := M[yr, yc + m] - Mul(a, M[xr, xc + m]);
      m := m - 1;
    }
  }

  /** M' = M - VW, where row ii has got k of its terms, the rows before it all and the others none. */
  ghost predicate SchurPart(A: Mat, B: Mat, mr: int, mc: int, vr: int, vc: int, wr: int, wc: int, n: int, ii: int,
                            k: int) {
    && Outside(A, B, mr, mc, n, n)
    && forall i, j | Inside(i, j, mr, mc, n, n) ::
         At(B, i, j) == At(A, i, j) - Dot(A, vr + i - mr, vc, A, wr, wc + j - mc, Terms(i - mr, ii, n, k))
  }

  function Terms(i: int, ii: int, n: int, k: int): int {
    if i < ii then n else if i == ii then k else 0
  }

  lemma SchurStep(A: Mat, B: Mat, C: Mat, mr: int, mc: int, vr: int, vc: int, wr: int, wc: int, n: int, ii: int, k: int)
    requires 0 <= ii < n && 0 <= k < n && SchurPart(A, B, mr, mc, vr, vc, wr, wc, n, ii, k)
    requires Apart(mr, mc, n, n, vr, vc, n) && Apart(mr, mc, n, n, wr, wc, n)
    requires RowLost(B, C, At(B, vr + ii, vc + k), wr + k, wc, mr + ii, mc, n)
    ensures SchurPart(A, C, mr, mc, vr, vc, wr, wc, n, ii, k + 1)
  {
    hide Mul;
    assert At(B, vr + ii, vc + k) == At(A, vr + ii, vc + k);
    forall i, j | Inside(i, j, mr, mc, n, n)
      ensures At(C, i, j) == At(A, i, j) - Dot(A, vr + i - mr, vc, A, wr, wc + j - mc, Terms(i - mr, ii, n, k + 1))
    {
      if i == mr + ii {
        assert At(B, wr + k, wc + j - mc) == At(A, wr + k, wc + j - mc);
      }
    }
  }

  lemma SchurRow(A: Mat, B: Mat, mr: int, mc: int, vr: int, vc: int, wr: int, wc: int, n: int, ii: int)
    requires 0 <= ii < n && SchurPart(A, B, mr, mc, vr, vc, wr, wc, n, ii, n)
    ensures SchurPart(A, B, mr, mc, vr, vc, wr, wc, n, ii + 1, 0)
  {
  }

  lemma SchurStart(A: Mat, mr: int, mc: int, vr: int, vc: int, wr: int, wc: int, n: int)
    ensures SchurPart(A, A, mr, mc, vr, vc, wr, wc, n, 0, 0)
  {
  }

  /** M' = M - VW for n by n submatrices. */
  ghost predicate IsSchur(A: Mat, B: Mat, mr: int, mc: int, vr: int, vc: int, wr: int, wc: int, n: int) {
    && Outside(A, B, mr, mc, n, n)
    && forall i, j | Inside(i, j, mr, mc, n, n) ::
         At(B, i, j) == At(A, i, j) - Dot(A, vr + i - mr, vc, A, wr, wc + j - mc, n)
  }

  lemma SchurEnds(A: Mat, B: Mat, mr: int, mc: int, vr: int, vc: int, wr: int, wc: int, n: int)
    requires SchurPart(A, B, mr, mc, vr, vc, wr, wc, n, n, 0)
    ensures IsSchur(A, B, mr, mc, vr, vc, wr, wc, n)
  {
  }

  /** block_schur */
  method BlockSchur(M: array2<real>, mr: int, mc: int, vr: int, vc: int, wr: int, wc: int)
    requires Fits(M, mr, mc, BLOCK_SIZE) && Fits(M, vr, vc, BLOCK_SIZE) && Fits(M, wr, wc, BLOCK_SIZE)
    requires Apart(mr, mc, BLOCK_SIZE, BLOCK_SIZE, vr, vc, BLOCK_SIZE)
    requires Apart(mr, mc, BLOCK_SIZE, BLOCK_SIZE, wr, wc, BLOCK_SIZE)
    modifies M
    ensures IsSchur(old(Snap(M)), Snap(M), mr, mc, vr, vc, wr, wc, BLOCK_SIZE)
  {
    hide SchurPart, RowLost, IsSchur;
    ghost var A := Snap(M);
    SchurStart(A, mr, mc, vr, vc, wr, wc, BLOCK_SIZE);
    for i := 0 to BLOCK_SIZE
      invariant SchurPart(A, Snap(M), mr, mc, vr, vc, wr, wc, BLOCK_SIZE, i, 0)
    {
      for k := 0 to BLOCK_SIZE
        invariant SchurPart(A, Snap(M), mr, mc, vr, vc, wr, wc, BLOCK_SIZE, i, k)
      {
        ghost var B := Snap(M);
        Daxmy(M, M[vr + i, vc + k], wr + k, wc, mr + i, mc, BLOCK_SIZE);
        SchurStep(A, B, Snap(M), mr, mc, vr, vc, wr, wc, BLOCK_SIZE, i, k);
      }
      SchurRow(A, Snap(M), mr, mc, vr, vc, wr, wc, BLOCK_SIZE, i);
    }
    SchurEnds(A, Snap(M), mr, mc, vr, vc, wr, wc, BLOCK_SIZE);
  }

  /** LM' = M at one place, where the diagonal of L counts as 1: t terms have been taken off. */
  ghost predicate LowerAt(A: Mat, B: Mat, r: int, lr: int, lc: int, i: int, j: int, t: int) {
    At(B, i, j) + Dot(A, lr + i - r, lc, B, r, j, t) == At(A, i, j)
  }

  /** Row ii has got k of its terms, the rows before it all and the others none. */
  ghost predicate LowerPart(A: Mat, B: Mat, r: int, c: int, lr: int, lc: int, n: int, ii: int, k: int) {
    && Outside(A, B, r, c, n, n)
    && forall i, j | Inside(i, j, r, c, n, n) :: LowerAt(A, B, r, lr, lc, i, j, Terms(i - r, ii, i - r, k))
  }

  lemma LowerStepAt(A: Mat, B: Mat, C: Mat, r: int, c: int, lr: int, lc: int, n: int, ii: int, k: int, i: int, j: int)
    requires 0 <= k < ii < n && Inside(i, j, r, c, n, n)
    requires LowerAt(A, B, r, lr, lc, i, j, Terms(i - r, ii, i - r, k))
    requires RowLost(B, C, At(A, lr + ii, lc + k), r + k, c, r + ii, c, n)
    ensures LowerAt(A, C, r, lr, lc, i, j, Terms(i - r, ii, i - r, k + 1))
  {
    hide Mul;
    DotSame(A, A, lr + i - r, lc, B, C, r, j, Terms(i - r, ii, i - r, k));
    if i == r + ii {
      assert At(C, r + k, j) == At(B, r + k, j);
      assert At(C, i, j) == At(B, i, j) - Mul(At(A, lr + ii, lc + k), At(B, r + k, j));
    } else {
      assert At(C, i, j) == At(B, i, j);
    }
  }

  lemma LowerStep(A: Mat, B: Mat, C: Mat, r: int, c: int, lr: int, lc: int, n: int, ii: int, k: int)
    requires 0 <= k < ii < n && LowerPart(A, B, r, c, lr, lc, n, ii, k) && Apart(r, c, n, n, lr, lc, n)
    requires RowLost(B, C, At(B, lr + ii, lc + k), r + k, c, r + ii, c, n)
    ensures LowerPart(A, C, r, c, lr, lc, n, ii, k + 1)
  {
    assert At(B, lr + ii, lc + k) == At(A, lr + ii, lc + k);
    forall i, j | Inside(i, j, r, c, n, n)
      ensures LowerAt(A, C, r, lr, lc, i, j, Terms(i - r, ii, i - r, k + 1))
    {
      LowerStepAt(A, B, C, r, c, lr, lc, n, ii, k, i, j);
    }
  }

  lemma LowerStart(A: Mat, r: int, c: int, lr: int, lc: int, n: int)
    ensures LowerPart(A, A, r, c, lr, lc, n, 0, 0) && LowerPart(A, A, r, c, lr, lc, n, 1, 0)
  {
  }

  lemma LowerRow(A: Mat, B: Mat, r: int, c: int, lr: int, lc: int, n: int, ii: int)
    requires 0 <= ii < n && LowerPart(A, B, r, c, lr, lc, n, ii, ii)
    ensures LowerPart(A, B, r, c, lr, lc, n, ii + 1, 0)
  {
  }

  /** LM' = M, where the diagonal of L counts as 1, for n rows and m columns of M. */
  ghost predicate IsLower(A: Mat, B: Mat, r: int, c: int, lr: int, lc: int, n: int, m: int) {
    && Outside(A, B, r, c, n, m)
    && forall i, j | Inside(i, j, r, c, n, m) :: LowerAt(A, B, r, lr, lc, i, j, i - r)
  }

  lemma LowerEnds(A: Mat, B: Mat, r: int, c: int, lr: int, lc: int, n: int)
    requires LowerPart(A, B, r, c, lr, lc, n, n, 0)
    ensures IsLower(A, B, r, c, lr, lc, n, n)
  {
    forall i, j | Inside(i, j, r, c, n, n) ensures LowerAt(A, B, r, lr, lc, i, j, i - r) {
      assert LowerAt(A, B, r, lr, lc, i, j, Terms(i - r, n, i - r, 0));
    }
  }

  /** block_lower_solve */
  method BlockLowerSolve(M: array2<real>, r: int, c: int, lr: int, lc: int)
    requires Fits(M, r, c, BLOCK_SIZE) && Fits(M, lr, lc, BLOCK_SIZE)
    requires Apart(r, c, BLOCK_SIZE, BLOCK_SIZE, lr, lc, BLOCK_SIZE)
    modifies M
    ensures IsLower(old(Snap(M)), Snap(M), r, c, lr, lc, BLOCK_SIZE, BLOCK_SIZE)
  {
    hide LowerPart, RowLost, IsLower;
    ghost var A := Snap(M);
    LowerStart(A, r, c, lr, lc, BLOCK_SIZE);
    for i := 1 to BLOCK_SIZE
      invariant LowerPart(A, Snap(M), r, c, lr, lc, BLOCK_SIZE, i, 0)
    {
      for k := 0 to i
        invariant LowerPart(A, Snap(M), r, c, lr, lc, BLOCK_SIZE, i, k)
      {
        ghost var B := Snap(M);
        Daxmy(M, M[lr + i, lc + k], r + k, c, r + i, c, BLOCK_SIZE);
        LowerStep(A, B, Snap(M), r, c, lr, lc, BLOCK_SIZE, i, k);
      }
      LowerRow(A, Snap(M), r, c, lr, lc, BLOCK_SIZE, i);
    }
    LowerEnds(A, Snap(M), r, c, lr, lc, BLOCK_SIZE);
  }

  /** M'U = M at one place: the column is solved, or t terms have been taken off. */
  ghost predicate UpperAt(A: Mat, B: Mat, c: int, ur: int, uc: int, i: int, j: int, t: int) {
    if j - c < t
    then Dot(B, i, c, A, ur, uc + j - c, j - c) + Mul(At(B, i, j), At(A, ur + j - c, uc + j - c)) == At(A, i, j)
    else At(B, i, j) + Dot(B, i, c, A, ur, uc + j - c, t) == At(A, i, j)
  }

  /** In the rows before ii all columns are solved, in row ii the first k, in the others none. */
  ghost predicate UpperPart(A: Mat, B: Mat, r: int, c: int, ur: int, uc: int, n: int, ii: int, k: int) {
    && Outside(A, B, r, c, n, n)
    && forall i, j | Inside(i, j, r, c, n, n) :: UpperAt(A, B, c, ur, uc, i, j, Terms(i - r, ii, n, k))
  }

  /** One element has been divided. */
  ghost predicate Divided(B: Mat, C: Mat, i: int, j: int, d: real) {
    && d != 0.0 && Mul(At(C, i, j), d) == At(B, i, j)
    && forall i', j' | i' != i || j' != j :: At(C, i', j') == At(B, i', j')
  }

  lemma UpperStepAt(A: Mat, B: Mat, C: Mat, D: Mat, r: int, c: int, ur: int, uc: int, n: int, ii: int, k: int, j: int)
    requires 0 <= k < n && 0 <= ii < n && Inside(r + ii, j, r, c, n, n) && UpperAt(A, B, c, ur, uc, r + ii, j, k)
    requires Divided(B, C, r + ii, c + k, At(A, ur + k, uc + k))
    requires RowLost(C, D, At(C, r + ii, c + k), ur + k, uc + k + 1, r + ii, c + k + 1, n - k - 1)
    requires At(C, ur + k, uc + j - c) == At(A, ur + k, uc + j - c)
    ensures UpperAt(A, D, c, ur, uc, r + ii, j, k + 1)
  {
    hide Mul, Divided, RowLost, At;
    var i := r + ii;
    RowElements(A, B, C, D, i, c, ur, uc, n, k, j);
    var m := if j - c < k then j - c else k;
    DotSame(B, D, i, c, A, A, ur, uc + j - c, m);
  }

  /** Row i after the step: nothing has happened left of column k, which is divided; the rest has lost its share. */
  lemma RowElements(A: Mat, B: Mat, C: Mat, D: Mat, i: int, c: int, ur: int, uc: int, n: int, k: int, j: int)
    requires 0 <= k < n && c <= j < c + n && Divided(B, C, i, c + k, At(A, ur + k, uc + k))
    requires RowLost(C, D, At(C, i, c + k), ur + k, uc + k + 1, i, c + k + 1, n - k - 1)
    requires At(C, ur + k, uc + j - c) == At(A, ur + k, uc + j - c)
    ensures forall k' | c <= k' < c + k :: At(B, i, k') == At(D, i, k')
    ensures Mul(At(D, i, c + k), At(A, ur + k, uc + k)) == At(B, i, c + k)
    ensures j > c + k ==> At(D, i, j) == At(B, i, j) - Mul(At(D, i, c + k), At(A, ur + k, uc + j - c))
  {
    hide Mul, At;
    assert At(D, i, c + k) == At(C, i, c + k);
    forall k' | c <= k' < c + k ensures At(B, i, k') == At(D, i, k') {
      assert At(C, i, k') == At(B, i, k');
    }
  }

  /** Dividing by the diagonal element and taking the row of U off the rest solves one more column. */
  lemma UpperStep(A: Mat, B: Mat, C: Mat, D: Mat, r: int, c: int, ur: int, uc: int, n: int, ii: int, k: int)
    requires 0 <= k < n && 0 <= ii < n && UpperPart(A, B, r, c, ur, uc, n, ii, k) && Apart(r, c, n, n, ur, uc, n)
    requires Divided(B, C, r + ii, c + k, At(B, ur + k, uc + k))
    requires RowLost(C, D, At(C, r + ii, c + k), ur + k, uc + k + 1, r + ii, c + k + 1, n - k - 1)
    ensures UpperPart(A, D, r, c, ur, uc, n, ii, k + 1)
  {
    assert At(B, ur + k, uc + k) == At(A, ur + k, uc + k);
    forall i, j | Inside(i, j, r, c, n, n)
      ensures UpperAt(A, D, c, ur, uc, i, j, Terms(i - r, ii, n, k + 1))
    {
      if i == r + ii {
        assert At(C, ur + k, uc + j - c) == At(B, ur + k, uc + j - c) == At(A, ur + k, uc + j - c);
        UpperStepAt(A, B, C, D, r, c, ur, uc, n, ii, k, j);
      } else {
        UpperElsewhere(A, B, D, c, ur, uc, i, j, Terms(i - r, ii, n, k));
      }
    }
  }

  lemma UpperElsewhere(A: Mat, B: Mat, D: Mat, c: int, ur: int, uc: int, i: int, j: int, t: int)
    requires UpperAt(A, B, c, ur, uc, i, j, t) && forall j' :: At(D, i, j') == At(B, i, j')
    ensures UpperAt(A, D, c, ur, uc, i, j, t)
  {
    hide Mul;
    assert At(D, i, j) == At(B, i, j);
    DotSame(B, D, i, c, A, A, ur, uc + j - c, if j - c < t then j - c else t);
  }

  lemma UpperStart(A: Mat, r: int, c: int, ur: int, uc: int, n: int)
    ensures UpperPart(A, A, r, c, ur, uc, n, 0, 0)
  {
  }

  lemma UpperRow(A: Mat, B: Mat, r: int, c: int, ur: int, uc: int, n: int, ii: int)
    requires 0 <= ii < n && UpperPart(A, B, r, c, ur, uc, n, ii, n)
    ensures UpperPart(A, B, r, c, ur, uc, n, ii + 1, 0)
  {
    forall i, j | Inside(i, j, r, c, n, n) ensures UpperAt(A, B, c, ur, uc, i, j, Terms(i - r, ii + 1, n, 0)) {
      assert UpperAt(A, B, c, ur, uc, i, j, Terms(i - r, ii, n, n));
    }
  }

  ghost predicate DiagonalAt(A: Mat, r: int, c: int, k: int) {
    At(A, r + k, c + k) != 0.0
  }

  /** The diagonal of the n by n submatrix at (r, c) has no zero. */
  ghost predicate Diagonal(A: Mat, r: int, c: int, n: int) {
    forall k | 0 <= k < n :: DiagonalAt(A, r, c, k)
  }

  lemma DiagonalKept(A: Mat, B: Mat, r: int, c: int, ur: int, uc: int, n: int, ii: int, kk: int, k: int)
    requires UpperPart(A, B, r, c, ur, uc, n, ii, kk) && Apart(r, c, n, n, ur, uc, n) && Diagonal(A, ur, uc, n)
    requires 0 <= k < n
    ensures At(B, ur + k, uc + k) == At(A, ur + k, uc + k) != 0.0
  {
    assert DiagonalAt(A, ur, uc, k);
  }

  method DivideBy(M: array2<real>, i: int, j: int, d: real)
    requires 0 <= i < M.Length0 && 0 <= j < M.Length1 && d != 0.0
    modifies M
    ensures Divided(old(Snap(M)), Snap(M), i, j, d)
  {
    M[i, j] := M[i, j] / d;
  }

  /** M'U = M for n rows and m columns of M. */
  ghost predicate IsUpper(A: Mat, B: Mat, r: int, c: int, ur: int, uc: int, n: int, m: int) {
    && Outside(A, B, r, c, n, m)
    && forall i, j | Inside(i, j, r, c, n, m) :: UpperAt(A, B, c, ur, uc, i, j, m)
  }

  lemma UpperEnds(A: Mat, B: Mat, r: int, c: int, ur: int, uc: int, n: int)
    requires UpperPart(A, B, r, c, ur, uc, n, n, 0)
    ensures IsUpper(A, B, r, c, ur, uc, n, n)
  {
    forall i, j | Inside(i, j, r, c, n, n) ensures UpperAt(A, B, c, ur, uc, i, j, n) {
      assert UpperAt(A, B, c, ur, uc, i, j, Terms(i - r, n, n, 0));
    }
  }

  /** block_upper_solve */
  method BlockUpperSolve(M: array2<real>, r: int, c: int, ur: int, uc: int)
    requires Fits(M, r, c, BLOCK_SIZE) && Fits(M, ur, uc, BLOCK_SIZE)
    requires Apart(r, c, BLOCK_SIZE, BLOCK_SIZE, ur, uc, BLOCK_SIZE)
    requires Diagonal(Snap(M), ur, uc, BLOCK_SIZE)
    modifies M
    ensures IsUpper(old(Snap(M)), Snap(M), r, c, ur, uc, BLOCK_SIZE, BLOCK_SIZE)
  {
    hide IsUpper, UpperPart, RowLost, Diagonal, Divided;
    ghost var A := Snap(M);
    UpperStart(A, r, c, ur, uc, BLOCK_SIZE);
    for i := 0 to BLOCK_SIZE
      invariant UpperPart(A, Snap(M), r, c, ur, uc, BLOCK_SIZE, i, 0)
    {
      for k := 0 to BLOCK_SIZE
        invariant UpperPart(A, Snap(M), r, c, ur, uc, BLOCK_SIZE, i, k)
      {
        ghost var B := Snap(M);
        DiagonalKept(A, B, r, c, ur, uc, BLOCK_SIZE, i, k, k);
        DivideBy(M, r + i, c + k, M[ur + k, uc + k]);
        ghost var C := Snap(M);
        Daxmy(M, M[r + i, c + k], ur + k, uc + k + 1, r + i, c + k + 1, BLOCK_SIZE - k - 1);
        UpperStep(A, B, C, Snap(M), r, c, ur, uc, BLOCK_SIZE, i, k);
      }
      UpperRow(A, Snap(M), r, c, ur, uc, BLOCK_SIZE, i);
    }
    UpperEnds(A, Snap(M), r, c, ur, uc, BLOCK_SIZE);
  }

  // ---------------------------------------------------------------------------------------------
  // Divide and conquer
  // ---------------------------------------------------------------------------------------------

  /** The numbers of blocks a matrix may have in a row. */
  predicate PowerOfTwo(nb: int) {
    nb == 1 || (nb > 1 && nb % 2 == 0 && PowerOfTwo(nb / 2))
  }

  function Half(nb: int): (h: int)
    requires PowerOfTwo(nb) && nb != 1
    ensures 1 <= h < nb && nb == 2 * h && PowerOfTwo(h)
  {
    nb / 2
  }

  function Elems(nb: int): (n: int)
    ensures nb > 0 ==> n > 0
  {
    nb * BLOCK_SIZE
  }

  lemma ElemsHalf(nb: int, h: int)
    requires nb == 2 * h && 1 <= h
    ensures Elems(nb) == 2 * Elems(h) && Elems(h) > 0
  {
  }

  /** How many terms the place (i, j) has got after p of the eight recursive calls of schur: they
      go twice through the four quadrants. */
  function QuadTerms(i: int, j: int, h: int, p: int): int {
    var q := (if i < h then 0 else 2) + (if j < h then 0 else 1);
    if q + 4 < p then 2 * h else if q < p then h else 0
  }

  ghost predicate SchurPhase(A: Mat, B: Mat, mr: int, mc: int, vr: int, vc: int, wr: int, wc: int, h: int, p: int) {
    && Outside(A, B, mr, mc, 2 * h, 2 * h)
    && forall i, j | Inside(i, j, mr, mc, 2 * h, 2 * h) ::
         At(B, i, j) ==
         At(A, i, j) - Dot(A, vr + i - mr, vc, A, wr, wc + j - mc, QuadTerms(i - mr, j - mc, h, p))
  }

  lemma QuadTermsStep(i: int, j: int, h: int, p: int, a: int, b: int, k: int)
    requires 0 <= h && 0 <= a <= 1 && 0 <= b <= 1 && 0 <= k <= 1 && p == 4 * k + 2 * a + b
    requires 0 <= i < 2 * h && 0 <= j < 2 * h
    ensures Inside(i, j, Off(a, h), Off(b, h), h, h) ==>
              QuadTerms(i, j, h, p) == Off(k, h) && QuadTerms(i, j, h, p + 1) == Off(k, h) + h
    ensures !Inside(i, j, Off(a, h), Off(b, h), h, h) ==> QuadTerms(i, j, h, p + 1) == QuadTerms(i, j, h, p)
  {
  }

  /** A recursive call on the quadrant (a, b) with the k-th halves of V and W. */
  lemma SchurPhaseStep(A: Mat, B: Mat, C: Mat, mr: int, mc: int, vr: int, vc: int, wr: int, wc: int, h: int, p: int,
                       a: int, b: int, k: int)
    requires 0 <= h && 0 <= a <= 1 && 0 <= b <= 1 && 0 <= k <= 1 && p == 4 * k + 2 * a + b
    requires SchurPhase(A, B, mr, mc, vr, vc, wr, wc, h, p)
    requires Apart(mr, mc, 2 * h, 2 * h, vr, vc, 2 * h) && Apart(mr, mc, 2 * h, 2 * h, wr, wc, 2 * h)
    requires IsSchur(B, C, mr + Off(a, h), mc + Off(b, h), vr + Off(a, h), vc + Off(k, h), wr + Off(k, h),
                     wc + Off(b, h), h)
    ensures SchurPhase(A, C, mr, mc, vr, vc, wr, wc, h, p + 1)
  {
    hide Mul, QuadTerms, Dot, At;
    forall i, j | Inside(i, j, mr, mc, 2 * h, 2 * h)
      ensures At(C, i, j) ==
              At(A, i, j) - Dot(A, vr + i - mr, vc, A, wr, wc + j - mc, QuadTerms(i - mr, j - mc, h, p + 1))
    {
      QuadTermsStep(i - mr, j - mc, h, p, a, b, k);
      if Inside(i, j, mr + Off(a, h), mc + Off(b, h), h, h) {
        assert At(C, i, j) == At(B, i, j) - Dot(B, vr + i - mr, vc + Off(k, h), B, wr + Off(k, h), wc + j - mc, h);
        HalfOutside(A, B, mr, mc, 2 * h, vr + i - mr, vc, wr, wc + j - mc, Off(k, h), h);
      } else {
        assert At(C, i, j) == At(B, i, j);
      }
    }
  }

  lemma HalfOutside(A: Mat, B: Mat, mr: int, mc: int, n: int, i: int, c: int, r: int, j: int, from: int, h: int)
    requires 0 <= h && 0 <= from <= from + h <= n && Outside(A, B, mr, mc, n, n)
    requires i < mr || mr + n <= i || c + n <= mc || mc + n <= c
    requires j < mc || mc + n <= j || r + n <= mr || mr + n <= r
    ensures Dot(A, i, c, A, r, j, from + h) == Dot(A, i, c, A, r, j, from) + Dot(B, i, c + from, B, r + from, j, h)
  {
    hide Dot;
    RowsOutside(A, B, mr, mc, n, n, i, c + from, h);
    ColsOutside(A, B, mr, mc, n, n, r + from, j, h);
    HalfProduct(A, B, i, c, r, j, from, h);
  }

  /** One half of a product, read from a matrix that agrees on it. */
  lemma HalfProduct(A: Mat, B: Mat, i: int, c: int, r: int, j: int, from: int, h: int)
    requires 0 <= h && 0 <= from && RowSame(A, B, i, c + from, h) && ColSame(A, B, r + from, j, h)
    ensures Dot(A, i, c, A, r, j, from + h) == Dot(A, i, c, A, r, j, from) + Dot(B, i, c + from, B, r + from, j, h)
  {
    hide Mul;
    DotSame(A, B, i, c + from, A, B, r + from, j, h);
    DotSplits(A, i, c, A, r, j, from, from + h);
  }

  lemma SchurPhases(A: Mat, B: Mat, mr: int, mc: int, vr: int, vc: int, wr: int, wc: int, h: int)
    ensures SchurPhase(A, A, mr, mc, vr, vc, wr, wc, h, 0)
    ensures SchurPhase(A, B, mr, mc, vr, vc, wr, wc, h, 8) ==> IsSchur(A, B, mr, mc, vr, vc, wr, wc, 2 * h)
  {
  }

  /** schur: M' = M - VW */
  method Schur(M: array2<real>, mr: int, mc: int, vr: int, vc: int, wr: int, wc: int, nb: int)
    requires PowerOfTwo(nb)
    requires Fits(M, mr, mc, Elems(nb)) && Fits(M, vr, vc, Elems(nb)) && Fits(M, wr, wc, Elems(nb))
    requires Apart(mr, mc, Elems(nb), Elems(nb), vr, vc, Elems(nb))
    requires Apart(mr, mc, Elems(nb), Elems(nb), wr, wc, Elems(nb))
    modifies M
    ensures IsSchur(old(Snap(M)), Snap(M), mr, mc, vr, vc, wr, wc, Elems(nb))
    decreases nb, 0
  {
    if nb == 1 {
      BlockSchur(M, mr, mc, vr, vc, wr, wc);
      return;
    }
    SchurQuads(M, mr, mc, vr, vc, wr, wc, Half(nb));
    ElemsHalf(nb, Half(nb));
  }

  /** The recursive case of schur: every quadrant of M is visited twice. */
  method SchurQuads(M: array2<real>, mr: int, mc: int, vr: int, vc: int, wr: int, wc: int, hnb: int)
    requires PowerOfTwo(hnb) && hnb > 0
    requires Fits(M, mr, mc, 2 * Elems(hnb)) && Fits(M, vr, vc, 2 * Elems(hnb)) && Fits(M, wr, wc, 2 * Elems(hnb))
    requires Apart(mr, mc, 2 * Elems(hnb), 2 * Elems(hnb), vr, vc, 2 * Elems(hnb))
    requires Apart(mr, mc, 2 * Elems(hnb), 2 * Elems(hnb), wr, wc, 2 * Elems(hnb))
    modifies M
    ensures IsSchur(old(Snap(M)), Snap(M), mr, mc, vr, vc, wr, wc, 2 * Elems(hnb))
    decreases hnb, 1
  {
    hide IsSchur, SchurPhase, PowerOfTwo, Half, Elems, Snap, QuadTerms, Dot, At;
    var h := Elems(hnb);
    ghost var A := Snap(M);
    SchurPhases(A, A, mr, mc, vr, vc, wr, wc, h);
    Schur(M, mr, mc, vr, vc, wr, wc, hnb);
    ghost var A1 := Snap(M);
    SchurPhaseStep(A, A, A1, mr, mc, vr, vc, wr, wc, h, 0, 0, 0, 0);
    Schur(M, mr, mc + h, vr, vc, wr, wc + h, hnb);
    ghost var A2 := Snap(M);
    SchurPhaseStep(A, A1, A2, mr, mc, vr, vc, wr, wc, h, 1, 0, 1, 0);
    Schur(M, mr + h, mc, vr + h, vc, wr, wc, hnb);
    ghost var A3 := Snap(M);
    SchurPhaseStep(A, A2, A3, mr, mc, vr, vc, wr, wc, h, 2, 1, 0, 0);
    Schur(M, mr + h, mc + h, vr + h, vc, wr, wc + h, hnb);
    ghost var A4 := Snap(M);
    SchurPhaseStep(A, A3, A4, mr, mc, vr, vc, wr, wc, h, 3, 1, 1, 0);
    Schur(M, mr, mc, vr, vc + h, wr + h, wc, hnb);
    ghost var A5 := Snap(M);
    SchurPhaseStep(A, A4, A5, mr, mc, vr, vc, wr, wc, h, 4, 0, 0, 1);
    Schur(M, mr, mc + h, vr, vc + h, wr + h, wc + h, hnb);
    ghost var A6 := Snap(M);
    SchurPhaseStep(A, A5, A6, mr, mc, vr, vc, wr, wc, h, 5, 0, 1, 1);
    Schur(M, mr + h, mc, vr + h, vc + h, wr + h, wc, hnb);
    ghost var A7 := Snap(M);
    SchurPhaseStep(A, A6, A7, mr, mc, vr, vc, wr, wc, h, 6, 1, 0, 1);
    Schur(M, mr + h, mc + h, vr + h, vc + h, wr + h, wc + h, hnb);
    SchurPhaseStep(A, A7, Snap(M), mr, mc, vr, vc, wr, wc, h, 7, 1, 1, 1);
    SchurPhases(A, Snap(M), mr, mc, vr, vc, wr, wc, h);
  }

  lemma LowerAtUpperHalf(A: Mat, A1: Mat, B: Mat, r: int, lr: int, lc: int, i: int, j: int)
    requires r <= i && LowerAt(A, A1, r, lr, lc, i, j, i - r) && ColSame(A1, B, r, j, i - r + 1)
    ensures LowerAt(A, B, r, lr, lc, i, j, i - r)
  {
    hide Mul;
    assert At(A1, i, j) == At(B, i, j);
    DotSame(A, A, lr + i - r, lc, A1, B, r, j, i - r);
  }

  lemma LowerAtLowerHalf(A: Mat, A1: Mat, A2: Mat, B: Mat, r: int, lr: int, lc: int, h: int, i: int, j: int)
    requires 0 <= h && r + h <= i
    requires LowerAt(A2, B, r + h, lr + h, lc + h, i, j, i - (r + h))
    requires At(A2, i, j) == At(A, i, j) - Dot(A1, lr + i - r, lc, A1, r, j, h)
    requires RowSame(A1, A, lr + i - r, lc, h) && RowSame(A2, A, lr + i - r, lc + h, i - (r + h))
    requires ColSame(A1, B, r, j, h)
    ensures LowerAt(A, B, r, lr, lc, i, j, i - r)
  {
    hide Mul;
    DotSame(A1, A, lr + i - r, lc, A1, B, r, j, h);
    DotSame(A2, A, lr + i - r, lc + h, B, B, r + h, j, i - (r + h));
    DotSplits(A, lr + i - r, lc, B, r, j, h, i - r);
  }

  lemma LowerUpperHalf(A: Mat, A1: Mat, A2: Mat, B: Mat, r: int, c: int, lr: int, lc: int, h: int, i: int, j: int)
    requires 0 <= h && Inside(i, j, r, c, h, h)
    requires IsLower(A, A1, r, c, lr, lc, h, h)
    requires Outside(A1, A2, r + h, c, h, h) && Outside(A2, B, r + h, c, h, h)
    ensures LowerAt(A, B, r, lr, lc, i, j, i - r)
  {
    assert LowerAt(A, A1, r, lr, lc, i, j, i - r);
    hide *;
    ColsOutside(A1, A2, r + h, c, h, h, r, j, i - r + 1);
    ColsOutside(A2, B, r + h, c, h, h, r, j, i - r + 1);
    SameThen(A1, A2, B, j, r, i - r + 1);
    LowerAtUpperHalf(A, A1, B, r, lr, lc, i, j);
  }

  lemma LowerLowerHalf(A: Mat, A1: Mat, A2: Mat, B: Mat, r: int, c: int, lr: int, lc: int, h: int, i: int, j: int)
    requires 0 <= h && Apart(r, c, 2 * h, h, lr, lc, 2 * h) && Inside(i, j, r + h, c, h, h)
    requires Outside(A, A1, r, c, h, h)
    requires IsSchur(A1, A2, r + h, c, lr + h, lc, r, c, h)
    requires IsLower(A2, B, r + h, c, lr + h, lc + h, h, h)
    ensures LowerAt(A, B, r, lr, lc, i, j, i - r)
  {
    assert LowerAt(A2, B, r + h, lr + h, lc + h, i, j, i - (r + h));
    assert At(A2, i, j) == At(A1, i, j) - Dot(A1, lr + i - r, lc, A1, r, j, h);
    assert At(A1, i, j) == At(A, i, j);
    hide Dot, At, LowerAt, RowSame, ColSame, Mul;
    RowsOutside(A, A1, r, c, h, h, lr + i - r, lc, 2 * h);
    RowsOutside(A1, A2, r + h, c, h, h, lr + i - r, lc, 2 * h);
    ColsOutside(A1, A2, r + h, c, h, h, r, j, h);
    ColsOutside(A2, B, r + h, c, h, h, r, j, h);
    SameThen(A1, A2, B, j, r, h);
    SameThen(A, A1, A2, lr + i - r, lc, 2 * h);
    RowsCut(A, A1, A2, lr + i - r, lc, h, i - (r + h));
    LowerAtLowerHalf(A, A1, A2, B, r, lr, lc, h, i, j);
  }

  lemma RowsCut(A: Mat, A1: Mat, A2: Mat, i: int, c: int, h: int, m: int)
    requires 0 <= m <= h && RowSame(A, A1, i, c, 2 * h) && RowSame(A, A2, i, c, 2 * h)
    ensures RowSame(A1, A, i, c, h) && RowSame(A2, A, i, c + h, m)
  {
  }

  /** The two steps below the diagonal block of L: take L10 Ma' off Mb, then solve with L11. */
  lemma LowerHalves(A: Mat, A1: Mat, A2: Mat, B: Mat, r: int, c: int, lr: int, lc: int, h: int)
    requires 0 <= h && Apart(r, c, 2 * h, h, lr, lc, 2 * h)
    requires IsLower(A, A1, r, c, lr, lc, h, h)
    requires IsSchur(A1, A2, r + h, c, lr + h, lc, r, c, h)
    requires IsLower(A2, B, r + h, c, lr + h, lc + h, h, h)
    ensures IsLower(A, B, r, c, lr, lc, 2 * h, h)
  {
    forall i, j | !Inside(i, j, r, c, 2 * h, h) ensures At(B, i, j) == At(A, i, j) {
      hide Dot, LowerAt;
      assert At(B, i, j) == At(A2, i, j) == At(A1, i, j);
    }
    forall i, j | Inside(i, j, r, c, 2 * h, h) ensures LowerAt(A, B, r, lr, lc, i, j, i - r) {
      if i < r + h {
        LowerUpperHalf(A, A1, A2, B, r, c, lr, lc, h, i, j);
      } else {
        LowerLowerHalf(A, A1, A2, B, r, c, lr, lc, h, i, j);
      }
    }
  }

  /** aux_lower_solve: Ma at (r, c) above Mb, both h columns wide. */
  method AuxLowerSolve(M: array2<real>, r: int, c: int, lr: int, lc: int, hnb: int)
    requires PowerOfTwo(hnb) && hnb > 0
    requires Fits(M, r, c, Elems(hnb)) && Fits(M, r + Elems(hnb), c, Elems(hnb)) && Fits(M, lr, lc, 2 * Elems(hnb))
    requires Apart(r, c, 2 * Elems(hnb), Elems(hnb), lr, lc, 2 * Elems(hnb))
    modifies M
    ensures IsLower(old(Snap(M)), Snap(M), r, c, lr, lc, 2 * Elems(hnb), Elems(hnb))
    decreases hnb, 1
  {
    hide IsSchur, IsLower, PowerOfTwo, Half, Elems, Snap, Dot, At;
    var h := Elems(hnb);
    ghost var A := Snap(M);
    LowerSolve(M, r, c, lr, lc, hnb);
    ghost var A1 := Snap(M);
    Schur(M, r + h, c, lr + h, lc, r, c, hnb);
    ghost var A2 := Snap(M);
    LowerSolve(M, r + h, c, lr + h, lc + h, hnb);
    LowerHalves(A, A1, A2, Snap(M), r, c, lr, lc, h);
  }

  /** The left and the right columns are solved independently. */
  lemma LowerColumns(A: Mat, B: Mat, C: Mat, r: int, c: int, lr: int, lc: int, h: int)
    requires 0 <= h && Apart(r, c, 2 * h, 2 * h, lr, lc, 2 * h)
    requires IsLower(A, B, r, c, lr, lc, 2 * h, h) && IsLower(B, C, r, c + h, lr, lc, 2 * h, h)
    ensures IsLower(A, C, r, c, lr, lc, 2 * h, 2 * h)
  {
    forall i, j | Inside(i, j, r, c, 2 * h, 2 * h) ensures LowerAt(A, C, r, lr, lc, i, j, i - r) {
      hide Dot, LowerAt, RowSame, ColSame;
      if j < c + h {
        assert Inside(i, j, r, c, 2 * h, h);
        assert LowerAt(A, B, r, lr, lc, i, j, i - r);
        ColsOutside(B, C, r, c + h, 2 * h, h, r, j, i - r + 1);
        LowerAtUpperHalf(A, B, C, r, lr, lc, i, j);
      } else {
        assert Inside(i, j, r, c + h, 2 * h, h);
        assert LowerAt(B, C, r, lr, lc, i, j, i - r);
        RowsOutside(A, B, r, c, 2 * h, h, lr + i - r, lc, i - r);
        LowerAtOther(A, B, C, r, lr, lc, i, j);
      }
    }
  }

  lemma LowerAtOther(A: Mat, B: Mat, C: Mat, r: int, lr: int, lc: int, i: int, j: int)
    requires r <= i && LowerAt(B, C, r, lr, lc, i, j, i - r) && RowSame(A, B, lr + i - r, lc, i - r)
    requires At(B, i, j) == At(A, i, j)
    ensures LowerAt(A, C, r, lr, lc, i, j, i - r)
  {
    hide Mul;
    DotSame(A, B, lr + i - r, lc, C, C, r, j, i - r);
  }

  /** lower_solve: LM' = M */
  method LowerSolve(M: array2<real>, r: int, c: int, lr: int, lc: int, nb: int)
    requires PowerOfTwo(nb) && Fits(M, r, c, Elems(nb)) && Fits(M, lr, lc, Elems(nb))
    requires Apart(r, c, Elems(nb), Elems(nb), lr, lc, Elems(nb))
    modifies M
    ensures IsLower(old(Snap(M)), Snap(M), r, c, lr, lc, Elems(nb), Elems(nb))
    decreases nb, 0
  {
    if nb == 1 {
      BlockLowerSolve(M, r, c, lr, lc);
      return;
    }
    LowerSides(M, r, c, lr, lc, Half(nb));
    ElemsHalf(nb, Half(nb));
  }

  method LowerSides(M: array2<real>, r: int, c: int, lr: int, lc: int, hnb: int)
    requires PowerOfTwo(hnb) && hnb > 0 && Fits(M, r, c, 2 * Elems(hnb)) && Fits(M, lr, lc, 2 * Elems(hnb))
    requires Apart(r, c, 2 * Elems(hnb), 2 * Elems(hnb), lr, lc, 2 * Elems(hnb))
    modifies M
    ensures IsLower(old(Snap(M)), Snap(M), r, c, lr, lc, 2 * Elems(hnb), 2 * Elems(hnb))
    decreases hnb, 2
  {
    hide IsLower, PowerOfTwo, Half, Elems, Snap, Dot, At;
    var h := Elems(hnb);
    ghost var A := Snap(M);
    AuxLowerSolve(M, r, c, lr, lc, hnb);
    ghost var B := Snap(M);
    AuxLowerSolve(M, r, c + h, lr, lc, hnb);
    LowerColumns(A, B, Snap(M), r, c, lr, lc, h);
  }

  lemma UpperAtLeftHalf(A: Mat, A1: Mat, B: Mat, c: int, ur: int, uc: int, h: int, m: int, i: int, j: int)
    requires c <= j < c + h <= c + m && UpperAt(A, A1, c, ur, uc, i, j, h) && RowSame(A1, B, i, c, h)
    ensures UpperAt(A, B, c, ur, uc, i, j, m)
  {
    hide Mul;
    assert At(A1, i, j) == At(B, i, j);
    DotSame(A1, B, i, c, A, A, ur, uc + j - c, j - c);
  }

  lemma UpperAtRightHalf(A: Mat, A1: Mat, A2: Mat, B: Mat, c: int, ur: int, uc: int, h: int, i: int, j: int)
    requires 0 <= h && c + h <= j < c + 2 * h
    requires UpperAt(A2, B, c + h, ur + h, uc + h, i, j, h)
    requires At(A2, i, j) == At(A, i, j) - Dot(A1, i, c, A1, ur, uc + j - c, h)
    requires RowSame(A1, B, i, c, h) && ColSame(A, A1, ur, uc + j - c, h) && ColSame(A, A2, ur + h, uc + j - c, h)
    ensures UpperAt(A, B, c, ur, uc, i, j, 2 * h)
  {
    hide Mul;
    var jj := j - (c + h);
    assert At(A, ur + h + jj, uc + j - c) == At(A2, ur + h + jj, uc + j - c);
    DotSame(A1, B, i, c, A1, A, ur, uc + j - c, h);
    DotSame(B, B, i, c + h, A2, A, ur + h, uc + j - c, jj);
    DotSplits(B, i, c, A, ur, uc + j - c, h, j - c);
  }

  lemma UpperRightHalf(A: Mat, A1: Mat, A2: Mat, B: Mat, r: int, c: int, ur: int, uc: int, h: int, i: int, j: int)
    requires 0 <= h && Apart(r, c, h, 2 * h, ur, uc, 2 * h) && Inside(i, j, r, c + h, h, h)
    requires Outside(A, A1, r, c, h, h)
    requires IsSchur(A1, A2, r, c + h, r, c, ur, uc + h, h)
    requires IsUpper(A2, B, r, c + h, ur + h, uc + h, h, h)
    ensures UpperAt(A, B, c, ur, uc, i, j, 2 * h)
  {
    assert UpperAt(A2, B, c + h, ur + h, uc + h, i, j, h);
    assert At(A2, i, j) == At(A1, i, j) - Dot(A1, i, c, A1, ur, uc + j - c, h);
    assert At(A1, i, j) == At(A, i, j);
    hide Dot, At, UpperAt, RowSame, ColSame, Mul;
    RowsOutside(A1, A2, r, c + h, h, h, i, c, h);
    RowsOutside(A2, B, r, c + h, h, h, i, c, h);
    SameThen(A1, A2, B, i, c, h);
    ColsOutside(A, A1, r, c, h, h, ur, uc + j - c, h);
    ColsOutside(A, A1, r, c, h, h, ur + h, uc + j - c, h);
    ColsOutside(A1, A2, r, c + h, h, h, ur + h, uc + j - c, h);
    SameThen(A, A1, A2, uc + j - c, ur + h, h);
    UpperAtRightHalf(A, A1, A2, B, c, ur, uc, h, i, j);
  }

  lemma UpperLeftHalf(A: Mat, A1: Mat, A2: Mat, B: Mat, r: int, c: int, ur: int, uc: int, h: int, i: int, j: int)
    requires 0 <= h && Inside(i, j, r, c, h, h)
    requires IsUpper(A, A1, r, c, ur, uc, h, h)
    requires Outside(A1, A2, r, c + h, h, h) && Outside(A2, B, r, c + h, h, h)
    ensures UpperAt(A, B, c, ur, uc, i, j, 2 * h)
  {
    assert UpperAt(A, A1, c, ur, uc, i, j, h);
    hide *;
    RowsOutside(A1, A2, r, c + h, h, h, i, c, h);
    RowsOutside(A2, B, r, c + h, h, h, i, c, h);
    SameThen(A1, A2, B, i, c, h);
    UpperAtLeftHalf(A, A1, B, c, ur, uc, h, 2 * h, i, j);
  }

  /** The two steps right of the diagonal block of U: take Ma' U01 off Mb, then solve with U11. */
  lemma UpperHalves(A: Mat, A1: Mat, A2: Mat, B: Mat, r: int, c: int, ur: int, uc: int, h: int)
    requires 0 <= h && Apart(r, c, h, 2 * h, ur, uc, 2 * h)
    requires IsUpper(A, A1, r, c, ur, uc, h, h)
    requires IsSchur(A1, A2, r, c + h, r, c, ur, uc + h, h)
    requires IsUpper(A2, B, r, c + h, ur + h, uc + h, h, h)
    ensures IsUpper(A, B, r, c, ur, uc, h, 2 * h)
  {
    forall i, j | !Inside(i, j, r, c, h, 2 * h) ensures At(B, i, j) == At(A, i, j) {
      hide Dot, UpperAt;
      assert At(B, i, j) == At(A2, i, j) == At(A1, i, j);
    }
    forall i, j | Inside(i, j, r, c, h, 2 * h) ensures UpperAt(A, B, c, ur, uc, i, j, 2 * h) {
      if j < c + h {
        UpperLeftHalf(A, A1, A2, B, r, c, ur, uc, h, i, j);
      } else {
        UpperRightHalf(A, A1, A2, B, r, c, ur, uc, h, i, j);
      }
    }
  }

  /** The diagonal of U survives a step that changes M only, and so do its two halves. */
  lemma DiagonalHalves(A: Mat, B: Mat, r: int, c: int, n: int, m: int, ur: int, uc: int, h: int)
    requires 0 <= h && Outside(A, B, r, c, n, m) && Apart(r, c, n, m, ur, uc, 2 * h) && Diagonal(A, ur, uc, 2 * h)
    ensures Diagonal(B, ur, uc, 2 * h) && Diagonal(B, ur, uc, h) && Diagonal(B, ur + h, uc + h, h)
  {
    forall k | 0 <= k < 2 * h ensures DiagonalAt(B, ur, uc, k) {
      assert DiagonalAt(A, ur, uc, k);
    }
    DiagonalTail(B, ur, uc, ur + h, uc + h, h);
  }

  lemma DiagonalTail(A: Mat, r: int, c: int, r': int, c': int, h: int)
    requires 0 <= h && r' == r + h && c' == c + h && Diagonal(A, r, c, 2 * h)
    ensures Diagonal(A, r', c', h)
  {
    forall k | 0 <= k < h ensures DiagonalAt(A, r', c', k) {
      assert DiagonalAt(A, r, c, k + h);
    }
  }

  /** aux_upper_solve: Ma at (r, c) left of Mb, both h rows high. */
  method AuxUpperSolve(M: array2<real>, r: int, c: int, ur: int, uc: int, hnb: int)
    requires PowerOfTwo(hnb) && hnb > 0
    requires Fits(M, r, c, Elems(hnb)) && Fits(M, r, c + Elems(hnb), Elems(hnb)) && Fits(M, ur, uc, 2 * Elems(hnb))
    requires Apart(r, c, Elems(hnb), 2 * Elems(hnb), ur, uc, 2 * Elems(hnb))
    requires Diagonal(Snap(M), ur, uc, 2 * Elems(hnb))
    modifies M
    ensures IsUpper(old(Snap(M)), Snap(M), r, c, ur, uc, Elems(hnb), 2 * Elems(hnb))
    decreases hnb, 1
  {
    hide IsSchur, IsUpper, PowerOfTwo, Half, Elems, Snap, Dot, At, Diagonal, Outside;
    var h := Elems(hnb);
    ghost var A := Snap(M);
    DiagonalSame(A, r, c, h, ur, uc);
    UpperSolve(M, r, c, ur, uc, hnb);
    ghost var A1 := Snap(M);
    UpperOutside(A, A1, r, c, ur, uc, h, h);
    DiagonalHalves(A, A1, r, c, h, h, ur, uc, h);
    Schur(M, r, c + h, r, c, ur, uc + h, hnb);
    ghost var A2 := Snap(M);
    SchurOutside(A1, A2, r, c + h, r, c, ur, uc + h, h);
    DiagonalHalves(A1, A2, r, c + h, h, h, ur, uc, h);
    UpperSolve(M, r, c + h, ur + h, uc + h, hnb);
    UpperHalves(A, A1, A2, Snap(M), r, c, ur, uc, h);
  }

  lemma DiagonalSame(A: Mat, r: int, c: int, h: int, ur: int, uc: int)
    requires 0 <= h && Apart(r, c, h, 2 * h, ur, uc, 2 * h) && Diagonal(A, ur, uc, 2 * h)
    ensures Diagonal(A, ur, uc, h)
  {
  }

  lemma UpperOutside(A: Mat, B: Mat, r: int, c: int, ur: int, uc: int, n: int, m: int)
    requires IsUpper(A, B, r, c, ur, uc, n, m)
    ensures Outside(A, B, r, c, n, m)
  {
  }

  lemma SchurOutside(A: Mat, B: Mat, mr: int, mc: int, vr: int, vc: int, wr: int, wc: int, n: int)
    requires IsSchur(A, B, mr, mc, vr, vc, wr, wc, n)
    ensures Outside(A, B, mr, mc, n, n)
  {
  }

  lemma UpperAtOther(A: Mat, B: Mat, C: Mat, c: int, ur: int, uc: int, m: int, i: int, j: int)
    requires c <= j < c + m && UpperAt(B, C, c, ur, uc, i, j, m) && ColSame(A, B, ur, uc + j - c, m)
    requires At(B, i, j) == At(A, i, j)
    ensures UpperAt(A, C, c, ur, uc, i, j, m)
  {
    hide Mul;
    assert At(A, ur + j - c, uc + j - c) == At(B, ur + j - c, uc + j - c);
    DotSame(C, C, i, c, A, B, ur, uc + j - c, j - c);
  }

  /** The upper and the lower rows are solved independently. */
  lemma UpperRows(A: Mat, B: Mat, C: Mat, r: int, c: int, ur: int, uc: int, h: int)
    requires 0 <= h && Apart(r, c, 2 * h, 2 * h, ur, uc, 2 * h)
    requires IsUpper(A, B, r, c, ur, uc, h, 2 * h) && IsUpper(B, C, r + h, c, ur, uc, h, 2 * h)
    ensures IsUpper(A, C, r, c, ur, uc, 2 * h, 2 * h)
  {
    forall i, j | Inside(i, j, r, c, 2 * h, 2 * h) ensures UpperAt(A, C, c, ur, uc, i, j, 2 * h) {
      hide Dot, UpperAt, RowSame, ColSame;
      if i < r + h {
        assert UpperAt(A, B, c, ur, uc, i, j, 2 * h);
        RowsOutside(B, C, r + h, c, h, 2 * h, i, c, 2 * h);
        UpperAtLeftHalf(A, B, C, c, ur, uc, 2 * h, 2 * h, i, j);
      } else {
        assert UpperAt(B, C, c, ur, uc, i, j, 2 * h);
        ColsOutside(A, B, r, c, h, 2 * h, ur, uc + j - c, 2 * h);
        UpperAtOther(A, B, C, c, ur, uc, 2 * h, i, j);
      }
    }
  }

  /** upper_solve: M'U = M */
  method UpperSolve(M: array2<real>, r: int, c: int, ur: int, uc: int, nb: int)
    requires PowerOfTwo(nb) && Fits(M, r, c, Elems(nb)) && Fits(M, ur, uc, Elems(nb))
    requires Apart(r, c, Elems(nb), Elems(nb), ur, uc, Elems(nb))
    requires Diagonal(Snap(M), ur, uc, Elems(nb))
    modifies M
    ensures IsUpper(old(Snap(M)), Snap(M), r, c, ur, uc, Elems(nb), Elems(nb))
    decreases nb, 0
  {
    if nb == 1 {
      BlockUpperSolve(M, r, c, ur, uc);
      return;
    }
    ElemsHalf(nb, Half(nb));
    UpperSides(M, r, c, ur, uc, Half(nb));
  }

  method UpperSides(M: array2<real>, r: int, c: int, ur: int, uc: int, hnb: int)
    requires PowerOfTwo(hnb) && hnb > 0 && Fits(M, r, c, 2 * Elems(hnb)) && Fits(M, ur, uc, 2 * Elems(hnb))
    requires Apart(r, c, 2 * Elems(hnb), 2 * Elems(hnb), ur, uc, 2 * Elems(hnb))
    requires Diagonal(Snap(M), ur, uc, 2 * Elems(hnb))
    modifies M
    ensures IsUpper(old(Snap(M)), Snap(M), r, c, ur, uc, 2 * Elems(hnb), 2 * Elems(hnb))
    decreases hnb, 2
  {
    hide IsUpper, PowerOfTwo, Half, Elems, Snap, Dot, At, Diagonal, Outside;
    var h := Elems(hnb);
    ghost var A := Snap(M);
    AuxUpperSolve(M, r, c, ur, uc, hnb);
    ghost var B := Snap(M);
    UpperOutside(A, B, r, c, ur, uc, h, 2 * h);
    DiagonalHalves(A, B, r, c, h, 2 * h, ur, uc, h);
    AuxUpperSolve(M, r + h, c, ur, uc, hnb);
    UpperRows(A, B, Snap(M), r, c, ur, uc, h);
  }

  // ---------------------------------------------------------------------------------------------
  // Decomposition
  // ---------------------------------------------------------------------------------------------

  /** The product of the unit lower and the upper triangle kept in T, from row and column o on, at
      one place: what test_result computes. */
  ghost function Product(T: Mat, o: int, i: int, j: int): real {
    if i <= j then Dot(T, i, o, T, o, j, i - o) + At(T, i, j) else Dot(T, i, o, T, o, j, j - o + 1)
  }

  ghost predicate FactoredAt(A: Mat, T: Mat, o: int, i: int, j: int) {
    At(A, i, j) == Product(T, o, i, j)
  }

  /** T keeps the factors of the n by n submatrix of A at (o, o). */
  ghost predicate Factored(A: Mat, T: Mat, o: int, n: int) {
    forall i, j | Inside(i, j, o, o, n, n) :: FactoredAt(A, T, o, i, j)
  }

  /** The pivots of T from o on, except the last one of n, which nothing is divided by. */
  ghost predicate Pivots(T: Mat, o: int, n: int) {
    forall k | o <= k < o + n - 1 :: At(T, k, k) != 0.0
  }

  /** The first term of a product. */
  lemma ProductPeels(T: Mat, o: int, i: int, j: int)
    requires o < i && o < j
    ensures Product(T, o, i, j) == Mul(At(T, i, o), At(T, o, j)) + Product(T, o + 1, i, j)
  {
    hide Mul;
    DotSplits(T, i, o, T, o, j, 1, if i <= j then i - o else j - o + 1);
    assert Dot(T, i, o, T, o, j, 1) == Dot(T, i, o, T, o, j, 0) + Mul(At(T, i, o), At(T, o, j));
  }

  lemma Cancels(x: real, y: real, d: real)
    requires d != 0.0 && Mul(x, d) == Mul(y, d)
    ensures x == y
  {
    assert (x - y) * d == 0.0;
  }

  /** What stands at (i, j) when s columns have been eliminated. */
  ghost function Partial(T: Mat, s: int, i: int, j: int): real {
    if i < s || j < s then At(T, i, j) else Product(T, s, i, j)
  }

  ghost predicate PartialAt(B: Mat, T: Mat, s: int, cur: int, i: int, j: int) {
    At(B, i, j) == Partial(T, if s < i < cur then s + 1 else s, i, j)
  }

  /** block_lu in the middle of column s: the rows before cur are done. */
  ghost predicate LuPart(A: Mat, B: Mat, T: Mat, o: int, n: int, s: int, cur: int) {
    && Outside(A, B, o, o, n, n)
    && forall i, j | Inside(i, j, o, o, n, n) :: PartialAt(B, T, s, cur, i, j)
  }

  lemma PartialStep(B: Mat, C: Mat, D: Mat, T: Mat, s: int, cur: int, end: int, j: int)
    requires s < cur < end && j < end && At(T, s, s) != 0.0
    requires PartialAt(B, T, s, cur, cur, j) && PartialAt(B, T, s, cur, cur, s)
    requires At(B, s, j) == Partial(T, s, s, j) && At(B, s, s) == Partial(T, s, s, s)
    requires Divided(B, C, cur, s, At(B, s, s))
    requires RowLost(C, D, At(C, cur, s), s, s + 1, cur, s + 1, end - s - 1)
    ensures PartialAt(D, T, s, cur + 1, cur, j)
  {
    hide Mul;
    assert At(B, s, s) == At(T, s, s);
    assert At(B, cur, s) == Dot(T, cur, s, T, s, s, 0) + Mul(At(T, cur, s), At(T, s, s));
    Cancels(At(C, cur, s), At(T, cur, s), At(T, s, s));
    if j > s {
      ProductPeels(T, s, cur, j);
      assert At(C, s, j) == At(B, s, j) == At(T, s, j);
      assert At(D, cur, j) == At(C, cur, j) - Mul(At(C, cur, s), At(C, s, j));
    } else {
      assert At(D, cur, j) == At(C, cur, j);
    }
  }

  lemma LuStep(A: Mat, B: Mat, C: Mat, D: Mat, T: Mat, o: int, n: int, s: int, cur: int)
    requires o <= s < cur < o + n && LuPart(A, B, T, o, n, s, cur) && Pivots(T, o, n)
    requires Divided(B, C, cur, s, At(B, s, s))
    requires RowLost(C, D, At(C, cur, s), s, s + 1, cur, s + 1, o + n - s - 1)
    ensures LuPart(A, D, T, o, n, s, cur + 1)
  {
    assert PartialAt(B, T, s, cur, s, s) && PartialAt(B, T, s, cur, cur, s);
    forall i, j | Inside(i, j, o, o, n, n) ensures PartialAt(D, T, s, cur + 1, i, j) {
      hide Mul, Product, Partial;
      assert PartialAt(B, T, s, cur, i, j);
      if i == cur {
        assert PartialAt(B, T, s, cur, s, j);
        PartialStep(B, C, D, T, s, cur, o + n, j);
      } else {
        assert At(D, i, j) == At(C, i, j) == At(B, i, j);
      }
    }
  }

  lemma LuColumn(A: Mat, B: Mat, T: Mat, o: int, n: int, s: int)
    requires o <= s < o + n && LuPart(A, B, T, o, n, s, o + n)
    ensures LuPart(A, B, T, o, n, s + 1, s + 2)
  {
    forall i, j | Inside(i, j, o, o, n, n) ensures PartialAt(B, T, s + 1, s + 2, i, j) {
      assert PartialAt(B, T, s, o + n, i, j);
    }
  }

  lemma LuStart(A: Mat, T: Mat, o: int, n: int)
    requires 0 <= n && Factored(A, T, o, n)
    ensures LuPart(A, A, T, o, n, o, o + 1)
  {
    forall i, j | Inside(i, j, o, o, n, n) ensures PartialAt(A, T, o, o + 1, i, j) {
      assert FactoredAt(A, T, o, i, j);
    }
  }

  /** The pivot is in its place when its column is eliminated. */
  lemma PivotInPlace(A: Mat, B: Mat, T: Mat, o: int, n: int, s: int, cur: int)
    requires o <= s < cur < o + n && LuPart(A, B, T, o, n, s, cur) && Pivots(T, o, n)
    ensures At(B, s, s) != 0.0
  {
    assert PartialAt(B, T, s, cur, s, s);
  }

  /** B is A with the factors T in the submatrix. */
  ghost predicate IsLu(A: Mat, B: Mat, T: Mat, o: int, n: int) {
    && Outside(A, B, o, o, n, n)
    && forall i, j | Inside(i, j, o, o, n, n) :: At(B, i, j) == At(T, i, j)
  }

  lemma LuEnds(A: Mat, B: Mat, T: Mat, o: int, n: int)
    requires 0 <= n && LuPart(A, B, T, o, n, o + n, o + n + 1)
    ensures IsLu(A, B, T, o, n)
  {
    forall i, j | Inside(i, j, o, o, n, n) ensures At(B, i, j) == At(T, i, j) {
      assert PartialAt(B, T, o + n, o + n + 1, i, j);
    }
  }

  /** block_lu: factors a block that has factors. */
  method BlockLu(M: array2<real>, o: int, ghost T: Mat)
    requires Fits(M, o, o, BLOCK_SIZE) && Factored(Snap(M), T, o, BLOCK_SIZE) && Pivots(T, o, BLOCK_SIZE)
    modifies M
    ensures IsLu(old(Snap(M)), Snap(M), T, o, BLOCK_SIZE)
  {
    hide LuPart, RowLost, Pivots, Divided, Factored, IsLu, Snap;
    ghost var A := Snap(M);
    LuStart(A, T, o, BLOCK_SIZE);
    for k := 0 to BLOCK_SIZE
      invariant LuPart(A, Snap(M), T, o, BLOCK_SIZE, o + k, o + k + 1)
    {
      for i := k + 1 to BLOCK_SIZE
        invariant LuPart(A, Snap(M), T, o, BLOCK_SIZE, o + k, o + i)
      {
        ghost var B := Snap(M);
        PivotInPlace(A, B, T, o, BLOCK_SIZE, o + k, o + i);
        DivideBy(M, o + i, o + k, M[o + k, o + k]);
        ghost var C := Snap(M);
        Daxmy(M, M[o + i, o + k], o + k, o + k + 1, o + i, o + k + 1, BLOCK_SIZE - k - 1);
        LuStep(A, B, C, Snap(M), T, o, BLOCK_SIZE, o + k, o + i);
      }
      LuColumn(A, Snap(M), T, o, BLOCK_SIZE, o + k);
    }
    LuEnds(A, Snap(M), T, o, BLOCK_SIZE);
  }

  // ---------------------------------------------------------------------------------------------
  // Divide and conquer
  // ---------------------------------------------------------------------------------------------

  /** The n by m submatrix at (r, c) is that of T. */
  ghost predicate InPlace(A: Mat, T: Mat, r: int, c: int, n: int, m: int) {
    forall i, j | Inside(i, j, r, c, n, m) :: At(A, i, j) == At(T, i, j)
  }

  ghost predicate LowerHere(A: Mat, B: Mat, T: Mat, o: int, i: int, j: int) {
    LowerAt(A, B, o, o, o, i, j, i - o) && FactoredAt(A, T, o, i, j)
  }

  /** Forward substitution has one solution: the part of U it stands for. */
  lemma {:induction false} LowerFindsU(A: Mat, B: Mat, T: Mat, o: int, h: int, i: int, j: int)
    requires o <= i < o + h <= j
    requires forall k | o <= k <= i :: LowerHere(A, B, T, o, k, j)
    requires InPlace(A, T, o, o, h, h)
    ensures At(B, i, j) == At(T, i, j)
    decreases i - o
  {
    hide Mul;
    forall k | o <= k < i ensures At(B, k, j) == At(T, k, j) {
      LowerFindsU(A, B, T, o, h, k, j);
    }
    assert RowSame(A, T, i, o, i - o);
    assert LowerHere(A, B, T, o, i, j);
    DotSame(A, T, i, o, B, T, o, j, i - o);
  }

  /** So has the substitution that gives the part of L. */
  lemma {:induction false} UpperFindsL(A: Mat, B: Mat, T: Mat, o: int, h: int, i: int, j: int)
    requires o <= j < o + h <= i
    requires forall k | o <= k <= j :: UpperAt(A, B, o, o, o, i, k, h) && FactoredAt(A, T, o, i, k)
    requires InPlace(A, T, o, o, h, h)
    requires forall k | o <= k <= j :: At(T, k, k) != 0.0
    ensures At(B, i, j) == At(T, i, j)
    decreases j - o
  {
    hide Mul;
    forall k | o <= k < j ensures At(B, i, k) == At(T, i, k) {
      UpperFindsL(A, B, T, o, h, i, k);
    }
    assert ColSame(A, T, o, j, j - o + 1);
    assert At(A, j, j) == At(T, j, j);
    assert UpperAt(A, B, o, o, o, i, j, h) && FactoredAt(A, T, o, i, j);
    DotSame(B, T, i, o, A, T, o, j, j - o);
    Cancels(At(B, i, j), At(T, i, j), At(T, j, j));
  }

  /** The Schur complement has the rest of the factors. */
  lemma SchurIsFactored(A: Mat, B: Mat, T: Mat, o: int, h: int, i: int, j: int)
    requires 0 <= h && o + h <= i && o + h <= j && FactoredAt(A, T, o, i, j)
    requires At(B, i, j) == At(A, i, j) - Dot(A, i, o, A, o, j, h)
    requires RowSame(A, T, i, o, h) && ColSame(A, T, o, j, h)
    ensures FactoredAt(B, T, o + h, i, j)
  {
    hide Mul;
    DotSame(A, T, i, o, A, T, o, j, h);
    DotSplits(T, i, o, T, o, j, h, if i <= j then i - o else j - o + 1);
  }

  lemma FactoredPart(A: Mat, T: Mat, o: int, n: int, h: int)
    requires 0 <= h <= n && Factored(A, T, o, n) && Pivots(T, o, n)
    ensures Factored(A, T, o, h) && Pivots(T, o, h)
  {
    forall i, j | Inside(i, j, o, o, h, h) ensures FactoredAt(A, T, o, i, j) {
      assert Inside(i, j, o, o, n, n);
    }
  }

  /** After the upper left has been factored and the upper right solved, the upper right holds its part of U. */
  lemma UpperRightDone(A: Mat, B1: Mat, B2: Mat, T: Mat, o: int, h: int)
    requires 0 < h && Factored(A, T, o, 2 * h) && IsLu(A, B1, T, o, h) && IsLower(B1, B2, o, o + h, o, o, h, h)
    ensures InPlace(B2, T, o, o + h, h, h) && InPlace(B2, T, o, o, h, h)
    ensures forall i, j | Inside(i, j, o + h, o, h, 2 * h) :: FactoredAt(B2, T, o, i, j)
  {
    forall i, j | Inside(i, j, o, o + h, h, h) ensures At(B2, i, j) == At(T, i, j) {
      hide Mul, Dot, Product;
      forall k | o <= k <= i ensures LowerHere(B1, B2, T, o, k, j) {
        assert FactoredAt(A, T, o, k, j) && At(B1, k, j) == At(A, k, j);
        assert Inside(k, j, o, o + h, h, h);
      }
      LowerFindsU(B1, B2, T, o, h, i, j);
    }
    forall i, j | Inside(i, j, o + h, o, h, 2 * h) ensures FactoredAt(B2, T, o, i, j) {
      hide Mul, Dot, Product;
      assert FactoredAt(A, T, o, i, j);
      assert At(B2, i, j) == At(B1, i, j) == At(A, i, j);
    }
  }

  /** After the lower left has been solved too, it holds its part of L. */
  lemma LowerLeftDone(B2: Mat, B3: Mat, T: Mat, o: int, h: int)
    requires 0 < h && IsUpper(B2, B3, o + h, o, o, o, h, h) && InPlace(B2, T, o, o, h, h) && Pivots(T, o, 2 * h)
    requires InPlace(B2, T, o, o + h, h, h)
    requires forall i, j | Inside(i, j, o + h, o, h, 2 * h) :: FactoredAt(B2, T, o, i, j)
    ensures InPlace(B3, T, o + h, o, h, h) && InPlace(B3, T, o, o, h, 2 * h)
    ensures forall i, j | Inside(i, j, o + h, o + h, h, h) :: FactoredAt(B3, T, o, i, j)
  {
    forall i, j | Inside(i, j, o + h, o, h, h) ensures At(B3, i, j) == At(T, i, j) {
      hide Mul, Dot, Product;
      forall k | o <= k <= j ensures UpperAt(B2, B3, o, o, o, i, k, h) && FactoredAt(B2, T, o, i, k) {
        assert Inside(i, k, o + h, o, h, 2 * h) && Inside(i, k, o + h, o, h, h);
      }
      UpperFindsL(B2, B3, T, o, h, i, j);
    }
    forall i, j | Inside(i, j, o + h, o + h, h, h) ensures FactoredAt(B3, T, o, i, j) {
      hide Mul, Dot, Product;
      assert FactoredAt(B2, T, o, i, j) && At(B3, i, j) == At(B2, i, j);
    }
  }

  /** The Schur complement is left to be factored. */
  lemma ComplementLeft(B3: Mat, B4: Mat, T: Mat, o: int, h: int)
    requires 0 < h && IsSchur(B3, B4, o + h, o + h, o + h, o, o, o + h, h)
    requires InPlace(B3, T, o + h, o, h, h) && InPlace(B3, T, o, o, h, 2 * h)
    requires forall i, j | Inside(i, j, o + h, o + h, h, h) :: FactoredAt(B3, T, o, i, j)
    ensures Factored(B4, T, o + h, h) && InPlace(B4, T, o + h, o, h, h) && InPlace(B4, T, o, o, h, 2 * h)
  {
    var o' := o + h;
    forall i, j | Inside(i, j, o', o', h, h) ensures FactoredAt(B4, T, o', i, j) {
      hide Mul, Dot, Product;
      assert FactoredAt(B3, T, o, i, j);
      assert At(B4, i, j) == At(B3, i, j) - Dot(B3, i, o, B3, o, j, h);
      assert RowSame(B3, T, i, o, h) && ColSame(B3, T, o, j, h);
      SchurIsFactored(B3, B4, T, o, h, i, j);
    }
  }

  lemma AllInPlace(B4: Mat, B: Mat, T: Mat, o: int, h: int)
    requires 0 < h && InPlace(B4, T, o + h, o, h, h) && InPlace(B4, T, o, o, h, 2 * h) && IsLu(B4, B, T, o + h, h)
    ensures InPlace(B, T, o, o, 2 * h, 2 * h)
  {
    forall i, j | Inside(i, j, o, o, 2 * h, 2 * h) ensures At(B, i, j) == At(T, i, j) {
      if !Inside(i, j, o + h, o + h, h, h) {
        assert At(B, i, j) == At(B4, i, j);
        assert Inside(i, j, o, o, h, 2 * h) || Inside(i, j, o + h, o, h, h);
      }
    }
  }

  lemma OutsideAll(A: Mat, B1: Mat, B2: Mat, B3: Mat, B4: Mat, B: Mat, o: int, h: int)
    requires 0 < h && Outside(A, B1, o, o, h, h) && Outside(B1, B2, o, o + h, h, h) && Outside(B2, B3, o + h, o, h, h)
    requires Outside(B3, B4, o + h, o + h, h, h) && Outside(B4, B, o + h, o + h, h, h)
    ensures Outside(A, B, o, o, 2 * h, 2 * h)
  {
    forall i, j | !Inside(i, j, o, o, 2 * h, 2 * h) ensures At(B, i, j) == At(A, i, j) {
      assert At(B, i, j) == At(B4, i, j) == At(B3, i, j) == At(B2, i, j) == At(B1, i, j);
    }
  }

  lemma LuOutside(A: Mat, B: Mat, T: Mat, o: int, n: int)
    requires IsLu(A, B, T, o, n)
    ensures Outside(A, B, o, o, n, n)
  {
  }

  lemma LowerOutside(A: Mat, B: Mat, r: int, c: int, lr: int, lc: int, n: int, m: int)
    requires IsLower(A, B, r, c, lr, lc, n, m)
    ensures Outside(A, B, r, c, n, m)
  {
  }

  lemma IsLuFrom(A: Mat, B: Mat, T: Mat, o: int, n: int)
    requires Outside(A, B, o, o, n, n) && InPlace(B, T, o, o, n, n)
    ensures IsLu(A, B, T, o, n)
  {
  }

  lemma PivotsDiagonal(B: Mat, T: Mat, o: int, h: int)
    requires 0 < h && InPlace(B, T, o, o, h, h) && Pivots(T, o, 2 * h)
    ensures Diagonal(B, o, o, h) && Pivots(T, o + h, h)
  {
    forall k | 0 <= k < h ensures DiagonalAt(B, o, o, k) {
      assert At(B, o + k, o + k) == At(T, o + k, o + k);
    }
  }

  /** lu: finds the factors of a submatrix that has factors. */
  method LuFactor(M: array2<real>, o: int, nb: int, ghost T: Mat)
    requires PowerOfTwo(nb) && Fits(M, o, o, Elems(nb)) && Factored(Snap(M), T, o, Elems(nb)) && Pivots(T, o, Elems(nb))
    modifies M
    ensures IsLu(old(Snap(M)), Snap(M), T, o, Elems(nb))
    decreases nb, 0
  {
    if nb == 1 {
      BlockLu(M, o, T);
      return;
    }
    ElemsHalf(nb, Half(nb));
    LuQuadrants(M, o, Half(nb), T);
  }

  /** The recursive case of lu. */
  method LuQuadrants(M: array2<real>, o: int, hnb: int, ghost T: Mat)
    requires PowerOfTwo(hnb) && hnb > 0 && Fits(M, o, o, 2 * Elems(hnb))
    requires Factored(Snap(M), T, o, 2 * Elems(hnb)) && Pivots(T, o, 2 * Elems(hnb))
    modifies M
    ensures IsLu(old(Snap(M)), Snap(M), T, o, 2 * Elems(hnb))
    decreases hnb, 1
  {
    hide IsLu, IsLower, IsUpper, IsSchur, Outside, Factored, FactoredAt, Pivots, InPlace, Diagonal, PowerOfTwo, Half,
      Elems, Snap, Dot, At;
    var h := Elems(hnb);
    ghost var A := Snap(M);
    FactoredPart(A, T, o, 2 * h, h);
    LuFactor(M, o, hnb, T);
    ghost var B1 := Snap(M);
    LowerSolve(M, o, o + h, o, o, hnb);
    ghost var B2 := Snap(M);
    UpperRightDone(A, B1, B2, T, o, h);
    PivotsDiagonal(B2, T, o, h);
    UpperSolve(M, o + h, o, o, o, hnb);
    ghost var B3 := Snap(M);
    LowerLeftDone(B2, B3, T, o, h);
    Schur(M, o + h, o + h, o + h, o, o, o + h, hnb);
    ghost var B4 := Snap(M);
    ComplementLeft(B3, B4, T, o, h);
    LuFactor(M, o + h, hnb, T);
    ghost var B := Snap(M);
    AllInPlace(B4, B, T, o, h);
    LuOutside(A, B1, T, o, h);
    LowerOutside(B1, B2, o, o + h, o, o, h, h);
    UpperOutside(B2, B3, o + h, o, o, o, h, h);
    SchurOutside(B3, B4, o + h, o + h, o + h, o, o, o + h, h);
    LuOutside(B4, B, T, o + h, h);
    OutsideAll(A, B1, B2, B3, B4, B, o, h);
    IsLuFrom(A, B, T, o, 2 * h);
  }

  // ---------------------------------------------------------------------------------------------
  // When there are factors
  // ---------------------------------------------------------------------------------------------

  ghost function MatOf(n: int, f: (int, int) -> real): (A: Mat)
    requires 0 <= n
    ensures forall i, j | 0 <= i < n && 0 <= j < n :: At(A, i, j) == f(i, j)
  {
    seq(n, i requires 0 <= i < n => seq(n, j requires 0 <= j < n => f(i, j)))
  }

  ghost function Eliminated(A: Mat, o: int, i: int, j: int): real
    requires At(A, o, o) != 0.0
  {
    if i > o && j > o then At(A, i, j) - Mul(At(A, i, o) / At(A, o, o), At(A, o, j)) else At(A, i, j)
  }

  /** One step of Gaussian elimination: row o is taken off the rows below it. */
  ghost function Eliminate(A: Mat, o: int, n: int): (B: Mat)
    requires 0 <= n && At(A, o, o) != 0.0
    ensures forall i, j | 0 <= i < n && 0 <= j < n :: At(B, i, j) == Eliminated(A, o, i, j)
  {
    MatOf(n, (i, j) => Eliminated(A, o, i, j))
  }

  /** Elimination from row o on meets no zero pivot before the last row. */
  ghost predicate NonZeroPivots(A: Mat, o: int, n: int)
    requires 0 <= n
    decreases n - o
  {
    o + 1 >= n || (At(A, o, o) != 0.0 && NonZeroPivots(Eliminate(A, o, n), o + 1, n))
  }

  /** The factors elimination finds: the multipliers below, what is left above the diagonal. */
  ghost function Factors(A: Mat, o: int, n: int): (T: Mat)
    requires 0 <= o && 0 <= n && NonZeroPivots(A, o, n)
    decreases n - o
  {
    if o + 1 >= n then A
    else
      var T' := Factors(Eliminate(A, o, n), o + 1, n);
      MatOf(n, (i, j) =>
        if i > o && j > o then At(T', i, j)
        else if i > o && j == o then At(A, i, o) / At(A, o, o)
        else At(A, i, j))
  }

  /** Two matrices that agree from o on have the same products there. */
  lemma ProductSame(T: Mat, T': Mat, o: int, n: int, i: int, j: int)
    requires o <= i < n && o <= j < n && forall k, l | o <= k < n && o <= l < n :: At(T, k, l) == At(T', k, l)
    ensures Product(T, o, i, j) == Product(T', o, i, j)
  {
    hide Mul;
    DotSame(T, T', i, o, T, T', o, j, if i <= j then i - o else j - o + 1);
  }

  lemma QuotientTimes(x: real, d: real)
    requires d != 0.0
    ensures Mul(x / d, d) == x
  {
  }

  lemma FirstRowProduct(T: Mat, o: int, j: int)
    requires o <= j
    ensures Product(T, o, o, j) == At(T, o, j)
    ensures o < j ==> Product(T, o, j, o) == Mul(At(T, j, o), At(T, o, o))
  {
    hide Mul;
    if o < j {
      assert Dot(T, j, o, T, o, o, 1) == Dot(T, j, o, T, o, o, 0) + Mul(At(T, j, o), At(T, o, o));
    }
  }

  lemma FactoredByStep(A: Mat, T: Mat, T': Mat, o: int, n: int, i: int, j: int)
    requires 0 <= o < n && o <= i < n && o <= j < n && At(A, o, o) != 0.0
    requires forall k, l | o + 1 <= k < n && o + 1 <= l < n :: At(T, k, l) == At(T', k, l)
    requires forall l | o <= l < n :: At(T, o, l) == At(A, o, l)
    requires forall k | o < k < n :: At(T, k, o) == At(A, k, o) / At(A, o, o)
    requires i > o && j > o ==> Eliminated(A, o, i, j) == Product(T', o + 1, i, j)
    ensures FactoredAt(A, T, o, i, j)
  {
    hide Mul;
    assert At(T, o, o) == At(A, o, o);
    if i > o && j > o {
      ProductPeels(T, o, i, j);
      ProductSame(T, T', o + 1, n, i, j);
    } else if i > o {
      FirstRowProduct(T, o, i);
      QuotientTimes(At(A, i, o), At(A, o, o));
    } else {
      FirstRowProduct(T, o, j);
    }
  }

  /** Without a zero pivot elimination finds factors whose pivots are not zero. */
  lemma {:induction false} FactorsAreFactors(A: Mat, o: int, n: int)
    requires 0 <= o <= n && NonZeroPivots(A, o, n)
    ensures Factored(A, Factors(A, o, n), o, n - o) && Pivots(Factors(A, o, n), o, n - o)
    decreases n - o
  {
    var T := Factors(A, o, n);
    if o + 1 >= n {
      forall i, j | Inside(i, j, o, o, n - o, n - o) ensures FactoredAt(A, T, o, i, j) {
        FirstRowProduct(T, o, j);
      }
    } else {
      var B := Eliminate(A, o, n);
      FactorsAreFactors(B, o + 1, n);
      var T' := Factors(B, o + 1, n);
      forall i, j | Inside(i, j, o, o, n - o, n - o) ensures FactoredAt(A, T, o, i, j) {
        if i > o && j > o {
          assert FactoredAt(B, T', o + 1, i, j);
        }
        FactoredByStep(A, T, T', o, n, i, j);
      }
    }
  }

  /** A matrix that has factors without a zero pivot is never eliminated with a zero pivot. */
  lemma {:induction false} FactorsMeanPivots(A: Mat, T: Mat, o: int, n: int)
    requires 0 <= o <= n && Factored(A, T, o, n - o) && Pivots(T, o, n - o)
    ensures NonZeroPivots(A, o, n)
    decreases n - o
  {
    if o + 1 < n {
      assert FactoredAt(A, T, o, o, o);
      FirstRowProduct(T, o, o);
      assert At(A, o, o) == At(T, o, o) != 0.0;
      var B := Eliminate(A, o, n);
      var o' := o + 1;
      forall i, j | Inside(i, j, o', o', n - o', n - o') ensures FactoredAt(B, T, o', i, j) {
        EliminatedIsProduct(A, T, o, n, i, j);
      }
      FactorsMeanPivots(B, T, o', n);
    }
  }

  lemma EliminatedIsProduct(A: Mat, T: Mat, o: int, n: int, i: int, j: int)
    requires 0 <= o < i < n && o < j < n && Factored(A, T, o, n - o) && At(A, o, o) == At(T, o, o) != 0.0
    ensures Eliminated(A, o, i, j) == Product(T, o + 1, i, j)
  {
    assert FactoredAt(A, T, o, i, j) && FactoredAt(A, T, o, i, o) && FactoredAt(A, T, o, o, j);
    hide Mul;
    FirstRowProduct(T, o, i);
    FirstRowProduct(T, o, j);
    ProductPeels(T, o, i, j);
    QuotientTimes(At(A, i, o), At(A, o, o));
    Cancels(At(A, i, o) / At(A, o, o), At(T, i, o), At(A, o, o));
  }

  /** Gaussian elimination meets no zero pivot exactly when the matrix has factors without a zero pivot. */
  lemma PivotsExactly(A: Mat, n: int)
    requires 0 <= n
    ensures NonZeroPivots(A, 0, n) <==> exists T :: Factored(A, T, 0, n) && Pivots(T, 0, n)
  {
    if NonZeroPivots(A, 0, n) {
      FactorsAreFactors(A, 0, n);
      assert Factored(A, Factors(A, 0, n), 0, n) && Pivots(Factors(A, 0, n), 0, n);
    }
    forall T | Factored(A, T, 0, n) && Pivots(T, 0, n) ensures NonZeroPivots(A, 0, n) {
      FactorsMeanPivots(A, T, 0, n);
    }
  }

  lemma FactorsInPlace(A: Mat, B: Mat, T: Mat, n: int)
    requires 0 <= n && Factored(A, T, 0, n) && IsLu(A, B, T, 0, n)
    ensures Factored(A, B, 0, n)
  {
    forall i, j | Inside(i, j, 0, 0, n, n) ensures FactoredAt(A, B, 0, i, j) {
      assert FactoredAt(A, T, 0, i, j);
      forall k, l | 0 <= k < n && 0 <= l < n ensures At(T, k, l) == At(B, k, l) {
        assert Inside(k, l, 0, 0, n, n);
      }
      ProductSame(T, B, 0, n, i, j);
    }
  }

  /** lu on a whole matrix: if elimination meets no zero pivot, the matrix is left with a unit lower
      and an upper triangle whose product is the matrix that was there. */
  method LuDecompose(M: array2<real>, nb: int)
    requires PowerOfTwo(nb) && M.Length0 == M.Length1 == Elems(nb)
    requires NonZeroPivots(Snap(M), 0, M.Length0)
    modifies M
    ensures Factored(old(Snap(M)), Snap(M), 0, M.Length0)
  {
    hide *;
    ghost var A, n := Snap(M), M.Length0;
    FactorsAreFactors(A, 0, n);
    LuWhole(M, nb, Factors(A, 0, n));
  }

  method LuWhole(M: array2<real>, nb: int, ghost T: Mat)
    requires PowerOfTwo(nb) && M.Length0 == M.Length1 == Elems(nb)
    requires Factored(Snap(M), T, 0, M.Length0 - 0) && Pivots(T, 0, M.Length0 - 0)
    modifies M
    ensures Factored(old(Snap(M)), Snap(M), 0, M.Length0)
  {
    hide Factored, Pivots, IsLu, Snap;
    ghost var A, n := Snap(M), M.Length0;
    LuFactor(M, 0, nb, T);
    FactorsInPlace(A, Snap(M), T, n);
  }

  // ---------------------------------------------------------------------------------------------
  // Spawned calls
  // ---------------------------------------------------------------------------------------------

  datatype Block = Block(r: int, c: int, n: int, m: int)

  /** The calls that are spawned, by the places of the blocks that they work on. */
  datatype Spawned =
    | SchurCall(mr: int, mc: int, vr: int, vc: int, wr: int, wc: int, n: int)
    | LowerCall(r: int, c: int, lr: int, lc: int, n: int, m: int)
    | UpperCall(r: int, c: int, ur: int, uc: int, n: int, m: int)

  /** The block that a call writes. */
  function Target(u: Spawned): Block {
    match u
    case SchurCall(mr, mc, _, _, _, _, n) => Block(mr, mc, n, n)
    case LowerCall(r, c, _, _, n, m) => Block(r, c, n, m)
    case UpperCall(r, c, _, _, n, m) => Block(r, c, n, m)
  }

  /** Blocks that it reads; a triangular solve takes the side of its triangle. */
  function Sources(u: Spawned): seq<Block> {
    match u
    case SchurCall(_, _, vr, vc, wr, wc, n) => [Block(vr, vc, n, n), Block(wr, wc, n, n)]
    case LowerCall(_, _, lr, lc, n, _) => [Block(lr, lc, n, n)]
    case UpperCall(_, _, ur, uc, _, m) => [Block(ur, uc, m, m)]
  }

  ghost predicate NonZeroAt(A: Mat, ur: int, uc: int, k: int) {
    At(A, ur + k, uc + k) != 0.0
  }

  /** What a call does to the matrix. */
  ghost predicate Does(A: Mat, B: Mat, u: Spawned) {
    match u
    case SchurCall(mr, mc, vr, vc, wr, wc, n) => IsSchur(A, B, mr, mc, vr, vc, wr, wc, n)
    case LowerCall(r, c, lr, lc, n, m) => IsLower(A, B, r, c, lr, lc, n, m)
    case UpperCall(r, c, ur, uc, n, m) =>
      IsUpper(A, B, r, c, ur, uc, n, m) && (forall k | 0 <= k < m :: NonZeroAt(A, ur, uc, k))
  }

  predicate Covers(b: Block, i: int, j: int) {
    Inside(i, j, b.r, b.c, b.n, b.m)
  }

  ghost predicate SameOn(A: Mat, B: Mat, b: Block) {
    forall i, j | Covers(b, i, j) :: At(A, i, j) == At(B, i, j)
  }

  predicate Disjoint(b: Block, d: Block) {
    b.r + b.n <= d.r || d.r + d.n <= b.r || b.c + b.m <= d.c || d.c + d.m <= b.c
  }

  /** The call u reads and writes nothing that v writes. */
  predicate Ignores(u: Spawned, v: Spawned) {
    Disjoint(Target(u), Target(v)) && forall b | b in Sources(u) :: Disjoint(b, Target(v))
  }

  ghost predicate SameInputs(A: Mat, A': Mat, u: Spawned) {
    SameOn(A, A', Target(u)) && forall b | b in Sources(u) :: SameOn(A, A', b)
  }

  lemma SchurDetermined(A: Mat, B: Mat, A': Mat, B': Mat, u: Spawned, i: int, j: int)
    requires u.SchurCall? && Does(A, B, u) && Does(A', B', u) && SameInputs(A, A', u) && Covers(Target(u), i, j)
    ensures At(B, i, j) == At(B', i, j)
  {
    hide Dot, At;
    var v, w := Block(u.vr, u.vc, u.n, u.n), Block(u.wr, u.wc, u.n, u.n);
    assert v in Sources(u) && w in Sources(u);
    RowOfBlock(A, A', v, u.vr + i - u.mr);
    ColOfBlock(A, A', w, u.wc + j - u.mc);
    DotSame(A, A', u.vr + i - u.mr, u.vc, A, A', u.wr, u.wc + j - u.mc, u.n);
  }

  lemma RowOfBlock(A: Mat, A': Mat, b: Block, i: int)
    requires SameOn(A, A', b) && b.r <= i < b.r + b.n
    ensures forall k | b.c <= k < b.c + b.m :: At(A, i, k) == At(A', i, k)
  {
    forall k | b.c <= k < b.c + b.m ensures At(A, i, k) == At(A', i, k) {
      assert Covers(b, i, k);
    }
  }

  lemma ColOfBlock(A: Mat, A': Mat, b: Block, j: int)
    requires SameOn(A, A', b) && b.c <= j < b.c + b.m
    ensures forall k | b.r <= k < b.r + b.n :: At(A, k, j) == At(A', k, j)
  {
    forall k | b.r <= k < b.r + b.n ensures At(A, k, j) == At(A', k, j) {
      assert Covers(b, k, j);
    }
  }

  lemma LowerDeterminedNext(A: Mat, B: Mat, A': Mat, B': Mat, u: Spawned, i: int, j: int)
    requires u.LowerCall? && Does(A, B, u) && Does(A', B', u) && SameInputs(A, A', u) && Covers(Target(u), i, j)
    requires forall k | u.r <= k < u.r + (i - u.r) :: At(B, k, j) == At(B', k, j)
    ensures At(B, i, j) == At(B', i, j)
  {
    hide Dot, At;
    var l := Block(u.lr, u.lc, u.n, u.n);
    assert l in Sources(u);
    RowOfBlock(A, A', l, u.lr + i - u.r);
    DotSame(A, A', u.lr + i - u.r, u.lc, B, B', u.r, j, i - u.r);
    assert LowerAt(A, B, u.r, u.lr, u.lc, i, j, i - u.r) && LowerAt(A', B', u.r, u.lr, u.lc, i, j, i - u.r);
  }

  /** Forward substitution has one solution: row by row. */
  lemma {:induction false} LowerDetermined(A: Mat, B: Mat, A': Mat, B': Mat, u: Spawned, i: int, j: int)
    requires u.LowerCall? && Does(A, B, u) && Does(A', B', u) && SameInputs(A, A', u) && Covers(Target(u), i, j)
    ensures At(B, i, j) == At(B', i, j)
    decreases i - u.r
  {
    hide Does, SameInputs, At;
    forall k | u.r <= k < u.r + (i - u.r) ensures At(B, k, j) == At(B', k, j) {
      LowerDetermined(A, B, A', B', u, k, j);
    }
    LowerDeterminedNext(A, B, A', B', u, i, j);
  }

  /** So has back substitution with a diagonal without zeros: column by column. */
  lemma {:induction false} UpperDetermined(A: Mat, B: Mat, A': Mat, B': Mat, u: Spawned, i: int, j: int)
    requires u.UpperCall? && Does(A, B, u) && Does(A', B', u) && SameInputs(A, A', u) && Covers(Target(u), i, j)
    ensures At(B, i, j) == At(B', i, j)
    decreases j - u.c
  {
    forall k | u.c <= k < u.c + (j - u.c) ensures At(B, i, k) == At(B', i, k) {
      UpperDetermined(A, B, A', B', u, i, k);
    }
    hide Dot, At, Mul;
    var d := Block(u.ur, u.uc, u.m, u.m);
    assert d in Sources(u);
    ColOfBlock(A, A', d, u.uc + j - u.c);
    DotSame(B, B', i, u.c, A, A', u.ur, u.uc + j - u.c, j - u.c);
    assert UpperAt(A, B, u.c, u.ur, u.uc, i, j, u.m) && UpperAt(A', B', u.c, u.ur, u.uc, i, j, u.m);
    assert NonZeroAt(A, u.ur, u.uc, j - u.c);
    hide SameOn, IsUpper;
    SolvedOnce(A, B, A', B', u.c, u.ur, u.uc, i, j, u.m);
  }

  lemma SolvedOnce(A: Mat, B: Mat, A': Mat, B': Mat, c: int, ur: int, uc: int, i: int, j: int, m: int)
    requires c <= j < c + m && UpperAt(A, B, c, ur, uc, i, j, m) && UpperAt(A', B', c, ur, uc, i, j, m)
    requires Dot(B, i, c, A, ur, uc + j - c, j - c) == Dot(B', i, c, A', ur, uc + j - c, j - c)
    requires NonZeroAt(A, ur, uc, j - c) && At(A', ur + (j - c), uc + (j - c)) == At(A, ur + (j - c), uc + (j - c))
    requires At(A, i, j) == At(A', i, j)
    ensures At(B, i, j) == At(B', i, j)
  {
    hide Dot, At, Mul;
    MulCancels(At(B, i, j), At(B', i, j), At(A, ur + j - c, uc + j - c));
  }

  lemma MulCancels(x: real, y: real, d: real)
    requires d != 0.0 && Mul(x, d) == Mul(y, d)
    ensures x == y
  {
    assert (x - y) * d == 0.0;
  }

  /** The result of a call on its block depends on nothing but what it reads. */
  lemma Determined(A: Mat, B: Mat, A': Mat, B': Mat, u: Spawned)
    requires Does(A, B, u) && Does(A', B', u) && SameInputs(A, A', u)
    ensures SameOn(B, B', Target(u))
  {
    hide Does, SameInputs, At;
    forall i, j | Covers(Target(u), i, j) ensures At(B, i, j) == At(B', i, j) {
      match u
      case SchurCall(_, _, _, _, _, _, _) => SchurDetermined(A, B, A', B', u, i, j);
      case LowerCall(_, _, _, _, _, _) => LowerDetermined(A, B, A', B', u, i, j);
      case UpperCall(_, _, _, _, _, _) => UpperDetermined(A, B, A', B', u, i, j);
    }
  }

  lemma ElsewhereKept(A: Mat, B: Mat, v: Spawned, b: Block)
    requires Does(A, B, v) && Disjoint(b, Target(v))
    ensures SameOn(A, B, b)
  {
    hide At, Dot, LowerAt, UpperAt;
  }

  lemma InputsKept(A: Mat, B: Mat, u: Spawned, v: Spawned)
    requires Does(A, B, v) && Ignores(u, v)
    ensures SameInputs(A, B, u)
  {
    hide Does, SameOn, Disjoint;
    ElsewhereKept(A, B, v, Target(u));
    forall b | b in Sources(u) ensures SameOn(A, B, b) {
      ElsewhereKept(A, B, v, b);
    }
  }

  lemma OutsideTarget(A: Mat, B: Mat, v: Spawned, i: int, j: int)
    requires Does(A, B, v) && !Covers(Target(v), i, j)
    ensures At(A, i, j) == At(B, i, j)
  {
    hide At, Dot, LowerAt, UpperAt;
  }

  /** Two calls that are spawned together, of whatever kind, do not read what the other writes, so their order does not
      matter. */
  lemma SpawnedCallsCommute(A: Mat, B: Mat, C: Mat, B': Mat, C': Mat, u: Spawned, v: Spawned)
    requires Does(A, B, u) && Does(B, C, v) && Does(A, B', v) && Does(B', C', u)
    requires Ignores(u, v) && Ignores(v, u)
    ensures forall i, j :: At(C, i, j) == At(C', i, j)
  {
    hide Does, At, Ignores, SameInputs;
    InputsKept(A, B', u, v);
    InputsKept(A, B, v, u);
    Determined(A, B, B', C', u);
    Determined(A, B', B, C, v);
    TargetsApart(u, v);
    forall i, j ensures At(C, i, j) == At(C', i, j) {
      if Covers(Target(u), i, j) {
        OutsideTarget(B, C, v, i, j);
      } else if Covers(Target(v), i, j) {
        OutsideTarget(B', C', u, i, j);
      } else {
        OutsideTarget(A, B, u, i, j);
        OutsideTarget(B, C, v, i, j);
        OutsideTarget(A, B', v, i, j);
        OutsideTarget(B', C', u, i, j);
      }
    }
  }

  lemma TargetsApart(u: Spawned, v: Spawned)
    requires Ignores(u, v)
    ensures forall i, j | Covers(Target(u), i, j) :: !Covers(Target(v), i, j)
  {
  }
}
