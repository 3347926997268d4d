/** Matrices of real numbers: what an array of two dimensions holds, submatrices, and products. */
module Matrices {

  type Mat = seq<seq<real>>

  ghost function At(A: Mat, i: int, j: int): real {
    if 0 <= i < |A| && 0 <= j < |A[i]| then A[i][j] else 0.0
  }

  /** The contents of a matrix. */
  ghost function Snap(M: array2<real>): (A: Mat)
    reads M
    ensures forall i, j | 0 <= i < M.Length0 && 0 <= j < M.Length1 :: At(A, i, j) == M[i, j]
    ensures forall i, j | !(0 <= i < M.Length0 && 0 <= j < M.Length1) :: At(A, i, j) == 0.0
  {
    seq(M.Length0, i requires 0 <= i < M.Length0 reads M =>
      seq(M.Length1, j requires 0 <= j < M.Length1 reads M => M[i, j]))
  }

  /** Multiplication, set apart so that proofs can treat a product as one number. */
  function Mul(x: real, y: real): real {
    x * y
  }

  /** Row i of A from column c, times column j of B from row r: n terms. */
  ghost function Dot(A: Mat, i: int, c: int, B: Mat, r: int, j: int, n: int): real
    decreases n
  {
    if n <= 0 then 0.0 else Dot(A, i, c, B, r, j, n - 1) + Mul(At(A, i, c + n - 1), At(B, r + n - 1, j))
  }

  lemma DotNext(A: Mat, i: int, c: int, B: Mat, r: int, j: int, n: int)
    requires 0 <= n
    ensures Dot(A, i, c, B, r, j, n + 1) == Dot(A, i, c, B, r, j, n) + Mul(At(A, i, c + n), At(B, r + n, j))
  {
  }

  lemma {:induction false} DotSplits(A: Mat, i: int, c: int, B: Mat, r: int, j: int, h: int, n: int)
    requires 0 <= h <= n
    ensures Dot(A, i, c, B, r, j, n) == Dot(A, i, c, B, r, j, h) + Dot(A, i, c + h, B, r + h, j, n - h)
    decreases n - h
  {
    hide Mul;
    if h < n {
      DotSplits(A, i, c, B, r, j, h, n - 1);
      assert c + h + (n - h) - 1 == c + n - 1 && r + h + (n - h) - 1 == r + n - 1;
    }
  }

  lemma {:induction false} DotSame(A: Mat, A': Mat, i: int, c: int, B: Mat, B': Mat, r: int, j: int, n: int)
    requires forall k | c <= k < c + n :: At(A, i, k) == At(A', i, k)
    requires forall k | r <= k < r + n :: At(B, k, j) == At(B', k, j)
    ensures Dot(A, i, c, B, r, j, n) == Dot(A', i, c, B', r, j, n)
    decreases n
  {
    hide Mul;
    if n > 0 {
      DotSame(A, A', i, c, B, B', r, j, n - 1);
      assert At(A, i, c + n - 1) == At(A', i, c + n - 1);
      assert At(B, r + n - 1, j) == At(B', r + n - 1, j);
    }
  }

  predicate Inside(i: int, j: int, r: int, c: int, n: int, m: int) {
    r <= i < r + n && c <= j < c + m
  }

  /** B is A outside the n by m submatrix at (r, c). */
  ghost predicate Outside(A: Mat, B: Mat, r: int, c: int, n: int, m: int) {
    forall i, j | !Inside(i, j, r, c, n, m) :: At(B, i, j) == At(A, i, j)
  }

  predicate Fits(M: array2<real>, r: int, c: int, n: int) {
    0 <= r && r + n <= M.Length0 && 0 <= c && c + n <= M.Length1 && 0 <= n
  }

  ghost predicate RowSame(A: Mat, B: Mat, i: int, c: int, n: int) {
    forall k | c <= k < c + n :: At(A, i, k) == At(B, i, k)
  }

  ghost predicate ColSame(A: Mat, B: Mat, r: int, j: int, n: int) {
    forall k | r <= k < r + n :: At(A, k, j) == At(B, k, j)
  }

  lemma RowsOutside(A: Mat, B: Mat, r: int, c: int, n: int, m: int, i: int, c': int, n': int)
    requires Outside(A, B, r, c, n, m) && (i < r || r + n <= i || c' + n' <= c || c + m <= c')
    ensures RowSame(A, B, i, c', n')
  {
  }

  lemma ColsOutside(A: Mat, B: Mat, r: int, c: int, n: int, m: int, r': int, j: int, n': int)
    requires Outside(A, B, r, c, n, m) && (j < c || c + m <= j || r' + n' <= r || r + n <= r')
    ensures ColSame(A, B, r', j, n')
  {
  }

  lemma SameThen(A: Mat, B: Mat, C: Mat, i: int, c: int, n: int)
    ensures RowSame(A, B, i, c, n) && RowSame(B, C, i, c, n) ==> RowSame(A, C, i, c, n)
    ensures ColSame(A, B, c, i, n) && ColSame(B, C, c, i, n) ==> ColSame(A, C, c, i, n)
  {
  }

  /** Where the first or the second half begins. */
  function Off(a: int, h: int): int {
    if a == 0 then 0 else h
  }
}
