/** Matrix multiplication, up to Strassen's method. */
module Strassen {
  // All in exact arithmetic: the naive product, the two unrolled kernels, divide and conquer, and Strassen's method in
  // Winograd's form. A matrix in memory with a row width is a submatrix of an array of two dimensions whose second
  // length is that width.

  import opened Matrices

  const SIZE_AT_WHICH_DIVIDE_AND_CONQUER_IS_MORE_EFFICIENT := 64
  const SIZE_AT_WHICH_NAIVE_ALGORITHM_IS_MORE_EFFICIENT := 16

  // ---------------------------------------------------------------------------------------------
  // What a multiplication promises
  // ---------------------------------------------------------------------------------------------

  /** Three square submatrices of the same size: the product of the last two goes to the first. */
  datatype Job = Job(rc: int, cc: int, A: Mat, ra: int, ca: int, B: Mat, rb: int, cb: int, n: int)

  /** The element of the product that belongs to (i, j) of the destination. */
  ghost function Element(w: Job, i: int, j: int): real {
    Dot(w.A, w.ra + i - w.rc, w.ca, w.B, w.rb, w.cb + j - w.cc, w.n)
  }

  ghost predicate ElementAt(C: Mat, D: Mat, w: Job, add: bool, i: int, j: int) {
    At(D, i, j) == (if add then At(C, i, j) else 0.0) + Element(w, i, j)
  }

  /** D is C with C = A x B, or C += A x B if add is set. */
  ghost predicate IsProduct(C: Mat, D: Mat, w: Job, add: bool) {
    && Outside(C, D, w.rc, w.cc, w.n, w.n)
    && forall i, j | Inside(i, j, w.rc, w.cc, w.n, w.n) :: ElementAt(C, D, w, add, i, j)
  }

  /** Only the rows before v, and of row v the columns before h, are done. */
  ghost predicate ProductPart(C: Mat, D: Mat, w: Job, add: bool, v: int, h: int) {
    && Outside(C, D, w.rc, w.cc, w.n, w.n)
    && forall i, j | Inside(i, j, w.rc, w.cc, w.n, w.n) ::
         if i < w.rc + v || (i == w.rc + v && j < w.cc + h) then ElementAt(C, D, w, add, i, j)
         else At(D, i, j) == At(C, i, j)
  }

  lemma ProductStart(C: Mat, w: Job, add: bool)
    ensures ProductPart(C, C, w, add, 0, 0)
  {
  }

  lemma ProductRow(C: Mat, D: Mat, w: Job, add: bool, v: int)
    requires ProductPart(C, D, w, add, v, w.n)
    ensures ProductPart(C, D, w, add, v + 1, 0)
  {
  }

  lemma ProductEnds(C: Mat, D: Mat, w: Job, add: bool)
    requires ProductPart(C, D, w, add, w.n, 0)
    ensures IsProduct(C, D, w, add)
  {
  }

  /** Row v has got m more elements. */
  lemma ProductStep(C: Mat, D: Mat, E: Mat, w: Job, add: bool, v: int, h: int, m: int)
    requires ProductPart(C, D, w, add, v, h) && 0 <= v < w.n && 0 <= h <= h + m <= w.n
    requires forall i, j | !(i == w.rc + v && w.cc + h <= j < w.cc + h + m) :: At(E, i, j) == At(D, i, j)
    requires forall i, j | i == w.rc + v && w.cc + h <= j < w.cc + h + m :: ElementAt(C, E, w, add, i, j)
    ensures ProductPart(C, E, w, add, v, h + m)
  {
    hide Element;
  }

  lemma ElementDone(C: Mat, D: Mat, w: Job, add: bool, i: int, j: int)
    requires At(D, i, j) == (if add then At(C, i, j) else 0.0) +
      Dot(w.A, w.ra + i - w.rc, w.ca, w.B, w.rb, w.cb + j - w.cc, w.n)
    ensures ElementAt(C, D, w, add, i, j)
  {
  }

  ghost predicate Sized(C: array2<real>, A: array2<real>, B: array2<real>, w: Job)
    reads A, B
  {
    && C != A && C != B && w.A == Snap(A) && w.B == Snap(B)
    && Fits(C, w.rc, w.cc, w.n) && Fits(A, w.ra, w.ca, w.n) && Fits(B, w.rb, w.cb, w.n)
  }

  /** matrixmul, the specification: n by n sums of n products. */
  method MatrixMul(C: array2<real>, rc: int, cc: int, A: array2<real>, ra: int, ca: int, B: array2<real>, rb: int,
                   cb: int, n: int, ghost w: Job)
    requires w == Job(rc, cc, w.A, ra, ca, w.B, rb, cb, n) && Sized(C, A, B, w)
    modifies C
    ensures IsProduct(old(Snap(C)), Snap(C), w, false)
  {
    ghost var C0 := Snap(C);
    hide ProductPart, Mul, IsProduct, ElementAt, Dot;
    ProductStart(C0, w, false);
    for i := 0 to n
      invariant ProductPart(C0, Snap(C), w, false, i, 0) && Sized(C, A, B, w)
    {
      for j := 0 to n
        invariant ProductPart(C0, Snap(C), w, false, i, j) && Sized(C, A, B, w)
      {
        ghost var D := Snap(C);
        var s := InnerProduct(A, ra + i, ca, B, rb, cb + j, n);
        C[rc + i, cc + j] := s;
        ElementDone(C0, Snap(C), w, false, rc + i, cc + j);
        ProductStep(C0, D, Snap(C), w, false, i, j, 1);
      }
      ProductRow(C0, Snap(C), w, false, i);
    }
    ProductEnds(C0, Snap(C), w, false);
  }

  method InnerProduct(A: array2<real>, i: int, c: int, B: array2<real>, r: int, j: int, n: int) returns (s: real)
    requires 0 <= n && 0 <= i < A.Length0 && 0 <= c && c + n <= A.Length1
    requires 0 <= j < B.Length1 && 0 <= r && r + n <= B.Length0
    ensures s == Dot(Snap(A), i, c, Snap(B), r, j, n)
  {
    s := 0.0;
    for k := 0 to n
      invariant s == Dot(Snap(A), i, c, Snap(B), r, j, k)
    {
      s := s + A[i, c + k] * B[r + k, j];
    }
  }

  // ---------------------------------------------------------------------------------------------
  // The unrolled kernels
  // ---------------------------------------------------------------------------------------------

  /** The eight running sums of the kernels after k products, with what they started from. */
  ghost predicate EightSums(s0: real, s1: real, s2: real, s3: real, s4: real, s5: real, s6: real, s7: real,
                            C: Mat, w: Job, add: bool, i: int, j: int, k: int) {
    && s0 == Running(C, w, add, i, j, k) && s1 == Running(C, w, add, i, j + 1, k)
    && s2 == Running(C, w, add, i, j + 2, k) && s3 == Running(C, w, add, i, j + 3, k)
    && s4 == Running(C, w, add, i, j + 4, k) && s5 == Running(C, w, add, i, j + 5, k)
    && s6 == Running(C, w, add, i, j + 6, k) && s7 == Running(C, w, add, i, j + 7, k)
  }

  ghost function Running(C: Mat, w: Job, add: bool, i: int, j: int, k: int): real {
    (if add then At(C, i, j) else 0.0) + Dot(w.A, w.ra + i - w.rc, w.ca, w.B, w.rb, w.cb + j - w.cc, k)
  }

  lemma RunningStep(C: Mat, w: Job, add: bool, i: int, j: int, k: int, x: real, y: real)
    requires 0 <= k && x == At(w.A, w.ra + i - w.rc, w.ca + k) && y == At(w.B, w.rb + k, w.cb + j - w.cc)
    ensures Running(C, w, add, i, j, k + 1) == Running(C, w, add, i, j, k) + x * y
  {
  }

  /** The inner loop of a kernel, from the k-th product on. */
  method Products(A: array2<real>, B: array2<real>, k0: int, t0: real, t1: real, t2: real, t3: real, t4: real,
                  t5: real, t6: real, t7: real, ghost C: Mat, ghost w: Job, ghost add: bool, row: int, b: int,
                  ra: int, ca: int, rb: int, cb: int, n: int)
    returns (s0: real, s1: real, s2: real, s3: real, s4: real, s5: real, s6: real, s7: real)
    requires w == Job(w.rc, w.cc, Snap(A), ra, ca, Snap(B), rb, cb, n) && Fits(A, ra, ca, n) && Fits(B, rb, cb, n)
    requires 0 <= row < n && 0 <= b && b + 8 <= n && 0 <= k0 <= n
    requires EightSums(t0, t1, t2, t3, t4, t5, t6, t7, C, w, add, w.rc + row, w.cc + b, k0)
    ensures EightSums(s0, s1, s2, s3, s4, s5, s6, s7, C, w, add, w.rc + row, w.cc + b, n)
  {
    s0, s1, s2, s3, s4, s5, s6, s7 := t0, t1, t2, t3, t4, t5, t6, t7;
    ghost var i, j := w.rc + row, w.cc + b;
    hide Running;
    for k := k0 to n
      invariant EightSums(s0, s1, s2, s3, s4, s5, s6, s7, C, w, add, i, j, k)
    {
      var x := A[ra + row, ca + k];
      RunningStep(C, w, add, i, j, k, x, B[rb + k, cb + b]);
      RunningStep(C, w, add, i, j + 1, k, x, B[rb + k, cb + b + 1]);
      RunningStep(C, w, add, i, j + 2, k, x, B[rb + k, cb + b + 2]);
      RunningStep(C, w, add, i, j + 3, k, x, B[rb + k, cb + b + 3]);
      RunningStep(C, w, add, i, j + 4, k, x, B[rb + k, cb + b + 4]);
      RunningStep(C, w, add, i, j + 5, k, x, B[rb + k, cb + b + 5]);
      RunningStep(C, w, add, i, j + 6, k, x, B[rb + k, cb + b + 6]);
      RunningStep(C, w, add, i, j + 7, k, x, B[rb + k, cb + b + 7]);
      s0 := s0 + x * B[rb + k, cb + b];
      s1 := s1 + x * B[rb + k, cb + b + 1];
      s2 := s2 + x * B[rb + k, cb + b + 2];
      s3 := s3 + x * B[rb + k, cb + b + 3];
      s4 := s4 + x * B[rb + k, cb + b + 4];
      s5 := s5 + x * B[rb + k, cb + b + 5];
      s6 := s6 + x * B[rb + k, cb + b + 6];
      s7 := s7 + x * B[rb + k, cb + b + 7];
    }
  }

  method Put(C: array2<real>, i: int, j: int, s: real, ghost C0: Mat, ghost w: Job, ghost add: bool, ghost v: int,
             ghost h: int)
    requires 0 <= v < w.n && 0 <= h < w.n && i == w.rc + v && j == w.cc + h && Fits(C, w.rc, w.cc, w.n)
    requires s == Running(C0, w, add, i, j, w.n) && ProductPart(C0, Snap(C), w, add, v, h)
    modifies C
    ensures ProductPart(C0, Snap(C), w, add, v, h + 1)
  {
    hide ProductPart, Dot, ElementAt;
    ghost var D := Snap(C);
    C[i, j] := s;
    ElementDone(C0, Snap(C), w, add, i, j);
    ProductStep(C0, D, Snap(C), w, add, v, h, 1);
  }

  /** The eight sums of a kernel go to their places. */
  method Put8(C: array2<real>, i: int, j: int, s0: real, s1: real, s2: real, s3: real, s4: real, s5: real, s6: real,
              s7: real, ghost C0: Mat, ghost w: Job, ghost add: bool, ghost v: int, ghost h: int)
    requires 0 <= v < w.n && 0 <= h && h + 8 <= w.n && i == w.rc + v && j == w.cc + h && Fits(C, w.rc, w.cc, w.n)
    requires EightSums(s0, s1, s2, s3, s4, s5, s6, s7, C0, w, add, i, j, w.n)
    requires ProductPart(C0, Snap(C), w, add, v, h)
    modifies C
    ensures ProductPart(C0, Snap(C), w, add, v, h + 8)
  {
    hide ProductPart, Running, Snap;
    Put(C, i, j, s0, C0, w, add, v, h);
    Put(C, i, j + 1, s1, C0, w, add, v, h + 1);
    Put(C, i, j + 2, s2, C0, w, add, v, h + 2);
    Put(C, i, j + 3, s3, C0, w, add, v, h + 3);
    Put(C, i, j + 4, s4, C0, w, add, v, h + 4);
    Put(C, i, j + 5, s5, C0, w, add, v, h + 5);
    Put(C, i, j + 6, s6, C0, w, add, v, h + 6);
    Put(C, i, j + 7, s7, C0, w, add, v, h + 7);
  }

  /** What the additive kernel starts its sums from. */
  lemma SumStarts(C0: Mat, D: Mat, w: Job, v: int, h: int, i: int, j: int)
    requires ProductPart(C0, D, w, true, v, h) && 0 <= v < w.n && i == w.rc + v && w.cc + h <= j < w.cc + w.n && 0 <= h
    ensures At(D, i, j) == Running(C0, w, true, i, j, 0)
  {
    assert Inside(i, j, w.rc, w.cc, w.n, w.n);
  }

  /** FastNaiveMatrixMultiply: C = A x B */
  method FastNaive(C: array2<real>, rc: int, cc: int, A: array2<real>, ra: int, ca: int, B: array2<real>, rb: int,
                   cb: int, n: int, ghost w: Job)
    requires w == Job(rc, cc, w.A, ra, ca, w.B, rb, cb, n) && Sized(C, A, B, w) && n % 8 == 0
    modifies C
    ensures IsProduct(old(Snap(C)), Snap(C), w, false)
  {
    hide ProductPart, Mul, IsProduct, Running, Dot, Snap;
    ghost var C0 := Snap(C);
    ProductStart(C0, w, false);
    for v := 0 to n
      invariant ProductPart(C0, Snap(C), w, false, v, 0) && Sized(C, A, B, w)
    {
      var h := 0;
      while h < n
        invariant 0 <= h <= n && h % 8 == 0
        invariant ProductPart(C0, Snap(C), w, false, v, h) && Sized(C, A, B, w)
      {
        NaiveEight(C, rc, cc, A, ra, ca, B, rb, cb, n, v, h, C0, w);
        h := h + 8;
      }
      ProductRow(C0, Snap(C), w, false, v);
    }
    ProductEnds(C0, Snap(C), w, false);
  }

  method NaiveEight(C: array2<real>, rc: int, cc: int, A: array2<real>, ra: int, ca: int, B: array2<real>, rb: int,
                    cb: int, n: int, v: int, h: int, ghost C0: Mat, ghost w: Job)
    requires w == Job(rc, cc, w.A, ra, ca, w.B, rb, cb, n) && Sized(C, A, B, w)
    requires 0 <= v < n && 0 <= h && h + 8 <= n && ProductPart(C0, Snap(C), w, false, v, h)
    modifies C
    ensures ProductPart(C0, Snap(C), w, false, v, h + 8)
  {
    hide ProductPart, Running, Dot;
    var x := A[ra + v, ca];
    ghost var i, j := rc + v, cc + h;
    FirstProduct(C0, w, i, j);
    FirstProduct(C0, w, i, j + 1);
    FirstProduct(C0, w, i, j + 2);
    FirstProduct(C0, w, i, j + 3);
    FirstProduct(C0, w, i, j + 4);
    FirstProduct(C0, w, i, j + 5);
    FirstProduct(C0, w, i, j + 6);
    FirstProduct(C0, w, i, j + 7);
    var s0, s1, s2, s3 := x * B[rb, cb + h], x * B[rb, cb + h + 1], x * B[rb, cb + h + 2], x * B[rb, cb + h + 3];
    var s4, s5, s6, s7 := x * B[rb, cb + h + 4], x * B[rb, cb + h + 5], x * B[rb, cb + h + 6], x * B[rb, cb + h + 7];
    s0, s1, s2, s3, s4, s5, s6, s7 :=
      Products(A, B, 1, s0, s1, s2, s3, s4, s5, s6, s7, C0, w, false, v, h, ra, ca, rb, cb, n);
    Put8(C, rc + v, cc + h, s0, s1, s2, s3, s4, s5, s6, s7, C0, w, false, v, h);
  }

  lemma FirstProduct(C: Mat, w: Job, i: int, j: int)
    ensures Running(C, w, false, i, j, 1) == At(w.A, w.ra + i - w.rc, w.ca) * At(w.B, w.rb, w.cb + j - w.cc)
  {
    RunningStep(C, w, false, i, j, 0, At(w.A, w.ra + i - w.rc, w.ca), At(w.B, w.rb, w.cb + j - w.cc));
  }

  /** FastAdditiveNaiveMatrixMultiply: C += A x B */
  method FastAdditive(C: array2<real>, rc: int, cc: int, A: array2<real>, ra: int, ca: int, B: array2<real>, rb: int,
                      cb: int, n: int, ghost w: Job)
    requires w == Job(rc, cc, w.A, ra, ca, w.B, rb, cb, n) && Sized(C, A, B, w) && n % 8 == 0
    modifies C
    ensures IsProduct(old(Snap(C)), Snap(C), w, true)
  {
    hide ProductPart, Mul, IsProduct, Running, Dot, Snap;
    ghost var C0 := Snap(C);
    ProductStart(C0, w, true);
    for v := 0 to n
      invariant ProductPart(C0, Snap(C), w, true, v, 0) && Sized(C, A, B, w)
    {
      var h := 0;
      while h < n
        invariant 0 <= h <= n && h % 8 == 0
        invariant ProductPart(C0, Snap(C), w, true, v, h) && Sized(C, A, B, w)
      {
        AdditiveEight(C, rc, cc, A, ra, ca, B, rb, cb, n, v, h, C0, w);
        h := h + 8;
      }
      ProductRow(C0, Snap(C), w, true, v);
    }
    ProductEnds(C0, Snap(C), w, true);
  }

  method AdditiveEight(C: array2<real>, rc: int, cc: int, A: array2<real>, ra: int, ca: int, B: array2<real>, rb: int,
                       cb: int, n: int, v: int, h: int, ghost C0: Mat, ghost w: Job)
    requires w == Job(rc, cc, w.A, ra, ca, w.B, rb, cb, n) && Sized(C, A, B, w)
    requires 0 <= v < n && 0 <= h && h + 8 <= n && ProductPart(C0, Snap(C), w, true, v, h)
    modifies C
    ensures ProductPart(C0, Snap(C), w, true, v, h + 8)
  {
    hide ProductPart, Running, Dot;
    ghost var i, j := rc + v, cc + h;
    SumStarts(C0, Snap(C), w, v, h, i, j);
    SumStarts(C0, Snap(C), w, v, h, i, j + 1);
    SumStarts(C0, Snap(C), w, v, h, i, j + 2);
    SumStarts(C0, Snap(C), w, v, h, i, j + 3);
    SumStarts(C0, Snap(C), w, v, h, i, j + 4);
    SumStarts(C0, Snap(C), w, v, h, i, j + 5);
    SumStarts(C0, Snap(C), w, v, h, i, j + 6);
    SumStarts(C0, Snap(C), w, v, h, i, j + 7);
    var c := cc + h;
    var s0, s1, s2, s3 := C[rc + v, c], C[rc + v, c + 1], C[rc + v, c + 2], C[rc + v, c + 3];
    var s4, s5, s6, s7 := C[rc + v, c + 4], C[rc + v, c + 5], C[rc + v, c + 6], C[rc + v, c + 7];
    s0, s1, s2, s3, s4, s5, s6, s7 :=
      Products(A, B, 0, s0, s1, s2, s3, s4, s5, s6, s7, C0, w, true, v, h, ra, ca, rb, cb, n);
    Put8(C, rc + v, cc + h, s0, s1, s2, s3, s4, s5, s6, s7, C0, w, true, v, h);
  }

  // ---------------------------------------------------------------------------------------------
  // Divide and conquer
  // ---------------------------------------------------------------------------------------------

  /** The sizes for which every kernel call gets a size it can unroll. */
  predicate KernelsFit(n: int) {
    n > 0 && n % 2 == 0
    && if n / 2 > SIZE_AT_WHICH_NAIVE_ALGORITHM_IS_MORE_EFFICIENT then KernelsFit(n / 2) else n / 2 % 8 == 0
  }

  function TimesPowerOfTwo(m: int, k: nat): int {
    if k == 0 then m else 2 * TimesPowerOfTwo(m, k - 1)
  }

  /** They are 16 times the powers of two: being divisible by 16 is not enough. */
  lemma KernelsFitExactly(n: int)
    ensures KernelsFit(n) <==> exists k: nat :: n == TimesPowerOfTwo(16, k)
  {
    if KernelsFit(n) {
      var k := FitsPower(n);
      assert n == TimesPowerOfTwo(16, k);
    }
    forall k: nat | n == TimesPowerOfTwo(16, k) ensures KernelsFit(n) {
      PowersFit(k);
    }
  }

  lemma {:induction false} FitsPower(n: int) returns (k: nat)
    requires KernelsFit(n)
    ensures n == TimesPowerOfTwo(16, k)
    decreases n
  {
    if n == 16 {
      k := 0;
    } else if n == 32 {
      assert TimesPowerOfTwo(16, 1) == 2 * TimesPowerOfTwo(16, 0);
      k := 1;
    } else {
      var k' := FitsPower(n / 2);
      assert TimesPowerOfTwo(16, k' + 1) == 2 * TimesPowerOfTwo(16, k');
      k := k' + 1;
    }
  }

  lemma {:induction false} PowersFit(k: nat)
    ensures TimesPowerOfTwo(16, k) >= 16 && (k > 0 ==> TimesPowerOfTwo(16, k) >= 32)
    ensures KernelsFit(TimesPowerOfTwo(16, k))
  {
    if k > 1 {
      PowersFit(k - 1);
      assert TimesPowerOfTwo(16, k) / 2 == TimesPowerOfTwo(16, k - 1);
    }
  }

  lemma FortyEightDoesNotFit()
    ensures 48 % 16 == 0 && !KernelsFit(48)
  {
    assert !KernelsFit(24);
  }

  function HalfSize(n: int): (h: int)
    requires KernelsFit(n)
    ensures 0 < h && n == 2 * h
    ensures if h > SIZE_AT_WHICH_NAIVE_ALGORITHM_IS_MORE_EFFICIENT then KernelsFit(h) else h % 8 == 0
  {
    n / 2
  }

  /** The k-th half of the product for the quadrant (a, b). */
  ghost function Quadrant(w: Job, a: int, b: int, k: int, h: int): Job {
    Job(w.rc + Off(a, h), w.cc + Off(b, h), w.A, w.ra + Off(a, h), w.ca + Off(k, h),
        w.B, w.rb + Off(k, h), w.cb + Off(b, h), h)
  }

  /** How many products the sum at (i, j) has after p of the eight calls, which take the quadrants
      in the order 00, 01, 11, 10, twice. */
  function CallTerms(i: int, j: int, h: int, p: int): int {
    var q := if i < h then (if j < h then 0 else 1) else if j < h then 3 else 2;
    if q + 4 < p then 2 * h else if q < p then h else 0
  }

  ghost predicate SumAt(C: Mat, D: Mat, w: Job, add: bool, i: int, j: int, t: int) {
    At(D, i, j) == if t == 0 then At(C, i, j) else Running(C, w, add, i, j, t)
  }

  ghost predicate CallPhase(C: Mat, D: Mat, w: Job, add: bool, h: int, p: int) {
    && Outside(C, D, w.rc, w.cc, 2 * h, 2 * h)
    && forall i, j | Inside(i, j, w.rc, w.cc, 2 * h, 2 * h) ::
         SumAt(C, D, w, add, i, j, CallTerms(i - w.rc, j - w.cc, h, p))
  }

  lemma CallTermsStep(i: int, j: int, h: int, a: int, b: int, k: int, p: int)
    requires 0 < h && 0 <= i < 2 * h && 0 <= j < 2 * h
    requires (a, b, p - 4 * k) in {(0, 0, 0), (0, 1, 1), (1, 1, 2), (1, 0, 3)}
    requires k == 0 || k == 1
    ensures Inside(i, j, Off(a, h), Off(b, h), h, h) ==>
              CallTerms(i, j, h, p) == Off(k, h) && CallTerms(i, j, h, p + 1) == Off(k, h) + h
    ensures !Inside(i, j, Off(a, h), Off(b, h), h, h) ==> CallTerms(i, j, h, p + 1) == CallTerms(i, j, h, p)
  {
  }

  lemma SumStep(C: Mat, D: Mat, E: Mat, w: Job, add: bool, a: int, b: int, k: int, h: int, i: int, j: int)
    requires 0 < h && (k == 0 || k == 1) && SumAt(C, D, w, add, i, j, Off(k, h))
    requires ElementAt(D, E, Quadrant(w, a, b, k, h), k == 1 || add, i, j)
    ensures SumAt(C, E, w, add, i, j, Off(k, h) + h)
  {
    hide Mul;
    DotSplits(w.A, w.ra + i - w.rc, w.ca, w.B, w.rb, w.cb + j - w.cc, Off(k, h), Off(k, h) + h);
  }

  lemma CallStep(C: Mat, D: Mat, E: Mat, w: Job, add: bool, h: int, a: int, b: int, k: int, p: int)
    requires 0 < h && (a, b, p - 4 * k) in {(0, 0, 0), (0, 1, 1), (1, 1, 2), (1, 0, 3)} && (k == 0 || k == 1)
    requires CallPhase(C, D, w, add, h, p) && IsProduct(D, E, Quadrant(w, a, b, k, h), k == 1 || add)
    ensures CallPhase(C, E, w, add, h, p + 1)
  {
    forall i, j | Inside(i, j, w.rc, w.cc, 2 * h, 2 * h)
      ensures SumAt(C, E, w, add, i, j, CallTerms(i - w.rc, j - w.cc, h, p + 1))
    {
      hide CallTerms, SumAt, ElementAt;
      CallTermsStep(i - w.rc, j - w.cc, h, a, b, k, p);
      assert SumAt(C, D, w, add, i, j, CallTerms(i - w.rc, j - w.cc, h, p));
      if Inside(i, j, w.rc + Off(a, h), w.cc + Off(b, h), h, h) {
        assert ElementAt(D, E, Quadrant(w, a, b, k, h), k == 1 || add, i, j);
        SumStep(C, D, E, w, add, a, b, k, h, i, j);
      } else {
        SumElsewhere(C, D, E, w, add, i, j, CallTerms(i - w.rc, j - w.cc, h, p));
      }
    }
  }

  lemma SumElsewhere(C: Mat, D: Mat, E: Mat, w: Job, add: bool, i: int, j: int, t: int)
    requires SumAt(C, D, w, add, i, j, t) && At(E, i, j) == At(D, i, j)
    ensures SumAt(C, E, w, add, i, j, t)
  {
  }

  lemma CallsStart(C: Mat, w: Job, add: bool, h: int)
    ensures CallPhase(C, C, w, add, h, 0)
  {
  }

  lemma CallsEnd(C: Mat, D: Mat, w: Job, add: bool, h: int)
    requires CallPhase(C, D, w, add, h, 8) && w.n == 2 * h && 0 < h
    ensures IsProduct(C, D, w, add)
  {
    forall i, j | Inside(i, j, w.rc, w.cc, w.n, w.n) ensures ElementAt(C, D, w, add, i, j) {
      assert SumAt(C, D, w, add, i, j, CallTerms(i - w.rc, j - w.cc, h, 8));
    }
  }

  /** One quadrant: the next level of divide and conquer, or one of the kernels. */
  method MultiplyQuadrant(C: array2<real>, rc: int, cc: int, A: array2<real>, ra: int, ca: int, B: array2<real>,
                          rb: int, cb: int, n: int, add: bool, ghost w: Job)
    requires w == Job(rc, cc, w.A, ra, ca, w.B, rb, cb, n) && Sized(C, A, B, w) && 0 < n
    requires if n > SIZE_AT_WHICH_NAIVE_ALGORITHM_IS_MORE_EFFICIENT then KernelsFit(n) else n % 8 == 0
    modifies C
    ensures IsProduct(old(Snap(C)), Snap(C), w, add)
    decreases n, 1
  {
    if n > SIZE_AT_WHICH_NAIVE_ALGORITHM_IS_MORE_EFFICIENT {
      MultiplyByDivideAndConquer(C, rc, cc, A, ra, ca, B, rb, cb, n, add, w);
    } else if add {
      FastAdditive(C, rc, cc, A, ra, ca, B, rb, cb, n, w);
    } else {
      FastNaive(C, rc, cc, A, ra, ca, B, rb, cb, n, w);
    }
  }

  /** MultiplyByDivideAndConquer: C = A x B, or C += A x B in additive mode. */
  method MultiplyByDivideAndConquer(C: array2<real>, rc: int, cc: int, A: array2<real>, ra: int, ca: int,
                                    B: array2<real>, rb: int, cb: int, n: int, add: bool, ghost w: Job)
    requires w == Job(rc, cc, w.A, ra, ca, w.B, rb, cb, n) && Sized(C, A, B, w) && KernelsFit(n)
    modifies C
    ensures IsProduct(old(Snap(C)), Snap(C), w, add)
    decreases n, 0
  {
    hide IsProduct, CallPhase, KernelsFit, HalfSize, Snap;
    var q := HalfSize(n);
    ghost var D0 := Snap(C);
    CallsStart(D0, w, add, q);
    MultiplyQuadrant(C, rc, cc, A, ra, ca, B, rb, cb, q, add, Quadrant(w, 0, 0, 0, q));
    ghost var D1 := Snap(C);
    CallStep(D0, D0, D1, w, add, q, 0, 0, 0, 0);
    MultiplyQuadrant(C, rc, cc + q, A, ra, ca, B, rb, cb + q, q, add, Quadrant(w, 0, 1, 0, q));
    ghost var D2 := Snap(C);
    CallStep(D0, D1, D2, w, add, q, 0, 1, 0, 1);
    MultiplyQuadrant(C, rc + q, cc + q, A, ra + q, ca, B, rb, cb + q, q, add, Quadrant(w, 1, 1, 0, q));
    ghost var D3 := Snap(C);
    CallStep(D0, D2, D3, w, add, q, 1, 1, 0, 2);
    MultiplyQuadrant(C, rc + q, cc, A, ra + q, ca, B, rb, cb, q, add, Quadrant(w, 1, 0, 0, q));
    ghost var D4 := Snap(C);
    CallStep(D0, D3, D4, w, add, q, 1, 0, 0, 3);
    MultiplyQuadrant(C, rc, cc, A, ra, ca + q, B, rb + q, cb, q, true, Quadrant(w, 0, 0, 1, q));
    ghost var D5 := Snap(C);
    CallStep(D0, D4, D5, w, add, q, 0, 0, 1, 4);
    MultiplyQuadrant(C, rc, cc + q, A, ra, ca + q, B, rb + q, cb + q, q, true, Quadrant(w, 0, 1, 1, q));
    ghost var D6 := Snap(C);
    CallStep(D0, D5, D6, w, add, q, 0, 1, 1, 5);
    MultiplyQuadrant(C, rc + q, cc + q, A, ra + q, ca + q, B, rb + q, cb + q, q, true, Quadrant(w, 1, 1, 1, q));
    ghost var D7 := Snap(C);
    CallStep(D0, D6, D7, w, add, q, 1, 1, 1, 6);
    MultiplyQuadrant(C, rc + q, cc, A, ra + q, ca + q, B, rb + q, cb, q, true, Quadrant(w, 1, 0, 1, q));
    CallStep(D0, D7, Snap(C), w, add, q, 1, 0, 1, 7);
    CallsEnd(D0, Snap(C), w, add, q);
  }

  // ---------------------------------------------------------------------------------------------
  // Strassen's method
  // ---------------------------------------------------------------------------------------------

  /** Element (i, j) of the quadrants of A and B; q is their size. */
  ghost function A11(w: Job, q: int, i: int, j: int): real { At(w.A, w.ra + i, w.ca + j) }
  ghost function A12(w: Job, q: int, i: int, j: int): real { At(w.A, w.ra + i, w.ca + q + j) }
  ghost function A21(w: Job, q: int, i: int, j: int): real { At(w.A, w.ra + q + i, w.ca + j) }
  ghost function A22(w: Job, q: int, i: int, j: int): real { At(w.A, w.ra + q + i, w.ca + q + j) }
  ghost function B11(w: Job, q: int, i: int, j: int): real { At(w.B, w.rb + i, w.cb + j) }
  ghost function B12(w: Job, q: int, i: int, j: int): real { At(w.B, w.rb + i, w.cb + q + j) }
  ghost function B21(w: Job, q: int, i: int, j: int): real { At(w.B, w.rb + q + i, w.cb + j) }
  ghost function B22(w: Job, q: int, i: int, j: int): real { At(w.B, w.rb + q + i, w.cb + q + j) }

  /** Element (i, j) of the eight sums. */
  ghost function SumOf(k: int, w: Job, q: int, i: int, j: int): real {
    if k == 1 then A21(w, q, i, j) + A22(w, q, i, j)
    else if k == 2 then A21(w, q, i, j) + A22(w, q, i, j) - A11(w, q, i, j)
    else if k == 3 then A11(w, q, i, j) - A21(w, q, i, j)
    else if k == 4 then A12(w, q, i, j) - (A21(w, q, i, j) + A22(w, q, i, j) - A11(w, q, i, j))
    else if k == 5 then B12(w, q, i, j) - B11(w, q, i, j)
    else if k == 6 then B22(w, q, i, j) - (B12(w, q, i, j) - B11(w, q, i, j))
    else if k == 7 then B22(w, q, i, j) - B12(w, q, i, j)
    else B22(w, q, i, j) - (B12(w, q, i, j) - B11(w, q, i, j)) - B21(w, q, i, j)
  }

  /** S holds the k-th sum in the rows before r, and in row r in the columns before c. */
  ghost predicate Filled(S: Mat, k: int, w: Job, q: int, r: int, c: int) {
    forall i, j | 0 <= i < q && 0 <= j < q && (i < r || (i == r && j < c)) :: At(S, i, j) == SumOf(k, w, q, i, j)
  }

  lemma FilledStep(S: Mat, S': Mat, k: int, w: Job, q: int, r: int, c: int)
    requires Filled(S, k, w, q, r, c) && At(S', r, c) == SumOf(k, w, q, r, c)
    requires forall i, j | i != r || j != c :: At(S', i, j) == At(S, i, j)
    ensures Filled(S', k, w, q, r, c + 1)
  {
  }

  lemma FilledAt(S: Mat, k: int, w: Job, q: int, i: int, j: int)
    requires Filled(S, k, w, q, q, 0) && 0 <= i < q && 0 <= j < q
    ensures At(S, i, j) == SumOf(k, w, q, i, j)
  {
  }

  lemma FilledRow(S: Mat, k: int, w: Job, q: int, r: int)
    ensures Filled(S, k, w, q, 0, 0) && (Filled(S, k, w, q, r, q) ==> Filled(S, k, w, q, r + 1, 0))
  {
  }

  /** All eight sums so far. */
  ghost predicate AllFilled(S1: array2<real>, S2: array2<real>, S3: array2<real>, S4: array2<real>, S5: array2<real>,
                            S6: array2<real>, S7: array2<real>, S8: array2<real>, w: Job, q: int, r: int, c: int)
    reads S1, S2, S3, S4, S5, S6, S7, S8
  {
    && Filled(Snap(S1), 1, w, q, r, c) && Filled(Snap(S2), 2, w, q, r, c) && Filled(Snap(S3), 3, w, q, r, c)
    && Filled(Snap(S4), 4, w, q, r, c) && Filled(Snap(S5), 5, w, q, r, c) && Filled(Snap(S6), 6, w, q, r, c)
    && Filled(Snap(S7), 7, w, q, r, c) && Filled(Snap(S8), 8, w, q, r, c)
  }

  method SetSum(S: array2<real>, i: int, j: int, x: real, ghost k: int, ghost w: Job, ghost q: int)
    requires S.Length0 == S.Length1 == q && 0 <= i < q && 0 <= j < q
    requires Filled(Snap(S), k, w, q, i, j) && x == SumOf(k, w, q, i, j)
    modifies S
    ensures Filled(Snap(S), k, w, q, i, j + 1)
  {
    hide Filled, SumOf;
    ghost var S0 := Snap(S);
    S[i, j] := x;
    FilledStep(S0, Snap(S), k, w, q, i, j);
  }

  predicate Square(S: array2<real>, q: int) {
    S.Length0 == S.Length1 == q
  }

  predicate Distinct(S1: array2<real>, S2: array2<real>, S3: array2<real>, S4: array2<real>, S5: array2<real>,
                     S6: array2<real>, S7: array2<real>, S8: array2<real>) {
    && S1 != S2 && S1 != S3 && S1 != S4 && S1 != S5 && S1 != S6 && S1 != S7 && S1 != S8
    && S2 != S3 && S2 != S4 && S2 != S5 && S2 != S6 && S2 != S7 && S2 != S8
    && S3 != S4 && S3 != S5 && S3 != S6 && S3 != S7 && S3 != S8
    && S4 != S5 && S4 != S6 && S4 != S7 && S4 != S8
    && S5 != S6 && S5 != S7 && S5 != S8 && S6 != S7 && S6 != S8 && S7 != S8
  }

  /** One element of each of the eight sums. */
  method SetSums(A: array2<real>, ra: int, ca: int, B: array2<real>, rb: int, cb: int, q: int, i: int, j: int,
                 ghost w: Job, S1: array2<real>, S2: array2<real>, S3: array2<real>, S4: array2<real>,
                 S5: array2<real>, S6: array2<real>, S7: array2<real>, S8: array2<real>)
    requires w == Job(w.rc, w.cc, Snap(A), ra, ca, Snap(B), rb, cb, 2 * q) && Fits(A, ra, ca, 2 * q)
    requires Fits(B, rb, cb, 2 * q)
    requires 0 <= i < q && 0 <= j < q && AllFilled(S1, S2, S3, S4, S5, S6, S7, S8, w, q, i, j)
    requires Square(S1, q) && Square(S2, q) && Square(S3, q) && Square(S4, q)
    requires Square(S5, q) && Square(S6, q) && Square(S7, q) && Square(S8, q)
    requires Distinct(S1, S2, S3, S4, S5, S6, S7, S8)
    modifies S1, S2, S3, S4, S5, S6, S7, S8
    ensures AllFilled(S1, S2, S3, S4, S5, S6, S7, S8, w, q, i, j + 1)
  {
    hide Filled, SumOf;
    var s1, s2, s3, s4, s5, s6, s7, s8 := SumsAt(A, ra, ca, B, rb, cb, q, i, j, w);
    SetSum(S1, i, j, s1, 1, w, q);
    SetSum(S2, i, j, s2, 2, w, q);
    SetSum(S4, i, j, s4, 4, w, q);
    SetSum(S5, i, j, s5, 5, w, q);
    SetSum(S6, i, j, s6, 6, w, q);
    SetSum(S8, i, j, s8, 8, w, q);
    SetSum(S3, i, j, s3, 3, w, q);
    SetSum(S7, i, j, s7, 7, w, q);
  }

  /** The sums as the program nests them. */
  method SumsAt(A: array2<real>, ra: int, ca: int, B: array2<real>, rb: int, cb: int, q: int, i: int, j: int,
                ghost w: Job)
    returns (s1: real, s2: real, s3: real, s4: real, s5: real, s6: real, s7: real, s8: real)
    requires w == Job(w.rc, w.cc, Snap(A), ra, ca, Snap(B), rb, cb, 2 * q) && Fits(A, ra, ca, 2 * q)
    requires Fits(B, rb, cb, 2 * q)
    requires 0 <= i < q && 0 <= j < q
    ensures s1 == SumOf(1, w, q, i, j) && s2 == SumOf(2, w, q, i, j) && s3 == SumOf(3, w, q, i, j)
    ensures s4 == SumOf(4, w, q, i, j) && s5 == SumOf(5, w, q, i, j) && s6 == SumOf(6, w, q, i, j)
    ensures s7 == SumOf(7, w, q, i, j) && s8 == SumOf(8, w, q, i, j)
  {
    s1 := A[ra + q + i, ca + j] + A[ra + q + i, ca + q + j];
    s2 := s1 - A[ra + i, ca + j];
    s4 := A[ra + i, ca + q + j] - s2;
    s5 := B[rb + i, cb + q + j] - B[rb + i, cb + j];
    s6 := B[rb + q + i, cb + q + j] - s5;
    s8 := s6 - B[rb + q + i, cb + j];
    s3 := A[ra + i, ca + j] - A[ra + q + i, ca + j];
    s7 := B[rb + q + i, cb + q + j] - B[rb + i, cb + q + j];
  }

  /** The loop that fills the eight sums. */
  method Sums(A: array2<real>, ra: int, ca: int, B: array2<real>, rb: int, cb: int, q: int, ghost w: Job)
    returns (S1: array2<real>, S2: array2<real>, S3: array2<real>, S4: array2<real>, S5: array2<real>,
             S6: array2<real>, S7: array2<real>, S8: array2<real>)
    requires w == Job(w.rc, w.cc, Snap(A), ra, ca, Snap(B), rb, cb, 2 * q) && Fits(A, ra, ca, 2 * q)
    requires Fits(B, rb, cb, 2 * q)
    ensures fresh(S1) && fresh(S2) && fresh(S3) && fresh(S4) && fresh(S5) && fresh(S6) && fresh(S7) && fresh(S8)
    ensures Square(S1, q) && Square(S2, q) && Square(S3, q) && Square(S4, q)
    ensures Square(S5, q) && Square(S6, q) && Square(S7, q) && Square(S8, q)
    ensures AllFilled(S1, S2, S3, S4, S5, S6, S7, S8, w, q, q, 0)
  {
    hide Filled, SumOf, Snap, AllFilled;
    S1, S2, S3, S4 := new real[q, q], new real[q, q], new real[q, q], new real[q, q];
    S5, S6, S7, S8 := new real[q, q], new real[q, q], new real[q, q], new real[q, q];
    StartRow(S1, S2, S3, S4, S5, S6, S7, S8, w, q, 0);
    for i := 0 to q
      invariant AllFilled(S1, S2, S3, S4, S5, S6, S7, S8, w, q, i, 0)
    {
      for j := 0 to q
        invariant AllFilled(S1, S2, S3, S4, S5, S6, S7, S8, w, q, i, j)
      {
        SetSums(A, ra, ca, B, rb, cb, q, i, j, w, S1, S2, S3, S4, S5, S6, S7, S8);
      }
      StartRow(S1, S2, S3, S4, S5, S6, S7, S8, w, q, i);
    }
  }

  lemma StartRow(S1: array2<real>, S2: array2<real>, S3: array2<real>, S4: array2<real>, S5: array2<real>,
                 S6: array2<real>, S7: array2<real>, S8: array2<real>, w: Job, q: int, r: int)
    ensures AllFilled(S1, S2, S3, S4, S5, S6, S7, S8, w, q, 0, 0)
    ensures AllFilled(S1, S2, S3, S4, S5, S6, S7, S8, w, q, r, q) ==>
              AllFilled(S1, S2, S3, S4, S5, S6, S7, S8, w, q, r + 1, 0)
  {
    hide Filled;
    FilledRow(Snap(S1), 1, w, q, r);
    FilledRow(Snap(S2), 2, w, q, r);
    FilledRow(Snap(S3), 3, w, q, r);
    FilledRow(Snap(S4), 4, w, q, r);
    FilledRow(Snap(S5), 5, w, q, r);
    FilledRow(Snap(S6), 6, w, q, r);
    FilledRow(Snap(S7), 7, w, q, r);
    FilledRow(Snap(S8), 8, w, q, r);
  }

  // Winograd's identities, for one element of the product and its first n terms

  /** C12 = S4 B22 + T1 + M5 with T1 = S2 S6 + M2 */
  lemma Term12(a11: real, a12: real, a21: real, a22: real, b11: real, b12: real, b22: real)
    ensures var s2, s5 := a21 + a22 - a11, b12 - b11;
            Mul(a12 - s2, b22) + Mul(a21 + a22, s5) + Mul(s2, b22 - s5) + Mul(a11, b11) == Mul(a11, b12) + Mul(a12, b22)
  {
    var s1 := a21 + a22;
    var s2, s5 := s1 - a11, b12 - b11;
    assert (a12 - s2) * b22 == a12 * b22 - s2 * b22;
    assert s2 * (b22 - s5) == s2 * b22 - s2 * s5;
    assert s1 * s5 - s2 * s5 == a11 * s5 == a11 * b12 - a11 * b11;
  }

  /** C22 = M5 + T2 with T2 = T1 + S3 S7 */
  lemma Term22(a11: real, a21: real, a22: real, b11: real, b12: real, b22: real)
    ensures var s2, s5 := a21 + a22 - a11, b12 - b11;
            Mul(a21 + a22, s5) + Mul(s2, b22 - s5) + Mul(a11, b11) + Mul(a11 - a21, b22 - b12)
            == Mul(a21, b12) + Mul(a22, b22)
  {
    var s1 := a21 + a22;
    var s2, s5 := s1 - a11, b12 - b11;
    assert s1 * s5 - s2 * s5 == a11 * s5 == a11 * b12 - a11 * b11;
    assert s2 * (b22 - s5) == s2 * b22 - s2 * s5;
    assert s2 * b22 == a21 * b22 + a22 * b22 - a11 * b22;
    assert (a11 - a21) * (b22 - b12) == a11 * b22 - a11 * b12 - a21 * b22 + a21 * b12;
  }

  /** C21 = T2 - A22 S8 */
  lemma Term21(a11: real, a21: real, a22: real, b11: real, b12: real, b21: real, b22: real)
    ensures var s2, s5 := a21 + a22 - a11, b12 - b11;
            Mul(s2, b22 - s5) + Mul(a11, b11) + Mul(a11 - a21, b22 - b12) - Mul(a22, b22 - s5 - b21)
            == Mul(a21, b11) + Mul(a22, b21)
  {
    var s2, s5 := a21 + a22 - a11, b12 - b11;
    var s6 := b22 - s5;
    assert s2 * s6 == a21 * s6 + a22 * s6 - a11 * s6;
    assert a22 * (s6 - b21) == a22 * s6 - a22 * b21;
    assert a21 * s6 == a21 * b22 - a21 * b12 + a21 * b11;
    assert a11 * s6 == a11 * b22 - a11 * b12 + a11 * b11;
    assert (a11 - a21) * (b22 - b12) == a11 * b22 - a11 * b12 - a21 * b22 + a21 * b12;
  }

  /** The first n terms of row i of one quadrant of A times column j of one quadrant of B. */
  ghost function DotQ(w: Job, q: int, a: int, k: int, b: int, i: int, j: int, n: int): real {
    Dot(w.A, w.ra + Off(a, q) + i, w.ca + Off(k, q), w.B, w.rb + Off(k, q), w.cb + Off(b, q) + j, n)
  }

  /** Elements of a quadrant by the numbers of the quadrant. */
  ghost function ElementA(w: Job, q: int, a: int, k: int, i: int, j: int): real {
    At(w.A, w.ra + Off(a, q) + i, w.ca + Off(k, q) + j)
  }

  ghost function ElementB(w: Job, q: int, k: int, b: int, i: int, j: int): real {
    At(w.B, w.rb + Off(k, q) + i, w.cb + Off(b, q) + j)
  }

  lemma Elements(w: Job, q: int, i: int, k: int, j: int)
    ensures ElementA(w, q, 0, 0, i, k) == A11(w, q, i, k) && ElementA(w, q, 0, 1, i, k) == A12(w, q, i, k)
    ensures ElementA(w, q, 1, 0, i, k) == A21(w, q, i, k) && ElementA(w, q, 1, 1, i, k) == A22(w, q, i, k)
    ensures ElementB(w, q, 0, 0, k, j) == B11(w, q, k, j) && ElementB(w, q, 0, 1, k, j) == B12(w, q, k, j)
    ensures ElementB(w, q, 1, 0, k, j) == B21(w, q, k, j) && ElementB(w, q, 1, 1, k, j) == B22(w, q, k, j)
  {
  }

  lemma DotQNext(w: Job, q: int, a: int, k: int, b: int, i: int, j: int, n: int)
    requires 0 <= n
    ensures DotQ(w, q, a, k, b, i, j, n + 1)
              == DotQ(w, q, a, k, b, i, j, n) + Mul(ElementA(w, q, a, k, i, n), ElementB(w, q, k, b, n, j))
  {
    DotNext(w.A, w.ra + Off(a, q) + i, w.ca + Off(k, q), w.B, w.rb + Off(k, q), w.cb + Off(b, q) + j, n);
  }

  lemma SumsNext(S: Mat, T: Mat, i: int, j: int, n: int)
    requires 0 <= n
    ensures Dot(S, i, 0, T, 0, j, n + 1) == Dot(S, i, 0, T, 0, j, n) + Mul(At(S, i, n), At(T, n, j))
  {
    DotNext(S, i, 0, T, 0, j, n);
  }

  lemma S4Next(w: Job, q: int, S4: Mat, i: int, j: int, n: int)
    requires 0 <= n
    ensures Dot(S4, i, 0, w.B, w.rb + q, w.cb + q + j, n + 1)
              == Dot(S4, i, 0, w.B, w.rb + q, w.cb + q + j, n) + Mul(At(S4, i, n), B22(w, q, n, j))
  {
    DotNext(S4, i, 0, w.B, w.rb + q, w.cb + q + j, n);
  }

  lemma S8Next(w: Job, q: int, S8: Mat, i: int, j: int, n: int)
    requires 0 <= n
    ensures Dot(w.A, w.ra + q + i, w.ca + q, S8, 0, j, n + 1)
              == Dot(w.A, w.ra + q + i, w.ca + q, S8, 0, j, n) + Mul(A22(w, q, i, n), At(S8, n, j))
  {
    DotNext(w.A, w.ra + q + i, w.ca + q, S8, 0, j, n);
  }

  lemma {:induction false} Winograd12(w: Job, q: int, S1: Mat, S2: Mat, S4: Mat, S5: Mat, S6: Mat, i: int, j: int,
                                      n: int)
    requires 0 <= n <= q && 0 <= i < q && 0 <= j < q
    requires Filled(S1, 1, w, q, q, 0) && Filled(S2, 2, w, q, q, 0) && Filled(S4, 4, w, q, q, 0)
    requires Filled(S5, 5, w, q, q, 0) && Filled(S6, 6, w, q, q, 0)
    ensures Dot(S4, i, 0, w.B, w.rb + q, w.cb + q + j, n) + Dot(S1, i, 0, S5, 0, j, n) + Dot(S2, i, 0, S6, 0, j, n)
            + DotQ(w, q, 0, 0, 0, i, j, n) == DotQ(w, q, 0, 0, 1, i, j, n) + DotQ(w, q, 0, 1, 1, i, j, n)
    decreases n
  {
    if n > 0 {
      hide Mul, Filled, Dot, DotQ, At, ElementA, ElementB, A11, A12, A21, A22, B11, B12, B21, B22;
      var k := n - 1;
      Winograd12(w, q, S1, S2, S4, S5, S6, i, j, k);
      FilledAt(S1, 1, w, q, i, k);
      FilledAt(S2, 2, w, q, i, k);
      FilledAt(S4, 4, w, q, i, k);
      FilledAt(S5, 5, w, q, k, j);
      FilledAt(S6, 6, w, q, k, j);
      S4Next(w, q, S4, i, j, k);
      SumsNext(S1, S5, i, j, k);
      SumsNext(S2, S6, i, j, k);
      Elements(w, q, i, k, j);
      DotQNext(w, q, 0, 0, 0, i, j, k);
      DotQNext(w, q, 0, 0, 1, i, j, k);
      DotQNext(w, q, 0, 1, 1, i, j, k);
      Term12(A11(w, q, i, k), A12(w, q, i, k), A21(w, q, i, k), A22(w, q, i, k), B11(w, q, k, j), B12(w, q, k, j),
        B22(w, q, k, j));
    }
  }

  lemma {:induction false} Winograd22(w: Job, q: int, S1: Mat, S2: Mat, S3: Mat, S5: Mat, S6: Mat, S7: Mat, i: int,
                                      j: int, n: int)
    requires 0 <= n <= q && 0 <= i < q && 0 <= j < q
    requires Filled(S1, 1, w, q, q, 0) && Filled(S2, 2, w, q, q, 0) && Filled(S3, 3, w, q, q, 0)
    requires Filled(S5, 5, w, q, q, 0) && Filled(S6, 6, w, q, q, 0) && Filled(S7, 7, w, q, q, 0)
    ensures Dot(S1, i, 0, S5, 0, j, n) + Dot(S2, i, 0, S6, 0, j, n) + DotQ(w, q, 0, 0, 0, i, j, n)
      + Dot(S3, i, 0, S7, 0, j, n)
            == DotQ(w, q, 1, 0, 1, i, j, n) + DotQ(w, q, 1, 1, 1, i, j, n)
    decreases n
  {
    if n > 0 {
      hide Mul, Filled, Dot, DotQ, At, ElementA, ElementB, A11, A12, A21, A22, B11, B12, B21, B22;
      var k := n - 1;
      Winograd22(w, q, S1, S2, S3, S5, S6, S7, i, j, k);
      FilledAt(S1, 1, w, q, i, k);
      FilledAt(S2, 2, w, q, i, k);
      FilledAt(S3, 3, w, q, i, k);
      FilledAt(S5, 5, w, q, k, j);
      FilledAt(S6, 6, w, q, k, j);
      FilledAt(S7, 7, w, q, k, j);
      SumsNext(S1, S5, i, j, k);
      SumsNext(S2, S6, i, j, k);
      SumsNext(S3, S7, i, j, k);
      Elements(w, q, i, k, j);
      DotQNext(w, q, 0, 0, 0, i, j, k);
      DotQNext(w, q, 1, 0, 1, i, j, k);
      DotQNext(w, q, 1, 1, 1, i, j, k);
      Term22(A11(w, q, i, k), A21(w, q, i, k), A22(w, q, i, k), B11(w, q, k, j), B12(w, q, k, j), B22(w, q, k, j));
    }
  }

  lemma {:induction false} Winograd21(w: Job, q: int, S2: Mat, S3: Mat, S6: Mat, S7: Mat, S8: Mat, i: int, j: int,
                                      n: int)
    requires 0 <= n <= q && 0 <= i < q && 0 <= j < q
    requires Filled(S2, 2, w, q, q, 0) && Filled(S3, 3, w, q, q, 0)
    requires Filled(S6, 6, w, q, q, 0) && Filled(S7, 7, w, q, q, 0) && Filled(S8, 8, w, q, q, 0)
    ensures Dot(S2, i, 0, S6, 0, j, n) + DotQ(w, q, 0, 0, 0, i, j, n) + Dot(S3, i, 0, S7, 0, j, n)
            - Dot(w.A, w.ra + q + i, w.ca + q, S8, 0, j, n) == DotQ(w, q, 1, 0, 0, i, j, n)
              + DotQ(w, q, 1, 1, 0, i, j, n)
    decreases n
  {
    if n > 0 {
      hide Mul, Filled, Dot, DotQ, At, ElementA, ElementB, A11, A12, A21, A22, B11, B12, B21, B22;
      var k := n - 1;
      Winograd21(w, q, S2, S3, S6, S7, S8, i, j, k);
      FilledAt(S2, 2, w, q, i, k);
      FilledAt(S3, 3, w, q, i, k);
      FilledAt(S6, 6, w, q, k, j);
      FilledAt(S7, 7, w, q, k, j);
      FilledAt(S8, 8, w, q, k, j);
      SumsNext(S2, S6, i, j, k);
      SumsNext(S3, S7, i, j, k);
      S8Next(w, q, S8, i, j, k);
      Elements(w, q, i, k, j);
      DotQNext(w, q, 0, 0, 0, i, j, k);
      DotQNext(w, q, 1, 0, 0, i, j, k);
      DotQNext(w, q, 1, 1, 0, i, j, k);
      Term21(A11(w, q, i, k), A21(w, q, i, k), A22(w, q, i, k), B11(w, q, k, j), B12(w, q, k, j), B21(w, q, k, j),
        B22(w, q, k, j));
    }
  }

  // ---------------------------------------------------------------------------------------------
  // Putting the products together
  // ---------------------------------------------------------------------------------------------

  /** The last loop at (i, j): C11 += M2, C12 += M5 + T1, C22 = M5 + T2, C21 = -C21 + T2. */
  ghost predicate CombinedAt(D: Mat, E: Mat, M2: Mat, M5: Mat, T1: Mat, w: Job, q: int, i: int, j: int) {
    var r, c := w.rc + i, w.cc + j;
    var t1 := At(T1, i, j) + At(M2, i, j);
    var t2 := At(D, r + q, c + q) + t1;
    && At(E, r, c) == At(D, r, c) + At(M2, i, j)
    && At(E, r, c + q) == At(D, r, c + q) + (At(M5, i, j) + t1)
    && At(E, r + q, c + q) == At(M5, i, j) + t2
    && At(E, r + q, c) == -At(D, r + q, c) + t2
  }

  ghost predicate UntouchedAt(D: Mat, E: Mat, w: Job, q: int, i: int, j: int) {
    var r, c := w.rc + i, w.cc + j;
    && At(E, r, c) == At(D, r, c) && At(E, r, c + q) == At(D, r, c + q)
    && At(E, r + q, c) == At(D, r + q, c) && At(E, r + q, c + q) == At(D, r + q, c + q)
  }

  ghost predicate Combined(D: Mat, E: Mat, M2: Mat, M5: Mat, T1: Mat, w: Job, q: int, v: int, h: int) {
    && Outside(D, E, w.rc, w.cc, 2 * q, 2 * q)
    && forall i, j | 0 <= i < q && 0 <= j < q ::
         if i < v || (i == v && j < h) then CombinedAt(D, E, M2, M5, T1, w, q, i, j) else UntouchedAt(D, E, w, q, i, j)
  }

  lemma CombinedStart(D: Mat, E: Mat, M2: Mat, M5: Mat, T1: Mat, w: Job, q: int, v: int)
    ensures Combined(D, D, M2, M5, T1, w, q, 0, 0)
    ensures Combined(D, E, M2, M5, T1, w, q, v, q) ==> Combined(D, E, M2, M5, T1, w, q, v + 1, 0)
  {
  }

  predicate IsCorner(r: int, c: int, w: Job, q: int, v: int, h: int) {
    (r == w.rc + v || r == w.rc + q + v) && (c == w.cc + h || c == w.cc + q + h)
  }

  lemma CombinedStep(D: Mat, E: Mat, F: Mat, M2: Mat, M5: Mat, T1: Mat, w: Job, q: int, v: int, h: int)
    requires 0 <= v < q && 0 <= h < q && Combined(D, E, M2, M5, T1, w, q, v, h)
    requires CombinedAt(E, F, M2, M5, T1, w, q, v, h)
    requires forall r, c | !IsCorner(r, c, w, q, v, h) :: At(F, r, c) == At(E, r, c)
    ensures Combined(D, F, M2, M5, T1, w, q, v, h + 1)
  {
    assert UntouchedAt(D, E, w, q, v, h);
    forall i, j | 0 <= i < q && 0 <= j < q
      ensures if i < v || (i == v && j < h + 1) then CombinedAt(D, F, M2, M5, T1, w, q, i, j)
              else UntouchedAt(D, F, w, q, i, j)
    {
      if i != v || j != h {
        assert UntouchedAt(E, F, w, q, i, j);
        assert if i < v || (i == v && j < h) then CombinedAt(D, E, M2, M5, T1, w, q, i, j)
               else UntouchedAt(D, E, w, q, i, j);
      }
    }
  }

  method Corners(C: array2<real>, r: int, c: int, q: int, x11: real, x12: real, x21: real, x22: real)
    requires 0 < q && 0 <= r && r + q < C.Length0 && 0 <= c && c + q < C.Length1
    modifies C
    ensures var E := Snap(C);
            && At(E, r, c) == x11 && At(E, r, c + q) == x12 && At(E, r + q, c) == x21 && At(E, r + q, c + q) == x22
            && forall i, j | !((i == r || i == r + q) && (j == c || j == c + q)) ::
                 At(E, i, j) == At(old(Snap(C)), i, j)
  {
    C[r, c] := x11;
    C[r, c + q] := x12;
    C[r + q, c + q] := x22;
    C[r + q, c] := x21;
  }

  /** One column of the last loop. */
  method Combine(C: array2<real>, rc: int, cc: int, M2: array2<real>, M5: array2<real>, T1: array2<real>, q: int,
                 i: int, j: int, ghost D: Mat, ghost w: Job)
    requires w.rc == rc && w.cc == cc && Fits(C, rc, cc, 2 * q) && 0 <= i < q && 0 <= j < q
    requires Square(M2, q) && Square(M5, q) && Square(T1, q) && C != M2 && C != M5 && C != T1
    requires Combined(D, Snap(C), Snap(M2), Snap(M5), Snap(T1), w, q, i, j)
    modifies C
    ensures Combined(D, Snap(C), Snap(M2), Snap(M5), Snap(T1), w, q, i, j + 1)
  {
    hide Combined;
    ghost var E := Snap(C);
    var r, c := rc + i, cc + j;
    var t1 := T1[i, j] + M2[i, j];
    var t2 := C[r + q, c + q] + t1;
    Corners(C, r, c, q, C[r, c] + M2[i, j], C[r, c + q] + (M5[i, j] + t1), -C[r + q, c] + t2, M5[i, j] + t2);
    CombinedStep(D, E, Snap(C), Snap(M2), Snap(M5), Snap(T1), w, q, i, j);
  }

  method CombineAll(C: array2<real>, rc: int, cc: int, M2: array2<real>, M5: array2<real>, T1: array2<real>, q: int,
                    ghost w: Job)
    requires w.rc == rc && w.cc == cc && Fits(C, rc, cc, 2 * q) && q % 4 == 0
    requires Square(M2, q) && Square(M5, q) && Square(T1, q) && C != M2 && C != M5 && C != T1
    modifies C
    ensures Combined(old(Snap(C)), Snap(C), Snap(M2), Snap(M5), Snap(T1), w, q, q, 0)
  {
    hide Combined, Snap;
    ghost var D := Snap(C);
    CombinedStart(D, D, Snap(M2), Snap(M5), Snap(T1), w, q, 0);
    for i := 0 to q
      invariant Combined(D, Snap(C), Snap(M2), Snap(M5), Snap(T1), w, q, i, 0)
    {
      var j := 0;
      while j < q
        invariant 0 <= j <= q && j % 4 == 0
        invariant Combined(D, Snap(C), Snap(M2), Snap(M5), Snap(T1), w, q, i, j)
      {
        Combine(C, rc, cc, M2, M5, T1, q, i, j, D, w);
        Combine(C, rc, cc, M2, M5, T1, q, i, j + 1, D, w);
        Combine(C, rc, cc, M2, M5, T1, q, i, j + 2, D, w);
        Combine(C, rc, cc, M2, M5, T1, q, i, j + 3, D, w);
        j := j + 4;
      }
      CombinedStart(D, Snap(C), Snap(M2), Snap(M5), Snap(T1), w, q, i);
    }
  }

  /** The eleven temporaries, as values. */
  datatype Temps = Temps(S1: Mat, S2: Mat, S3: Mat, S4: Mat, S5: Mat, S6: Mat, S7: Mat, S8: Mat, M2: Mat, M5: Mat,
  T1: Mat)

  ghost predicate SumsDone(t: Temps, w: Job, q: int) {
    && Filled(t.S1, 1, w, q, q, 0) && Filled(t.S2, 2, w, q, q, 0) && Filled(t.S3, 3, w, q, q, 0)
    && Filled(t.S4, 4, w, q, q, 0) && Filled(t.S5, 5, w, q, q, 0) && Filled(t.S6, 6, w, q, q, 0)
    && Filled(t.S7, 7, w, q, q, 0) && Filled(t.S8, 8, w, q, q, 0)
  }

  /** The seven products before the last loop, at (i, j). */
  ghost predicate ProductsAt(D: Mat, t: Temps, w: Job, q: int, i: int, j: int) {
    && At(t.M2, i, j) == DotQ(w, q, 0, 0, 0, i, j, q)
    && At(t.M5, i, j) == Dot(t.S1, i, 0, t.S5, 0, j, q)
    && At(t.T1, i, j) == Dot(t.S2, i, 0, t.S6, 0, j, q)
    && At(D, w.rc + q + i, w.cc + q + j) == Dot(t.S3, i, 0, t.S7, 0, j, q)
    && At(D, w.rc + i, w.cc + j) == DotQ(w, q, 0, 1, 0, i, j, q)
    && At(D, w.rc + i, w.cc + q + j) == Dot(t.S4, i, 0, w.B, w.rb + q, w.cb + q + j, q)
    && At(D, w.rc + q + i, w.cc + j) == Dot(w.A, w.ra + q + i, w.ca + q, t.S8, 0, j, q)
  }

  lemma QuadrantElement(w: Job, q: int, a: int, b: int, i: int, j: int)
    requires 0 <= q && w.n == 2 * q
    ensures Element(w, w.rc + Off(a, q) + i, w.cc + Off(b, q) + j) == DotQ(w, q, a, 0, b, i, j, q)
      + DotQ(w, q, a, 1, b, i, j, q)
  {
    hide Mul;
    DotSplits(w.A, w.ra + Off(a, q) + i, w.ca, w.B, w.rb, w.cb + Off(b, q) + j, q, 2 * q);
  }

  /** The four elements the last loop writes at (i, j) are elements of the product. */
  lemma FourElements(D: Mat, E: Mat, t: Temps, w: Job, q: int, i: int, j: int)
    requires 0 <= i < q && 0 <= j < q && w.n == 2 * q && SumsDone(t, w, q)
    requires ProductsAt(D, t, w, q, i, j) && CombinedAt(D, E, t.M2, t.M5, t.T1, w, q, i, j)
    ensures At(E, w.rc + i, w.cc + j) == Element(w, w.rc + i, w.cc + j)
    ensures At(E, w.rc + i, w.cc + q + j) == Element(w, w.rc + i, w.cc + q + j)
    ensures At(E, w.rc + q + i, w.cc + j) == Element(w, w.rc + q + i, w.cc + j)
    ensures At(E, w.rc + q + i, w.cc + q + j) == Element(w, w.rc + q + i, w.cc + q + j)
  {
    hide Dot, DotQ, Filled, Element;
    QuadrantElement(w, q, 0, 0, i, j);
    QuadrantElement(w, q, 0, 1, i, j);
    QuadrantElement(w, q, 1, 0, i, j);
    QuadrantElement(w, q, 1, 1, i, j);
    Winograd12(w, q, t.S1, t.S2, t.S4, t.S5, t.S6, i, j, q);
    Winograd22(w, q, t.S1, t.S2, t.S3, t.S5, t.S6, t.S7, i, j, q);
    Winograd21(w, q, t.S2, t.S3, t.S6, t.S7, t.S8, i, j, q);
  }

  /** The seven products and the last loop make the product. */
  lemma StrassenIsProduct(C: Mat, D: Mat, E: Mat, t: Temps, w: Job, q: int)
    requires 0 < q && w.n == 2 * q && SumsDone(t, w, q) && Outside(C, D, w.rc, w.cc, 2 * q, 2 * q)
    requires forall i, j | 0 <= i < q && 0 <= j < q :: ProductsAt(D, t, w, q, i, j)
    requires Combined(D, E, t.M2, t.M5, t.T1, w, q, q, 0)
    ensures IsProduct(C, E, w, false)
  {
    forall i, j | Inside(i, j, w.rc, w.cc, w.n, w.n) ensures ElementAt(C, E, w, false, i, j) {
      hide Element, SumsDone, ProductsAt, CombinedAt, UntouchedAt;
      var i' := if i < w.rc + q then i - w.rc else i - w.rc - q;
      var j' := if j < w.cc + q then j - w.cc else j - w.cc - q;
      assert ProductsAt(D, t, w, q, i', j') && CombinedAt(D, E, t.M2, t.M5, t.T1, w, q, i', j');
      FourElements(D, E, t, w, q, i', j');
    }
  }

  /** A product written to a temporary. */
  lemma TempProduct(M: Mat, A: Mat, ra: int, ca: int, B: Mat, rb: int, cb: int, q: int, i: int, j: int, C: Mat)
    requires IsProduct(C, M, Job(0, 0, A, ra, ca, B, rb, cb, q), false) && 0 <= i < q && 0 <= j < q
    ensures At(M, i, j) == Dot(A, ra + i, ca, B, rb, cb + j, q)
  {
    assert Inside(i, j, 0, 0, q, q);
  }

  /** The jobs of the four products that go to the quadrants of C. */
  ghost function Job22(t: Temps, w: Job, q: int): Job { Job(w.rc + q, w.cc + q, t.S3, 0, 0, t.S7, 0, 0, q) }
  ghost function Job11(w: Job, q: int): Job { Job(w.rc, w.cc, w.A, w.ra, w.ca + q, w.B, w.rb + q, w.cb, q) }
  ghost function Job12(t: Temps, w: Job, q: int): Job { Job(w.rc, w.cc + q, t.S4, 0, 0, w.B, w.rb + q, w.cb + q, q) }
  ghost function Job21(t: Temps, w: Job, q: int): Job { Job(w.rc + q, w.cc, w.A, w.ra + q, w.ca + q, t.S8, 0, 0, q) }

  lemma QuadrantProducts(D0: Mat, D1: Mat, D2: Mat, D3: Mat, D4: Mat, t: Temps, w: Job, q: int)
    requires 0 < q
    requires IsProduct(D0, D1, Job22(t, w, q), false) && IsProduct(D1, D2, Job11(w, q), false)
    requires IsProduct(D2, D3, Job12(t, w, q), false) && IsProduct(D3, D4, Job21(t, w, q), false)
    ensures Outside(D0, D4, w.rc, w.cc, 2 * q, 2 * q)
    ensures forall i, j | 0 <= i < q && 0 <= j < q :: InQuadrants(D4, t, w, q, i, j)
  {
    hide Dot;
    forall i, j | !Inside(i, j, w.rc, w.cc, 2 * q, 2 * q) ensures At(D4, i, j) == At(D0, i, j) {
      hide Element, ElementAt;
      assert At(D4, i, j) == At(D3, i, j) == At(D2, i, j) == At(D1, i, j);
    }
    forall i, j | 0 <= i < q && 0 <= j < q ensures InQuadrants(D4, t, w, q, i, j) {
      QuadrantProduct(D0, D1, D2, D3, D4, t, w, q, i, j);
    }
  }

  ghost predicate InQuadrants(D: Mat, t: Temps, w: Job, q: int, i: int, j: int) {
    && At(D, w.rc + q + i, w.cc + q + j) == Dot(t.S3, i, 0, t.S7, 0, j, q)
    && At(D, w.rc + i, w.cc + j) == DotQ(w, q, 0, 1, 0, i, j, q)
    && At(D, w.rc + i, w.cc + q + j) == Dot(t.S4, i, 0, w.B, w.rb + q, w.cb + q + j, q)
    && At(D, w.rc + q + i, w.cc + j) == Dot(w.A, w.ra + q + i, w.ca + q, t.S8, 0, j, q)
  }

  lemma QuadrantProduct(D0: Mat, D1: Mat, D2: Mat, D3: Mat, D4: Mat, t: Temps, w: Job, q: int, i: int, j: int)
    requires 0 <= i < q && 0 <= j < q
    requires IsProduct(D0, D1, Job22(t, w, q), false) && IsProduct(D1, D2, Job11(w, q), false)
    requires IsProduct(D2, D3, Job12(t, w, q), false) && IsProduct(D3, D4, Job21(t, w, q), false)
    ensures InQuadrants(D4, t, w, q, i, j)
  {
    var r, c := w.rc + i, w.cc + j;
    assert ElementAt(D0, D1, Job22(t, w, q), false, r + q, c + q) && ElementAt(D1, D2, Job11(w, q), false, r, c)
           && ElementAt(D2, D3, Job12(t, w, q), false, r, c + q) && ElementAt(D3, D4, Job21(t, w, q), false, r
             + q, c) by {
      hide ElementAt;
      assert Inside(r + q, c + q, w.rc + q, w.cc + q, q, q) && Inside(r, c, w.rc, w.cc, q, q)
             && Inside(r, c + q, w.rc, w.cc + q, q, q) && Inside(r + q, c, w.rc + q, w.cc, q, q);
    }
    hide Dot;
    assert At(D4, r + q, c + q) == At(D3, r + q, c + q) == At(D2, r + q, c + q) == At(D1, r + q, c + q);
    assert At(D4, r, c) == At(D3, r, c) == At(D2, r, c);
    assert At(D4, r, c + q) == At(D3, r, c + q);
  }

  lemma BigSizes(n: int)
    requires KernelsFit(n) && n > SIZE_AT_WHICH_DIVIDE_AND_CONQUER_IS_MORE_EFFICIENT
    ensures KernelsFit(n / 2) && n == 2 * (n / 2) && n / 2 % 4 == 0 && n / 2 > 0
  {
    hide KernelsFit;
    EvenFit(n);
    EvenFit(n / 2);
    EvenFit(n / 2 / 2);
  }

  lemma EvenFit(n: int)
    requires KernelsFit(n)
    ensures n == 2 * (n / 2) && (n > 32 ==> KernelsFit(n / 2))
  {
  }

  function QuadrantSize(n: int): (q: int)
    requires KernelsFit(n) && n > SIZE_AT_WHICH_DIVIDE_AND_CONQUER_IS_MORE_EFFICIENT
    ensures KernelsFit(q) && n == 2 * q && q % 4 == 0 && 0 < q
  {
    BigSizes(n);
    n / 2
  }

  /** OptimizedStrassenMultiply: C = A x B */
  method OptimizedStrassenMultiply(C: array2<real>, rc: int, cc: int, A: array2<real>, ra: int, ca: int,
                                   B: array2<real>, rb: int, cb: int, n: int, ghost w: Job)
    requires w == Job(rc, cc, w.A, ra, ca, w.B, rb, cb, n) && Sized(C, A, B, w) && KernelsFit(n)
    modifies C
    ensures IsProduct(old(Snap(C)), Snap(C), w, false)
    decreases n, 0
  {
    if n <= SIZE_AT_WHICH_DIVIDE_AND_CONQUER_IS_MORE_EFFICIENT {
      MultiplyByDivideAndConquer(C, rc, cc, A, ra, ca, B, rb, cb, n, false, w);
    } else {
      SevenProducts(C, rc, cc, A, ra, ca, B, rb, cb, QuadrantSize(n), w);
    }
  }

  /** Strassen's case: eight sums, seven products, and the loop that puts them together. */
  method SevenProducts(C: array2<real>, rc: int, cc: int, A: array2<real>, ra: int, ca: int, B: array2<real>, rb: int,
                       cb: int, q: int, ghost w: Job)
    requires w == Job(rc, cc, w.A, ra, ca, w.B, rb, cb, 2 * q) && Sized(C, A, B, w) && KernelsFit(q) && q % 4 == 0
    requires 0 < q
    modifies C
    ensures IsProduct(old(Snap(C)), Snap(C), w, false)
    decreases q, 2
  {
    hide IsProduct, Filled, KernelsFit, Snap, Outside, Combined;
    ghost var D0 := Snap(C);
    var S1, S2, S3, S4, S5, S6, S7, S8 := Sums(A, ra, ca, B, rb, cb, q, w);
    ghost var s1, s2, s3, s4 := Snap(S1), Snap(S2), Snap(S3), Snap(S4);
    ghost var s5, s6, s7, s8 := Snap(S5), Snap(S6), Snap(S7), Snap(S8);
    var M2, M5, T1 := Products3(A, ra, ca, B, rb, cb, S1, S5, S2, S6, q, w);
    ghost var t := Temps(s1, s2, s3, s4, s5, s6, s7, s8, Snap(M2), Snap(M5), Snap(T1));
    Products4(C, rc, cc, A, ra, ca, B, rb, cb, S3, S7, S4, S8, q, w, t);
    ghost var D := Snap(C);
    AllProducts(D, t, w, q);
    CombineAll(C, rc, cc, M2, M5, T1, q, w);
    StrassenIsProduct(D0, D, Snap(C), t, w, q);
  }

  ghost predicate InTemps(t: Temps, w: Job, q: int, i: int, j: int) {
    && At(t.M2, i, j) == DotQ(w, q, 0, 0, 0, i, j, q)
    && At(t.M5, i, j) == Dot(t.S1, i, 0, t.S5, 0, j, q)
    && At(t.T1, i, j) == Dot(t.S2, i, 0, t.S6, 0, j, q)
  }

  lemma AllProducts(D: Mat, t: Temps, w: Job, q: int)
    requires forall i, j | 0 <= i < q && 0 <= j < q :: InTemps(t, w, q, i, j)
    requires forall i, j | 0 <= i < q && 0 <= j < q :: InQuadrants(D, t, w, q, i, j)
    ensures forall i, j | 0 <= i < q && 0 <= j < q :: ProductsAt(D, t, w, q, i, j)
  {
    forall i, j | 0 <= i < q && 0 <= j < q ensures ProductsAt(D, t, w, q, i, j) {
      hide Dot, DotQ;
      assert InTemps(t, w, q, i, j) && InQuadrants(D, t, w, q, i, j);
    }
  }

  /** M2 = A11 B11, M5 = S1 S5 and S2 S6, into temporaries. */
  method Products3(A: array2<real>, ra: int, ca: int, B: array2<real>, rb: int, cb: int, S1: array2<real>,
                   S5: array2<real>, S2: array2<real>, S6: array2<real>, q: int, ghost w: Job)
    returns (M2: array2<real>, M5: array2<real>, T1: array2<real>)
    requires w == Job(w.rc, w.cc, Snap(A), ra, ca, Snap(B), rb, cb, 2 * q) && Fits(A, ra, ca, 2 * q)
    requires Fits(B, rb, cb, 2 * q)
    requires Square(S1, q) && Square(S5, q) && Square(S2, q) && Square(S6, q) && KernelsFit(q) && 0 < q
    ensures fresh(M2) && fresh(M5) && fresh(T1) && Square(M2, q) && Square(M5, q) && Square(T1, q)
    ensures forall i, j | 0 <= i < q && 0 <= j < q ::
              && At(Snap(M2), i, j) == DotQ(w, q, 0, 0, 0, i, j, q)
              && At(Snap(M5), i, j) == Dot(Snap(S1), i, 0, Snap(S5), 0, j, q)
              && At(Snap(T1), i, j) == Dot(Snap(S2), i, 0, Snap(S6), 0, j, q)
    decreases q, 1
  {
    hide IsProduct, KernelsFit, Dot, Snap;
    M2, M5, T1 := new real[q, q], new real[q, q], new real[q, q];
    ghost var m2, m5, t1 := Snap(M2), Snap(M5), Snap(T1);
    OptimizedStrassenMultiply(M2, 0, 0, A, ra, ca, B, rb, cb, q, Job(0, 0, w.A, ra, ca, w.B, rb, cb, q));
    OptimizedStrassenMultiply(M5, 0, 0, S1, 0, 0, S5, 0, 0, q, Job(0, 0, Snap(S1), 0, 0, Snap(S5), 0, 0, q));
    OptimizedStrassenMultiply(T1, 0, 0, S2, 0, 0, S6, 0, 0, q, Job(0, 0, Snap(S2), 0, 0, Snap(S6), 0, 0, q));
    forall i, j | 0 <= i < q && 0 <= j < q
      ensures && At(Snap(M2), i, j) == DotQ(w, q, 0, 0, 0, i, j, q)
              && At(Snap(M5), i, j) == Dot(Snap(S1), i, 0, Snap(S5), 0, j, q)
              && At(Snap(T1), i, j) == Dot(Snap(S2), i, 0, Snap(S6), 0, j, q)
    {
      TempProduct(Snap(M2), w.A, ra, ca, w.B, rb, cb, q, i, j, m2);
      TempProduct(Snap(M5), Snap(S1), 0, 0, Snap(S5), 0, 0, q, i, j, m5);
      TempProduct(Snap(T1), Snap(S2), 0, 0, Snap(S6), 0, 0, q, i, j, t1);
    }
  }

  /** S3 S7, A12 B21, S4 B22 and A22 S8, into the quadrants of C. */
  method Products4(C: array2<real>, rc: int, cc: int, A: array2<real>, ra: int, ca: int, B: array2<real>, rb: int,
                   cb: int, S3: array2<real>, S7: array2<real>, S4: array2<real>, S8: array2<real>, q: int,
                   ghost w: Job, ghost t: Temps)
    requires w == Job(rc, cc, w.A, ra, ca, w.B, rb, cb, 2 * q) && Sized(C, A, B, w) && KernelsFit(q) && 0 < q
    requires Square(S3, q) && Square(S7, q) && Square(S4, q) && Square(S8, q)
    requires C != S3 && C != S7 && C != S4 && C != S8
    requires t.S3 == Snap(S3) && t.S7 == Snap(S7) && t.S4 == Snap(S4) && t.S8 == Snap(S8)
    modifies C
    ensures Outside(old(Snap(C)), Snap(C), rc, cc, 2 * q, 2 * q)
    ensures forall i, j | 0 <= i < q && 0 <= j < q :: InQuadrants(Snap(C), t, w, q, i, j)
    decreases q, 1
  {
    hide IsProduct, KernelsFit, Snap, Outside, InQuadrants;
    ghost var D0 := Snap(C);
    OptimizedStrassenMultiply(C, rc + q, cc + q, S3, 0, 0, S7, 0, 0, q, Job22(t, w, q));
    ghost var D1 := Snap(C);
    OptimizedStrassenMultiply(C, rc, cc, A, ra, ca + q, B, rb + q, cb, q, Job11(w, q));
    ghost var D2 := Snap(C);
    OptimizedStrassenMultiply(C, rc, cc + q, S4, 0, 0, B, rb + q, cb + q, q, Job12(t, w, q));
    ghost var D3 := Snap(C);
    OptimizedStrassenMultiply(C, rc + q, cc, A, ra + q, ca + q, S8, 0, 0, q, Job21(t, w, q));
    QuadrantProducts(D0, D1, D2, D3, Snap(C), t, w, q);
  }

  /** Two multiplications of the same matrices leave the same destination: Strassen's method computes
      what the specification computes. */
  lemma ProductIsUnique(C: Mat, D: Mat, E: Mat, w: Job, add: bool, i: int, j: int)
    requires IsProduct(C, D, w, add) && IsProduct(C, E, w, add)
    ensures At(D, i, j) == At(E, i, j)
  {
    if Inside(i, j, w.rc, w.cc, w.n, w.n) {
      assert ElementAt(C, D, w, add, i, j) && ElementAt(C, E, w, add, i, j);
    }
  }

  // ---------------------------------------------------------------------------------------------
  // Spawned calls
  // ---------------------------------------------------------------------------------------------

  predicate DisjointTargets(v: Job, w: Job) {
    v.rc + v.n <= w.rc || w.rc + w.n <= v.rc || v.cc + v.n <= w.cc || w.cc + w.n <= v.cc
  }

  /** Two products that are spawned together write different blocks of C and read neither, so their order does not
      matter. */
  lemma SpawnedProductsCommute(C: Mat, D: Mat, E: Mat, D': Mat, E': Mat, v: Job, w: Job, add: bool)
    requires IsProduct(C, D, v, add) && IsProduct(D, E, w, add)
    requires IsProduct(C, D', w, add) && IsProduct(D', E', v, add)
    requires DisjointTargets(v, w)
    ensures forall i, j :: At(E, i, j) == At(E', i, j)
  {
    hide Dot, At;
    forall i, j ensures At(E, i, j) == At(E', i, j) {
      if Inside(i, j, v.rc, v.cc, v.n, v.n) {
        assert !Inside(i, j, w.rc, w.cc, w.n, w.n);
        assert ElementAt(C, D, v, add, i, j) && ElementAt(D', E', v, add, i, j);
      } else if Inside(i, j, w.rc, w.cc, w.n, w.n) {
        assert ElementAt(D, E, w, add, i, j) && ElementAt(C, D', w, add, i, j);
      }
    }
  }
}
