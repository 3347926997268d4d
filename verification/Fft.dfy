/** The fast Fourier transform, as it is computed for an odd number of points. */
module Fft {
  // Factor lists, the decimation that `unshuffle` makes, the twiddle loops and the Cooley-Tukey recursion, in exact
  // complex arithmetic. Nothing is assumed of the roots of unity but that the table W multiplies as exponents add. A
  // pointer into an array is an offset; spawned calls are made one after the other, as they write apart.

  import opened Commons

  datatype Complex = Complex(re: real, im: real)

  const ZERO := Complex(0.0, 0.0)
  const INT_MAX := 0x7fff_ffff
  const MAX_SIZE := 0x4000_0000
  const ONE := Complex(1.0, 0.0)

  function Add(x: Complex, y: Complex): Complex {
    Complex(x.re + y.re, x.im + y.im)
  }

  function Mul(x: Complex, y: Complex): Complex {
    Complex(x.re * y.re - x.im * y.im, x.re * y.im + x.im * y.re)
  }

  lemma AddLaws(x: Complex, y: Complex, z: Complex)
    ensures Add(x, ZERO) == x && Add(ZERO, x) == x && Add(x, y) == Add(y, x)
    ensures Add(Add(x, y), z) == Add(x, Add(y, z))
  {
  }

  lemma MulLaws(x: Complex, y: Complex, z: Complex)
    ensures Mul(x, ONE) == x && Mul(ZERO, x) == ZERO
    ensures Mul(Add(x, y), z) == Add(Mul(x, z), Mul(y, z))
  {
  }

  lemma MulAssociates(x: Complex, y: Complex, z: Complex)
    ensures Mul(Mul(x, y), z) == Mul(x, Mul(y, z))
  {
    var (a, b, c, d, e, f) := (x.re, x.im, y.re, y.im, z.re, z.im);
    assert (a * c - b * d) * e == a * (c * e) - b * (d * e);
    assert (a * d + b * c) * f == a * (d * f) + b * (c * f);
    assert (a * c - b * d) * f == a * (c * f) - b * (d * f);
    assert (a * d + b * c) * e == a * (d * e) + b * (c * e);
    assert a * (c * e - d * f) == a * (c * e) - a * (d * f);
    assert b * (c * f + d * e) == b * (c * f) + b * (d * e);
    assert a * (c * f + d * e) == a * (c * f) + a * (d * e);
    assert b * (c * e - d * f) == b * (c * e) - b * (d * f);
  }

  function At(x: seq<Complex>, i: int): Complex {
    if 0 <= i < |x| then x[i] else ZERO
  }

  // ---------------------------------------------------------------------------------------------
  // Roots of unity
  // ---------------------------------------------------------------------------------------------

  /** W holds the n-th roots of unity, from W[0] = 1 round to W[n] = 1. */
  ghost predicate Roots(W: seq<Complex>, n: int) {
    && n > 0 && |W| == n + 1 && W[0] == ONE && W[n] == ONE
    && forall a, b | 0 <= a < n && 0 <= b < n :: Mul(W[a], W[b]) == W[(a + b) % n]
  }

  /** The e-th power of the first root. */
  ghost function Power(W: seq<Complex>, n: int, e: int): Complex
    requires n > 0
  {
    At(W, e % n)
  }

  lemma ModSum(a: int, b: int, n: int)
    requires n > 0
    ensures (a % n + b % n) % n == (a + b) % n
  {
    var k := a / n + b / n;
    assert a + b == n * k + (a % n + b % n);
    ModShift(a % n + b % n, k, n);
  }

  lemma ModShift(a: int, k: int, n: int)
    requires n > 0
    ensures (a + n * k) % n == a % n
  {
    var q, r := a / n, a % n;
    assert a + n * k == n * (q + k) + r;
    ModUnique(a + n * k, q + k, r, n);
  }

  lemma ModUnique(a: int, q: int, r: int, n: int)
    requires n > 0 && a == n * q + r && 0 <= r < n
    ensures a % n == r && a / n == q
  {
    var q', r' := a / n, a % n;
    assert a == n * q' + r';
    assert n * (q - q') == r' - r;
    Multiple(n, q - q');
  }

  lemma Multiple(n: int, k: int)
    requires n > 0
    ensures k > 0 ==> n * k >= n
    ensures k < 0 ==> n * k <= -n
  {
  }

  lemma PowerAdds(W: seq<Complex>, n: int, a: int, b: int)
    requires Roots(W, n)
    ensures Mul(Power(W, n, a), Power(W, n, b)) == Power(W, n, a + b)
  {
    ModSum(a, b, n);
    assert Mul(W[a % n], W[b % n]) == W[(a % n + b % n) % n];
  }

  lemma PowerTurns(W: seq<Complex>, n: int, a: int, k: int)
    requires n > 0
    ensures Power(W, n, a + n * k) == Power(W, n, a)
  {
    ModShift(a, k, n);
  }

  // ---------------------------------------------------------------------------------------------
  // Sums
  // ---------------------------------------------------------------------------------------------

  /** The sum of x[b + d t] w^(e0 + e t) over t from 0 to cnt - 1. */
  ghost function Sum(W: seq<Complex>, n: int, x: seq<Complex>, b: int, d: int, e0: int, e: int, cnt: int): Complex
    requires n > 0
    decreases cnt
  {
    if cnt <= 0 then ZERO
    else Add(Sum(W, n, x, b, d, e0, e, cnt - 1), Mul(At(x, b + d * (cnt - 1)), Power(W, n, e0 + e * (cnt - 1))))
  }

  /** Element p of the transform of the size elements of x from o on; step is the number of the root
      of that size among all roots. */
  ghost function Dft(W: seq<Complex>, n: int, x: seq<Complex>, o: int, size: int, step: int, p: int): Complex
    requires n > 0
  {
    Sum(W, n, x, o, 1, 0, step * p, size)
  }

  lemma {:induction false} SumSame(W: seq<Complex>, n: int, x: seq<Complex>, b: int, d: int, e0: int, e: int,
                                   x': seq<Complex>, b': int, d': int, cnt: int)
    requires n > 0
    requires forall t | 0 <= t < cnt :: Term(x, b, d, t) == Term(x', b', d', t)
    ensures Sum(W, n, x, b, d, e0, e, cnt) == Sum(W, n, x', b', d', e0, e, cnt)
    decreases cnt
  {
    hide Mul, Add, Power;
    if cnt > 0 {
      SumSame(W, n, x, b, d, e0, e, x', b', d', cnt - 1);
      assert Term(x, b, d, cnt - 1) == Term(x', b', d', cnt - 1);
    }
  }

  ghost function Term(x: seq<Complex>, b: int, d: int, t: int): Complex {
    At(x, b + d * t)
  }

  /** Multiplying a sum by a power shifts its exponents. */
  lemma {:induction false} SumScales(W: seq<Complex>, n: int, x: seq<Complex>, b: int, d: int, e0: int, e: int,
                                     f: int, cnt: int)
    requires n > 0 && Roots(W, n)
    ensures Mul(Sum(W, n, x, b, d, e0, e, cnt), Power(W, n, f)) == Sum(W, n, x, b, d, e0 + f, e, cnt)
    decreases cnt
  {
    hide Mul, Add, Power, Roots;
    if cnt <= 0 {
      MulLaws(Power(W, n, f), ZERO, ZERO);
    } else {
      var t := cnt - 1;
      var y, w := At(x, b + d * t), Power(W, n, e0 + e * t);
      SumScales(W, n, x, b, d, e0, e, f, t);
      MulLaws(Sum(W, n, x, b, d, e0, e, t), Mul(y, w), Power(W, n, f));
      MulAssociates(y, w, Power(W, n, f));
      PowerAdds(W, n, e0 + e * t, f);
    }
  }

  /** Exponents count modulo n. */
  lemma {:induction false} SumTurns(W: seq<Complex>, n: int, x: seq<Complex>, b: int, d: int, e0: int, e: int, k: int,
                                    cnt: int)
    requires n > 0
    ensures Sum(W, n, x, b, d, e0, e + n * k, cnt) == Sum(W, n, x, b, d, e0, e, cnt)
    decreases cnt
  {
    hide Mul, Add, Power;
    if cnt > 0 {
      var t := cnt - 1;
      SumTurns(W, n, x, b, d, e0, e, k, t);
      assert e0 + (e + n * k) * t == e0 + e * t + n * (k * t);
      PowerTurns(W, n, e0 + e * t, k * t);
    }
  }

  lemma {:induction false} SumSplits(W: seq<Complex>, n: int, x: seq<Complex>, b: int, d: int, e0: int, e: int,
                                     h: int, cnt: int)
    requires n > 0 && 0 <= h <= cnt
    ensures Sum(W, n, x, b, d, e0, e, cnt) ==
              Add(Sum(W, n, x, b, d, e0, e, h), Sum(W, n, x, b + d * h, d, e0 + e * h, e, cnt - h))
    decreases cnt
  {
    hide Mul, Power;
    if h < cnt {
      var t := cnt - 1;
      SumSplits(W, n, x, b, d, e0, e, h, t);
      assert b + d * h + d * (t - h) == b + d * t && e0 + e * h + e * (t - h) == e0 + e * t;
    }
  }

  // ---------------------------------------------------------------------------------------------
  // Cooley-Tukey
  // ---------------------------------------------------------------------------------------------

  /** The sums of the first j0 columns of x, read as m rows of r: what the r small transforms and the
      twiddle factors add up. */
  ghost function Columns(W: seq<Complex>, n: int, x: seq<Complex>, b: int, r: int, m: int, c: int, j0: int): Complex
    requires n > 0
    decreases j0
  {
    if j0 <= 0 then ZERO
    else Add(Columns(W, n, x, b, r, m, c, j0 - 1), Sum(W, n, x, b + (j0 - 1), r, c * (j0 - 1), c * r, m))
  }

  lemma SumLast(W: seq<Complex>, n: int, x: seq<Complex>, b: int, d: int, e0: int, e: int, cnt: int)
    requires n > 0 && 0 <= cnt
    ensures Sum(W, n, x, b, d, e0, e, cnt + 1) ==
              Add(Sum(W, n, x, b, d, e0, e, cnt), Mul(At(x, b + d * cnt), Power(W, n, e0 + e * cnt)))
  {
  }

  lemma AddSwaps(u: Complex, v: Complex, y: Complex, z: Complex)
    ensures Add(Add(u, v), Add(y, z)) == Add(Add(u, y), Add(v, z))
  {
  }

  /** One more row adds its elements to the columns. */
  lemma {:induction false} OneMoreRow(W: seq<Complex>, n: int, x: seq<Complex>, b: int, r: int, m: int, c: int, j0: int)
    requires n > 0 && 0 <= m && 0 <= j0
    ensures Columns(W, n, x, b, r, m + 1, c, j0) ==
              Add(Columns(W, n, x, b, r, m, c, j0), Sum(W, n, x, b + r * m, 1, c * (r * m), c, j0))
    decreases j0
  {
    if j0 == 0 {
      AddLaws(ZERO, ZERO, ZERO);
    } else {
      hide *;
      var j := j0 - 1;
      OneMoreRow(W, n, x, b, r, m, c, j);
      RowExponent(c, r, m);
      OneMoreElement(W, n, x, b, r, m, c, j, r * m, c * r);
    }
  }

  /** The element in which the new row meets one more column. */
  lemma OneMoreElement(W: seq<Complex>, n: int, x: seq<Complex>, b: int, r: int, m: int, c: int, j: int, rm: int,
                       cr: int)
    requires n > 0 && 0 <= m && 0 <= j && rm == r * m && cr == c * r && c * rm == cr * m
    requires Columns(W, n, x, b, r, m + 1, c, j) ==
               Add(Columns(W, n, x, b, r, m, c, j), Sum(W, n, x, b + rm, 1, c * rm, c, j))
    ensures Columns(W, n, x, b, r, m + 1, c, j + 1) ==
              Add(Columns(W, n, x, b, r, m, c, j + 1), Sum(W, n, x, b + rm, 1, c * rm, c, j + 1))
  {
    hide *;
    ColumnsLast(W, n, x, b, r, m + 1, c, j);
    ColumnsLast(W, n, x, b, r, m, c, j);
    SumLast(W, n, x, b + j, r, c * j, cr, m);
    SumLast(W, n, x, b + rm, 1, c * rm, c, j);
    var last := Mul(At(x, b + j + rm), Power(W, n, c * j + cr * m));
    AddSwaps(Columns(W, n, x, b, r, m, c, j), Sum(W, n, x, b + rm, 1, c * rm, c, j),
             Sum(W, n, x, b + j, r, c * j, cr, m), last);
  }

  lemma ColumnsLast(W: seq<Complex>, n: int, x: seq<Complex>, b: int, r: int, m: int, c: int, j: int)
    requires n > 0 && 0 <= j
    ensures Columns(W, n, x, b, r, m, c, j + 1) ==
              Add(Columns(W, n, x, b, r, m, c, j), Sum(W, n, x, b + j, r, c * j, c * r, m))
  {
  }

  lemma RowExponent(c: int, r: int, m: int)
    ensures c * r * m == c * (r * m)
  {
  }

  /** Summing row by row and column by column is the same. */
  lemma {:induction false} RowsAreColumns(W: seq<Complex>, n: int, x: seq<Complex>, b: int, r: int, m: int, c: int)
    requires n > 0 && 0 <= m && 0 <= r
    ensures Sum(W, n, x, b, 1, 0, c, r * m) == Columns(W, n, x, b, r, m, c, r)
    decreases m
  {
    hide Mul, Power;
    if m == 0 {
      NoRows(W, n, x, b, r, c, r);
    } else {
      RowsAreColumns(W, n, x, b, r, m - 1, c);
      OneMoreRow(W, n, x, b, r, m - 1, c, r);
      assert r * m == r * (m - 1) + r && 0 <= r * (m - 1);
      SumSplits(W, n, x, b, 1, 0, c, r * (m - 1), r * m);
    }
  }

  lemma {:induction false} NoRows(W: seq<Complex>, n: int, x: seq<Complex>, b: int, r: int, c: int, j0: int)
    requires n > 0
    ensures Columns(W, n, x, b, r, 0, c, j0) == ZERO
    decreases j0
  {
    if j0 > 0 {
      NoRows(W, n, x, b, r, c, j0 - 1);
    }
  }

  lemma Exponents(s: int, i: int, m: int, k: int, r: int, n: int)
    requires n == s * (r * m)
    ensures s * (i + m * k) * r == s * r * i + n * k
  {
    assert s * (i + m * k) * r == s * i * r + s * (m * k) * r;
    assert s * (m * k) * r == s * (r * m) * k;
  }

  /** Element (i, j) of the small transforms: the transform of the j-th column of x. */
  ghost predicate SmallAt(W: seq<Complex>, n: int, x: seq<Complex>, y: seq<Complex>, o: int, r: int, m: int, s: int,
                          i: int, j: int)
    requires n > 0
  {
    At(y, o + i + m * j) == Sum(W, n, x, o + j, r, 0, s * r * i, m)
  }

  /** One twiddle product: the j-th small transform, shifted by its power, is the j-th column. */
  lemma TwiddleTerm(W: seq<Complex>, n: int, x: seq<Complex>, y: seq<Complex>, o: int, r: int, m: int, s: int, i: int,
                    k: int, c: int, j: int)
    requires n > 0 && Roots(W, n) && Scaled(n, s, r, m, i, k, c)
    requires SmallAt(W, n, x, y, o, r, m, s, i, j)
    ensures Mul(At(y, o + i + m * j), Power(W, n, c * j)) == Sum(W, n, x, o + j, r, c * j, c * r, m)
  {
    hide Mul, Power, Roots, Sum, At;
    SumScales(W, n, x, o + j, r, 0, s * r * i, c * j, m);
    Exponents(s, i, m, k, r, n);
    SumTurns(W, n, x, o + j, r, c * j, s * r * i, k, m);
  }

  /** n is s times the size r m, and c is s times the position in row k, column i. */
  predicate Scaled(n: int, s: int, r: int, m: int, i: int, k: int, c: int) {
    n == s * (r * m) && c == s * (i + m * k)
  }

  lemma {:induction false} TwiddlesAreColumns(W: seq<Complex>, n: int, x: seq<Complex>, y: seq<Complex>, o: int,
                                              r: int, m: int, s: int, i: int, k: int, c: int, j0: int)
    requires n > 0 && Roots(W, n) && Scaled(n, s, r, m, i, k, c) && 0 <= j0 <= r
    requires forall j | 0 <= j < r :: SmallAt(W, n, x, y, o, r, m, s, i, j)
    ensures Sum(W, n, y, o + i, m, 0, c, j0) == Columns(W, n, x, o, r, m, c, j0)
    decreases j0
  {
    hide Roots, Scaled, SmallAt, Mul, Power, Add;
    if j0 > 0 {
      TwiddlesAreColumns(W, n, x, y, o, r, m, s, i, k, c, j0 - 1);
      assert SmallAt(W, n, x, y, o, r, m, s, i, j0 - 1);
      OneMoreTwiddle(W, n, x, y, o, r, m, s, i, k, c, j0 - 1);
    }
  }

  lemma OneMoreTwiddle(W: seq<Complex>, n: int, x: seq<Complex>, y: seq<Complex>, o: int, r: int, m: int, s: int,
                       i: int, k: int, c: int, j: int)
    requires n > 0 && Roots(W, n) && Scaled(n, s, r, m, i, k, c) && 0 <= j
    requires SmallAt(W, n, x, y, o, r, m, s, i, j)
    requires Sum(W, n, y, o + i, m, 0, c, j) == Columns(W, n, x, o, r, m, c, j)
    ensures Sum(W, n, y, o + i, m, 0, c, j + 1) == Columns(W, n, x, o, r, m, c, j + 1)
  {
    hide *;
    TwiddleTerm(W, n, x, y, o, r, m, s, i, k, c, j);
    SumLast(W, n, y, o + i, m, 0, c, j);
    ColumnsLast(W, n, x, o, r, m, c, j);
    assert 0 + c * j == c * j;
  }

  /** The r small transforms, multiplied by the twiddle factors and added up, are the transform. */
  lemma CooleyTukey(W: seq<Complex>, n: int, x: seq<Complex>, y: seq<Complex>, o: int, r: int, m: int, s: int, i: int,
                    k: int)
    requires n > 0 && Roots(W, n) && n == s * (r * m) && 0 <= m && 0 <= r
    requires forall j | 0 <= j < r :: SmallAt(W, n, x, y, o, r, m, s, i, j)
    ensures Sum(W, n, y, o + i, m, 0, s * (i + m * k), r) == Dft(W, n, x, o, r * m, s, i + m * k)
  {
    var c := s * (i + m * k);
    TwiddlesAreColumns(W, n, x, y, o, r, m, s, i, k, c, r);
    RowsAreColumns(W, n, x, o, r, m, c);
  }

  // ---------------------------------------------------------------------------------------------
  // The loops
  // ---------------------------------------------------------------------------------------------

  /** Position p of a stretch that starts at o, read as rows of m: its column and its row. */
  function Col(p: int, o: int, m: int): int
    requires m > 0
  {
    (p - o) % m
  }

  function Row(p: int, o: int, m: int): int
    requires m > 0
  {
    (p - o) / m
  }

  lemma Placed(o: int, m: int, i: int, k: int)
    requires 0 <= i < m
    ensures Col(o + i + m * k, o, m) == i && Row(o + i + m * k, o, m) == k
  {
    ModUnique(i + m * k, k, i, m);
  }

  lemma Places(p: int, o: int, m: int, r: int)
    requires m > 0 && o <= p < o + r * m
    ensures p == o + Col(p, o, m) + m * Row(p, o, m) && 0 <= Col(p, o, m) < m && 0 <= Row(p, o, m) < r
  {
    var q := Row(p, o, m);
    assert p - o == m * q + Col(p, o, m);
    Multiple(m, q + 1);
    Multiple(m, q - r);
    assert m * (q - r) == m * q - r * m && m * (q + 1) == m * q + m;
  }

  lemma InRange(o: int, m: int, i: int, k: int, r: int)
    requires 0 <= i < m && 0 <= k < r
    ensures o <= o + i + m * k < o + r * m && 0 <= m * k
  {
    Multiple(m, k);
    Multiple(m, r - 1 - k);
    assert r * m == m * k + m * (r - 1 - k) + m;
  }

  /** p is in one of the columns from a to b - 1 of the stretch. */
  predicate InColumns(p: int, o: int, r: int, m: int, a: int, b: int)
    requires m > 0
  {
    o <= p < o + r * m && a <= Col(p, o, m) < b
  }

  /** The twiddle sum at position p. */
  ghost predicate TwiddledAt(W: seq<Complex>, n: int, x: seq<Complex>, d: seq<Complex>, o: int, r: int, m: int,
                             s: int, p: int)
    requires n > 0 && m > 0
  {
    At(d, p) == Sum(W, n, x, o + Col(p, o, m), m, 0, s * (p - o), r)
  }

  /** The columns from a to b - 1 hold twiddle sums; the rest is as it was. */
  ghost predicate Twiddled(W: seq<Complex>, n: int, x: seq<Complex>, d0: seq<Complex>, d: seq<Complex>, o: int,
                           r: int, m: int, s: int, a: int, b: int)
    requires n > 0 && m > 0
  {
    && |d| == |d0|
    && forall p | 0 <= p < |d| ::
         if InColumns(p, o, r, m, a, b) then TwiddledAt(W, n, x, d, o, r, m, s, p) else At(d, p) == At(d0, p)
  }

  /** The column i has got its first k elements. */
  ghost predicate TwiddledPart(W: seq<Complex>, n: int, x: seq<Complex>, d0: seq<Complex>, d: seq<Complex>, o: int,
                               r: int, m: int, s: int, i: int, k: int)
    requires n > 0 && m > 0
  {
    && |d| == |d0|
    && forall p | 0 <= p < |d| ::
         if InColumns(p, o, r, m, i, i + 1) && Row(p, o, m) < k then TwiddledAt(W, n, x, d, o, r, m, s, p)
         else At(d, p) == At(d0, p)
  }

  lemma TwiddledPartStep(W: seq<Complex>, n: int, x: seq<Complex>, d0: seq<Complex>, d: seq<Complex>, e: seq<Complex>,
                         o: int, r: int, m: int, s: int, i: int, k: int, q: int)
    requires n > 0 && 0 <= i < m && 0 <= k < r && TwiddledPart(W, n, x, d0, d, o, r, m, s, i, k)
    requires q == o + i + m * k && 0 <= q < |d| && e == d[q := Sum(W, n, x, o + i, m, 0, s * (q - o), r)]
    ensures TwiddledPart(W, n, x, d0, e, o, r, m, s, i, k + 1)
  {
    Placed(o, m, i, k);
    InRange(o, m, i, k, r);
    forall p | 0 <= p < |e|
      ensures if InColumns(p, o, r, m, i, i + 1) && Row(p, o, m) < k + 1 then TwiddledAt(W, n, x, e, o, r, m, s, p)
              else At(e, p) == At(d0, p)
    {
      hide Sum, Power, Mul, Add, Col, Row;
      assert if InColumns(p, o, r, m, i, i + 1) && Row(p, o, m) < k then TwiddledAt(W, n, x, d, o, r, m, s, p)
             else At(d, p) == At(d0, p);
      if o <= p < o + r * m {
        Places(p, o, m, r);
      }
    }
  }

  lemma TwiddledPartEnds(W: seq<Complex>, n: int, x: seq<Complex>, d0: seq<Complex>, d: seq<Complex>, o: int, r: int,
                         m: int, s: int, i: int)
    requires n > 0 && m > 0 && TwiddledPart(W, n, x, d0, d, o, r, m, s, i, r)
    ensures Twiddled(W, n, x, d0, d, o, r, m, s, i, i + 1)
  {
    forall p | 0 <= p < |d|
      ensures if InColumns(p, o, r, m, i, i + 1) then TwiddledAt(W, n, x, d, o, r, m, s, p) else At(d, p) == At(d0, p)
    {
      hide Sum, Col, Row;
      if o <= p < o + r * m {
        Places(p, o, m, r);
      }
    }
  }

  lemma PowerIs(W: seq<Complex>, n: int, l0: int, q: int, e: int)
    requires n > 0 && Roots(W, n) && 0 <= l0 <= n && e == l0 + n * q
    ensures Power(W, n, e) == W[l0]
  {
    PowerTurns(W, n, l0, q);
    if l0 == n {
      ModUnique(n, 1, 0, n);
    } else {
      ModUnique(l0, 0, l0, n);
    }
  }

  /** The exponent l0 that the j-th round of the twiddle loop meets. It wraps when it exceeds nW, so it stays within
      0..nW; at nW it meets W[nW], which is 1 as W[0] is. */
  function Index(nW: int, l1: int, j: int): (l0: int)
    requires 0 <= l1 < nW
    ensures 0 <= l0 <= nW
  {
    if j <= 0 then 0
    else
      var l0 := Index(nW, l1, j - 1) + l1;
      if l0 > nW then l0 - nW else l0
  }

  /** How often it has wrapped by then. */
  ghost function Turns(nW: int, l1: int, j: int): int
    requires 0 <= l1 < nW
  {
    if j <= 0 then 0 else Turns(nW, l1, j - 1) + if Index(nW, l1, j - 1) + l1 > nW then 1 else 0
  }

  lemma {:induction false} IndexWinds(nW: int, l1: int, j: int)
    requires 0 <= l1 < nW && 0 <= j
    ensures l1 * j == Index(nW, l1, j) + nW * Turns(nW, l1, j)
    decreases j
  {
    if j > 0 {
      IndexWinds(nW, l1, j - 1);
      hide *;
      OneMore(l1, j - 1, Index(nW, l1, j - 1), nW, Turns(nW, l1, j - 1));
      IndexNext(nW, l1, j);
    }
  }

  lemma IndexNext(nW: int, l1: int, j: int)
    requires 0 <= l1 < nW && 0 < j
    ensures var l0 := Index(nW, l1, j - 1) + l1;
            if l0 > nW then Index(nW, l1, j) == l0 - nW && Turns(nW, l1, j) == Turns(nW, l1, j - 1) + 1
            else Index(nW, l1, j) == l0 && Turns(nW, l1, j) == Turns(nW, l1, j - 1)
  {
  }

  lemma OneMore(l1: int, j: int, l0: int, n: int, q: int)
    requires l1 * j == l0 + n * q
    ensures l1 * (j + 1) == l0 + l1 + n * q == l0 + l1 - n + n * (q + 1)
  {
  }

  /** l0 += l1 is a sum of ints. With i, k and j in the ranges of the loops it fits an int, before it wraps, if and
      only if there are at most 2^30 roots. */
  lemma TwiddleSumsFitExactly(nW: int, r: int, m: int)
    requires r >= 2 && m >= 1 && nW == r * m
    ensures (forall i, k, j | 0 <= i < m && 0 <= k < r && 0 <= j < r :: SumFits(nW, m, i, k, j)) <==> nW <= MAX_SIZE
  {
    hide Reached;
    if nW <= MAX_SIZE {
      forall i, k, j | 0 <= i < m && 0 <= k < r && 0 <= j < r ensures SumFits(nW, m, i, k, j) {
        ReachedInRange(nW, r, m, i, k);
      }
    } else {
      ReachedInRange(nW, r, m, m - 1, r - 1);
      IndexStarts(nW, nW - 1);
      IndexNext(nW, nW - 1, 1);
      assert !SumFits(nW, m, m - 1, r - 1, 1);
    }
  }

  predicate SumFits(nW: int, m: int, i: int, k: int, j: int) {
    var l1 := Reached(i, m, k);
    0 <= l1 < nW && Index(nW, l1, j) + l1 <= INT_MAX
  }

  lemma ReachedInRange(nW: int, r: int, m: int, i: int, k: int)
    requires nW == r * m && 0 <= i < m && 0 <= k < r
    ensures 0 <= Reached(i, m, k) < nW && (i == m - 1 && k == r - 1 ==> Reached(i, m, k) == nW - 1)
  {
    InRange(0, m, i, k, r);
    if k == r - 1 {
      assert m * r == m * k + m;
    }
  }

  /** The inner loop of fft_twiddle_gen1. */
  method TwiddleSum(inp: array<Complex>, b: int, W: array<Complex>, r: int, m: int, nW: int, l1: int)
      returns (z: Complex)
    requires 0 < nW <= MAX_SIZE && Roots(W[..], nW) && 0 <= l1 < nW && 0 <= r && 0 < m && 0 <= b
    requires forall j | 0 <= j < r :: Reached(b, m, j) < inp.Length
    ensures z == Sum(W[..], nW, inp[..], b, m, 0, l1, r)
  {
    hide Roots, Power, Sum, Index, Turns;
    ghost var w, x := W[..], inp[..];
    WholeTurn(w, nW);
    var r0, i0 := 0.0, 0.0;
    var jp, l0 := b, 0;
    SumNone(w, nW, x, b, m, 0, l1);
    IndexStarts(nW, l1);
    for j := 0 to r
      invariant jp == Reached(b, m, j) && l0 == Index(nW, l1, j)
      invariant Complex(r0, i0) == Sum(w, nW, x, b, m, 0, l1, j)
    {
      assert Reached(b, m, j) < inp.Length && 0 <= jp by { Multiple(m, j); }
      IndexWinds(nW, l1, j);
      PowerIs(w, nW, l0, Turns(nW, l1, j), 0 + l1 * j);
      SumLast(w, nW, x, b, m, 0, l1, j);
      var rw, iw := W[l0].re, W[l0].im;
      var rt, it := inp[jp].re, inp[jp].im;
      r0 := r0 + (rt * rw - it * iw);
      i0 := i0 + (rt * iw + it * rw);
      assert l0 + l1 <= INT_MAX;
      IndexNext(nW, l1, j + 1);
      l0 := l0 + l1;
      if l0 > nW {
        l0 := l0 - nW;
      }
      jp := jp + m;
    }
    z := Complex(r0, i0);
  }

  lemma IndexStarts(nW: int, l1: int)
    requires 0 <= l1 < nW
    ensures Index(nW, l1, 0) == 0
  {
  }

  function Reached(b: int, m: int, j: int): int {
    b + m * j
  }

  lemma WholeTurn(W: seq<Complex>, n: int)
    requires n > 0 && Roots(W, n)
    ensures |W| == n + 1
  {
  }

  lemma SumNone(W: seq<Complex>, n: int, x: seq<Complex>, b: int, d: int, e0: int, e: int)
    requires n > 0
    ensures Sum(W, n, x, b, d, e0, e, 0) == ZERO
  {
  }

  /** The sizes of a stretch of r rows of m, whose root is the s-th among nW. */
  predicate Sized(nW: int, s: int, r: int, m: int) {
    0 < r && 0 < m && 0 < s && nW == s * (r * m) && nW <= MAX_SIZE
  }

  lemma RootInRange(nW: int, s: int, r: int, m: int, i: int, k: int)
    requires Sized(nW, s, r, m) && 0 <= i < m && 0 <= k < r
    ensures 0 <= s * i + s * m * k < nW <= MAX_SIZE && s * i + s * m * k == s * (i + m * k)
  {
    InRange(0, m, i, k, r);
    Factored(s, i, m, k);
    Bounded(s, i + m * k, r * m);
  }

  lemma Factored(s: int, i: int, m: int, k: int)
    ensures s * i + s * m * k == s * (i + m * k)
  {
    assert s * m * k == s * (m * k);
  }

  lemma Bounded(s: int, a: int, b: int)
    requires 0 < s && 0 <= a < b
    ensures 0 <= s * a < s * b
  {
    assert s * b == s * a + s * (b - a);
    Multiple(s, b - a);
  }

  lemma RowsInRange(o: int, m: int, i: int, r: int, length: int, b: int)
    requires 0 <= i < m && 0 < r && o + r * m <= length && b == o + i
    ensures forall j | 0 <= j < r :: Reached(b, m, j) < length
  {
    forall j | 0 <= j < r ensures Reached(b, m, j) < length {
      InRange(o, m, i, j, r);
    }
  }

  lemma ReachedNext(b: int, m: int, j: int)
    ensures Reached(b, m, j) + m == Reached(b, m, j + 1) && Reached(b, m, 0) == b
  {
  }

  /** fft_twiddle_gen1: one column of twiddle sums. */
  method TwiddleGen1(inp: array<Complex>, outp: array<Complex>, o: int, i: int, W: array<Complex>, r: int, m: int,
                     nW: int, nWdnti: int, nWdntm: int, ghost s: int)
    requires inp != outp && W != outp && nW > 0 && 0 < r && Sized(nW, s, r, m) && Roots(W[..], nW)
    requires 0 <= i < m && 0 <= o && o + r * m <= inp.Length && o + r * m <= outp.Length
    requires nWdnti == s * i && nWdntm == s * m
    modifies outp
    ensures Twiddled(W[..], nW, inp[..], old(outp[..]), outp[..], o, r, m, s, i, i + 1)
  {
    hide Roots, Sized, TwiddledPart, Twiddled, Sum, Reached;
    ghost var w, x, d0 := W[..], inp[..], outp[..];
    PartStart(w, nW, x, d0, o, r, m, s, i);
    var kp := o + i;
    ReachedNext(o + i, m, 0);
    for k := 0 to r
      invariant kp == Reached(o + i, m, k) && TwiddledPart(w, nW, x, d0, outp[..], o, r, m, s, i, k)
    {
      TwiddleElement(inp, outp, o, i, W, r, m, nW, nWdnti + nWdntm * k, kp, s, k, d0);
      ReachedNext(o + i, m, k);
      kp := kp + m;
    }
    TwiddledPartEnds(w, nW, x, d0, outp[..], o, r, m, s, i);
  }

  method TwiddleElement(inp: array<Complex>, outp: array<Complex>, o: int, i: int, W: array<Complex>, r: int, m: int,
                        nW: int, l1: int, kp: int, ghost s: int, ghost k: int, ghost d0: seq<Complex>)
    requires inp != outp && W != outp && nW > 0 && Sized(nW, s, r, m) && Roots(W[..], nW)
    requires 0 <= i < m && 0 <= o && o + r * m <= inp.Length && o + r * m <= outp.Length
    requires 0 <= k < r && l1 == s * i + s * m * k && kp == Reached(o + i, m, k)
    requires TwiddledPart(W[..], nW, inp[..], d0, outp[..], o, r, m, s, i, k)
    modifies outp
    ensures TwiddledPart(W[..], nW, inp[..], d0, outp[..], o, r, m, s, i, k + 1)
  {
    hide Roots, Sized, TwiddledPart, Sum;
    ghost var w, x, d := W[..], inp[..], outp[..];
    RootInRange(nW, s, r, m, i, k);
    InRange(o, m, i, k, r);
    RowsInRange(o, m, i, r, inp.Length, o + i);
    assert l1 == s * (kp - o);
    hide Reached;
    var z := TwiddleSum(inp, o + i, W, r, m, nW, l1);
    outp[kp] := z;
    assert outp[..] == d[kp := z];
    TwiddledPartStep(w, nW, x, d0, d, outp[..], o, r, m, s, i, k, kp);
  }

  lemma PartStart(W: seq<Complex>, n: int, x: seq<Complex>, d0: seq<Complex>, o: int, r: int, m: int, s: int, i: int)
    requires n > 0 && m > 0
    ensures TwiddledPart(W, n, x, d0, d0, o, r, m, s, i, 0)
  {
    forall p | 0 <= p < |d0| && InColumns(p, o, r, m, i, i + 1) ensures Row(p, o, m) >= 0 {
      Places(p, o, m, r);
    }
  }

  function Mid(a: int, b: int): (c: int)
    requires a + 1 < b
    ensures a < c < b
  {
    (a + b) / 2
  }

  lemma TwiddledJoins(W: seq<Complex>, n: int, x: seq<Complex>, d0: seq<Complex>, d1: seq<Complex>, d: seq<Complex>,
                      o: int, r: int, m: int, s: int, a: int, c: int, b: int)
    requires n > 0 && m > 0 && a <= c <= b
    requires Twiddled(W, n, x, d0, d1, o, r, m, s, a, c) && Twiddled(W, n, x, d1, d, o, r, m, s, c, b)
    ensures Twiddled(W, n, x, d0, d, o, r, m, s, a, b)
  {
    forall p | 0 <= p < |d|
      ensures if InColumns(p, o, r, m, a, b) then TwiddledAt(W, n, x, d, o, r, m, s, p) else At(d, p) == At(d0, p)
    {
      hide Sum, Col;
      assert if InColumns(p, o, r, m, a, c) then TwiddledAt(W, n, x, d1, o, r, m, s, p) else At(d1, p) == At(d0, p);
    }
  }

  /** fft_twiddle_gen: the columns from i to i1 - 1. */
  method TwiddleGen(i: int, i1: int, inp: array<Complex>, outp: array<Complex>, o: int, W: array<Complex>, nW: int,
                    nWdn: int, r: int, m: int)
    requires inp != outp && W != outp && nW > 0 && 0 < r && Sized(nW, nWdn, r, m) && Roots(W[..], nW)
    requires 0 <= i < i1 <= m && 0 <= o && o + r * m <= inp.Length && o + r * m <= outp.Length
    modifies outp
    ensures Twiddled(W[..], nW, inp[..], old(outp[..]), outp[..], o, r, m, nWdn, i, i1)
    decreases i1 - i
  {
    hide Roots, Sized, Twiddled, Mid;
    if i == i1 - 1 {
      TwiddleGen1(inp, outp, o, i, W, r, m, nW, nWdn * i, nWdn * m, nWdn);
      return;
    }

    ghost var w, x, d0 := W[..], inp[..], outp[..];
    var i2 := Mid(i, i1);
    TwiddleGen(i, i2, inp, outp, o, W, nW, nWdn, r, m);
    ghost var d1 := outp[..];
    TwiddleGen(i2, i1, inp, outp, o, W, nW, nWdn, r, m);
    TwiddledJoins(w, nW, x, d0, d1, outp[..], o, r, m, nWdn, i, i2, i1);
  }

  // ---------------------------------------------------------------------------------------------
  // Unshuffle
  // ---------------------------------------------------------------------------------------------

  /** Position p of the output, in row j and column i, holds element j of group i of the input. */
  ghost predicate ShuffledAt(x: seq<Complex>, d: seq<Complex>, o: int, r: int, m: int, p: int)
    requires m > 0
  {
    At(d, p) == At(x, o + Row(p, o, m) + r * Col(p, o, m))
  }

  ghost predicate Shuffled(x: seq<Complex>, d0: seq<Complex>, d: seq<Complex>, o: int, r: int, m: int, a: int, b: int)
    requires m > 0
  {
    && |d| == |d0|
    && forall p | 0 <= p < |d| ::
         if InColumns(p, o, r, m, a, b) then ShuffledAt(x, d, o, r, m, p) else At(d, p) == At(d0, p)
  }

  /** The columns before i are done, and of column i the first j elements. */
  ghost predicate ShuffledPart(x: seq<Complex>, d0: seq<Complex>, d: seq<Complex>, o: int, r: int, m: int, a: int,
                               i: int, j: int)
    requires m > 0
  {
    && |d| == |d0|
    && forall p | 0 <= p < |d| ::
         if InColumns(p, o, r, m, a, i) || (InColumns(p, o, r, m, i, i + 1) && Row(p, o, m) < j)
         then ShuffledAt(x, d, o, r, m, p)
         else At(d, p) == At(d0, p)
  }

  lemma ShuffledStep(x: seq<Complex>, d0: seq<Complex>, d: seq<Complex>, e: seq<Complex>, o: int, r: int, m: int,
                     a: int, i: int, j: int, q: int)
    requires 0 <= a <= i < m && 0 <= j < r && ShuffledPart(x, d0, d, o, r, m, a, i, j)
    requires q == o + i + m * j && 0 <= q < |d| && e == d[q := At(x, o + j + r * i)]
    ensures ShuffledPart(x, d0, e, o, r, m, a, i, j + 1)
  {
    Placed(o, m, i, j);
    InRange(o, m, i, j, r);
    forall p | 0 <= p < |e|
      ensures if InColumns(p, o, r, m, a, i) || (InColumns(p, o, r, m, i, i + 1) && Row(p, o, m) < j + 1)
              then ShuffledAt(x, e, o, r, m, p) else At(e, p) == At(d0, p)
    {
      hide Col, Row;
      assert if InColumns(p, o, r, m, a, i) || (InColumns(p, o, r, m, i, i + 1) && Row(p, o, m) < j)
             then ShuffledAt(x, d, o, r, m, p) else At(d, p) == At(d0, p);
      if o <= p < o + r * m {
        Places(p, o, m, r);
      }
    }
  }

  lemma ShuffledColumn(x: seq<Complex>, d0: seq<Complex>, d: seq<Complex>, o: int, r: int, m: int, a: int, i: int)
    requires 0 <= a <= i < m && ShuffledPart(x, d0, d, o, r, m, a, i, r)
    ensures ShuffledPart(x, d0, d, o, r, m, a, i + 1, 0)
  {
    forall p | 0 <= p < |d|
      ensures if InColumns(p, o, r, m, a, i + 1) || (InColumns(p, o, r, m, i + 1, i + 2) && Row(p, o, m) < 0)
              then ShuffledAt(x, d, o, r, m, p) else At(d, p) == At(d0, p)
    {
      hide Col, Row;
      assert if InColumns(p, o, r, m, a, i) || (InColumns(p, o, r, m, i, i + 1) && Row(p, o, m) < r)
             then ShuffledAt(x, d, o, r, m, p) else At(d, p) == At(d0, p);
      if o <= p < o + r * m {
        Places(p, o, m, r);
      }
    }
  }

  lemma ShuffledEnds(x: seq<Complex>, d0: seq<Complex>, d: seq<Complex>, o: int, r: int, m: int, a: int, b: int)
    requires 0 <= a <= b <= m && 0 < m
    ensures ShuffledPart(x, d0, d0, o, r, m, a, a, 0)
    ensures ShuffledPart(x, d0, d, o, r, m, a, b, 0) ==> Shuffled(x, d0, d, o, r, m, a, b)
  {
    forall p | o <= p < o + r * m ensures 0 <= Row(p, o, m) {
      Places(p, o, m, r);
    }
  }

  /** One element goes to its place. */
  method Move(inp: array<Complex>, outp: array<Complex>, o: int, r: int, m: int, ip: int, jp: int,
              ghost d0: seq<Complex>, ghost a: int, ghost i: int, ghost j: int)
    requires inp != outp && 0 <= a <= i < m && 0 <= j < r && 0 <= o && o + r * m <= inp.Length
    requires o + r * m <= outp.Length
    requires ip == Reached(o + j, r, i) && jp == Reached(o + i, m, j)
    requires ShuffledPart(inp[..], d0, outp[..], o, r, m, a, i, j)
    modifies outp
    ensures ShuffledPart(inp[..], d0, outp[..], o, r, m, a, i, j + 1)
  {
    hide ShuffledPart;
    InRange(o, m, i, j, r);
    InRange(o, r, j, i, m);
    ghost var d := outp[..];
    outp[jp] := inp[ip];
    assert outp[..] == d[jp := At(inp[..], ip)];
    ShuffledStep(inp[..], d0, d, outp[..], o, r, m, a, i, j, jp);
  }

  /** The two loops that move one group: four elements at a time, then one. */
  method UnshuffleGroup(inp: array<Complex>, outp: array<Complex>, o: int, r: int, m: int, i: int, start: int,
                        ghost d0: seq<Complex>, ghost a: int)
    returns (ip: int)
    requires inp != outp && 0 <= a <= i < m && 0 < r && 0 <= o && o + r * m <= inp.Length && o + r * m <= outp.Length
    requires start == Reached(o, r, i) && ShuffledPart(inp[..], d0, outp[..], o, r, m, a, i, 0)
    modifies outp
    ensures ip == start + r && ShuffledPart(inp[..], d0, outp[..], o, r, m, a, i, r)
  {
    hide ShuffledPart, Reached;
    var r4 := r - r % 4;
    var jp, j := o + i, 0;
    ip := start;
    ReachedNext(o + i, m, 0);
    while j < r4
      invariant 0 <= j <= r4 && j % 4 == 0 && ip == start + j && jp == Reached(o + i, m, j)
      invariant ShuffledPart(inp[..], d0, outp[..], o, r, m, a, i, j)
    {
      MoveFour(inp, outp, o, r, m, ip, jp, d0, a, i, j);
      jp := jp + 4 * m;
      ip := ip + 4;
      j := j + 4;
    }
    while j < r
      invariant 0 <= j <= r && ip == start + j && jp == Reached(o + i, m, j)
      invariant ShuffledPart(inp[..], d0, outp[..], o, r, m, a, i, j)
    {
      MoveNext(inp, outp, o, r, m, ip, jp, d0, a, i, j);
      ip := ip + 1;
      jp := jp + m;
      j := j + 1;
    }
  }

  method MoveFour(inp: array<Complex>, outp: array<Complex>, o: int, r: int, m: int, ip: int, jp: int,
                  ghost d0: seq<Complex>, ghost a: int, ghost i: int, ghost j: int)
    requires inp != outp && 0 <= a <= i < m && 0 <= j <= r - 4 && 0 <= o && o + r * m <= inp.Length
    requires o + r * m <= outp.Length
    requires ip == Reached(o, r, i) + j && jp == Reached(o + i, m, j)
    requires ShuffledPart(inp[..], d0, outp[..], o, r, m, a, i, j)
    modifies outp
    ensures ShuffledPart(inp[..], d0, outp[..], o, r, m, a, i, j + 4) && jp + 4 * m == Reached(o + i, m, j + 4)
  {
    hide ShuffledPart, Reached;
    MoveNext(inp, outp, o, r, m, ip, jp, d0, a, i, j);
    MoveNext(inp, outp, o, r, m, ip + 1, jp + m, d0, a, i, j + 1);
    MoveNext(inp, outp, o, r, m, ip + 2, jp + 2 * m, d0, a, i, j + 2);
    MoveNext(inp, outp, o, r, m, ip + 3, jp + 3 * m, d0, a, i, j + 3);
  }

  method MoveNext(inp: array<Complex>, outp: array<Complex>, o: int, r: int, m: int, ip: int, jp: int,
                  ghost d0: seq<Complex>, ghost a: int, ghost i: int, ghost j: int)
    requires inp != outp && 0 <= a <= i < m && 0 <= j < r && 0 <= o && o + r * m <= inp.Length
    requires o + r * m <= outp.Length
    requires ip == Reached(o, r, i) + j && jp == Reached(o + i, m, j)
    requires ShuffledPart(inp[..], d0, outp[..], o, r, m, a, i, j)
    modifies outp
    ensures ShuffledPart(inp[..], d0, outp[..], o, r, m, a, i, j + 1) && jp + m == Reached(o + i, m, j + 1)
  {
    hide ShuffledPart;
    ReachedNext(o + i, m, j);
    Move(inp, outp, o, r, m, ip, jp, d0, a, i, j);
  }

  lemma ShuffledJoins(x: seq<Complex>, d0: seq<Complex>, d1: seq<Complex>, d: seq<Complex>, o: int, r: int, m: int,
                      a: int, c: int, b: int)
    requires m > 0 && a <= c <= b && Shuffled(x, d0, d1, o, r, m, a, c) && Shuffled(x, d1, d, o, r, m, c, b)
    ensures Shuffled(x, d0, d, o, r, m, a, b)
  {
    forall p | 0 <= p < |d|
      ensures if InColumns(p, o, r, m, a, b) then ShuffledAt(x, d, o, r, m, p) else At(d, p) == At(d0, p)
    {
      hide Col, Row;
      assert if InColumns(p, o, r, m, a, c) then ShuffledAt(x, d1, o, r, m, p) else At(d1, p) == At(d0, p);
    }
  }

  /** unshuffle: the groups from a to b - 1, of r elements each, become columns. */
  method Unshuffle(a: int, b: int, inp: array<Complex>, outp: array<Complex>, o: int, r: int, m: int)
    requires inp != outp && 0 <= a <= b <= m && 0 < m && 0 < r
    requires 0 <= o && o + r * m <= inp.Length && o + r * m <= outp.Length
    modifies outp
    ensures Shuffled(inp[..], old(outp[..]), outp[..], o, r, m, a, b)
    decreases b - a
  {
    hide Shuffled, ShuffledPart, Reached, Mid;
    ghost var x, d0 := inp[..], outp[..];
    if b - a < 16 {
      ShuffledEnds(x, d0, d0, o, r, m, a, b);
      var ip := o + a * r;
      StartOfGroup(o, r, a);
      for i := a to b
        invariant ip == Reached(o, r, i) && ShuffledPart(x, d0, outp[..], o, r, m, a, i, 0)
      {
        ip := UnshuffleGroup(inp, outp, o, r, m, i, ip, d0, a);
        ReachedNext(o, r, i);
        ShuffledColumn(x, d0, outp[..], o, r, m, a, i);
      }
      ShuffledEnds(x, d0, outp[..], o, r, m, a, b);
      return;
    }
    var ab := Mid(a, b);
    Unshuffle(a, ab, inp, outp, o, r, m);
    ghost var d1 := outp[..];
    Unshuffle(ab, b, inp, outp, o, r, m);
    ShuffledJoins(x, d0, d1, outp[..], o, r, m, a, ab, b);
  }

  lemma StartOfGroup(o: int, r: int, a: int)
    ensures o + a * r == Reached(o, r, a)
  {
  }

  // ---------------------------------------------------------------------------------------------
  // Factors
  // ---------------------------------------------------------------------------------------------

  /** A factor of n that fft_aux can split off: n itself, or a smaller one greater than 1. */
  predicate Splits(r: int, n: int) {
    0 < r <= n && n % r == 0 && (r == n || 1 < r)
  }

  function Quotient(n: int, r: int): (m: int)
    requires Splits(r, n)
    ensures n == r * m && 0 < m && (r < n ==> m < n) && (r == n ==> m == 1) && (n % 2 == 1 ==> m % 2 == 1 && r % 2 == 1)
  {
    var m := n / r;
    QuotientFacts(n, r, m);
    m
  }

  lemma QuotientFacts(n: int, r: int, m: int)
    requires Splits(r, n) && m == n / r
    ensures n == r * m && 0 < m && (r < n ==> m < n) && (r == n ==> m == 1) && (n % 2 == 1 ==> m % 2 == 1 && r % 2 == 1)
  {
    assert n == r * m;
    QuotientBounds(n, r, m);
    EvenProduct(r, m);
    EvenProduct(m, r);
    assert m * r == r * m;
  }

  lemma QuotientBounds(n: int, r: int, m: int)
    requires 0 < r <= n && n == r * m && (r == n || 1 < r)
    ensures 0 < m && (r < n ==> m < n) && (r == n ==> m == 1)
  {
    Multiple(r, m);
    Multiple(r, m - 1);
    assert r * (m - 1) == n - r;
    if r < n {
      Multiple(m, r - 1);
      assert m * (r - 1) == n - m;
    }
  }

  lemma EvenProduct(d: int, q: int)
    ensures d % 2 == 0 ==> d * q % 2 == 0
  {
    var h := d / 2;
    if d % 2 == 0 {
      assert d * q == 2 * (h * q);
    }
  }

  /** The list from fi on multiplies up to n, factor by factor, and fft_aux never runs off its end. */
  predicate FactorList(fs: seq<int>, fi: int, n: int)
    decreases n
  {
    && 0 <= fi < |fs| && Splits(fs[fi], n)
    && (fs[fi] < n ==> FactorList(fs, fi + 1, Quotient(n, fs[fi])))
  }

  /** The radix for an even size: 8 for some powers of two, else the greatest of 16, 8, 4 and 2 that divides it. */
  predicate IsRadix(n: int, r: int) {
    if n == 64 || n == 128 || n == 256 || n == 1024 || n == 2048 || n == 4096 then r == 8
    else (r == 2 || r == 4 || r == 8 || r == 16) && n % r == 0 && (r < 16 ==> n % (2 * r) != 0)
  }

  /** factor: powers of two first, else the smallest divisor. */
  method Factor(n: int) returns (r: int)
    requires n >= 1
    ensures Splits(r, n) && (n > 1 ==> r > 1)
    ensures n % 2 == 1 ==> forall d | 1 < d < r :: n % d != 0
    ensures n % 2 == 0 ==> IsRadix(n, r)
  {
    if n < 2 { return 1; }
    if n == 64 || n == 128 || n == 256 || n == 1024 || n == 2048 || n == 4096 { return 8; }
    if n % 16 == 0 { return 16; }
    if n % 8 == 0 { return 8; }
    if n % 4 == 0 { return 4; }
    if n % 2 == 0 { return 2; }
    r := OddFactor(n);
  }

  /** The last loop of factor tries odd numbers only: an even one cannot divide an odd n. */
  method OddFactor(n: int) returns (r: int)
    requires n >= 3 && n % 2 == 1
    ensures Splits(r, n) && r > 1
    ensures forall d | 1 < d < r :: n % d != 0
  {
    r := 3;
    while r < n
      invariant r % 2 == 1 && 3 <= r <= n
      invariant forall d | 1 < d < r :: n % d != 0
    {
      if n % r == 0 { return; }
      EvenDoesNotDivide(n, r + 1);
      r := r + 2;
    }
    ModUnique(n, 1, 0, n);
  }

  lemma EvenDoesNotDivide(n: int, d: int)
    requires n % 2 == 1 && d % 2 == 0 && d > 0
    ensures n % d != 0
  {
    EvenProduct(d, n / d);
    assert n == d * (n / d) + n % d;
  }

  /** The first p factors have been found, and l is left of n. */
  predicate Chain(fs: seq<int>, a: int, p: int, n: int, l: int)
    decreases p - a
  {
    if a >= p then a == p && n == l
    else 0 <= a < |fs| && Splits(fs[a], n) && 1 < fs[a] < n && Chain(fs, a + 1, p, Quotient(n, fs[a]), l)
  }

  lemma {:induction false} ChainExtends(fs: seq<int>, fs': seq<int>, a: int, p: int, n: int, l: int)
    requires 0 <= a <= p < |fs| == |fs'| && Chain(fs, a, p, n, l) && Splits(fs'[p], l)
    requires forall i | 0 <= i < p :: fs'[i] == fs[i]
    ensures fs'[p] < l && 1 < fs'[p] ==> Chain(fs', a, p + 1, n, Quotient(l, fs'[p]))
    ensures fs'[p] == l ==> FactorList(fs', a, n)
    decreases p - a
  {
    if a < p {
      ChainExtends(fs, fs', a + 1, p, Quotient(n, fs[a]), l);
    }
  }

  /** Thirty-one factors of at least 2 exceed every int. */
  lemma {:induction false} ManyFactors(k: nat)
    requires k >= 31
    ensures Pow2(k) > INT_MAX
    decreases k
  {
    if k == 31 {
      assert Pow2(8) == 0x100 && Pow2(16) == 0x1_0000 && Pow2(24) == 0x100_0000;
    } else {
      ManyFactors(k - 1);
    }
  }

  lemma PowerGrows(p: nat, r: int, m: int, n: int)
    requires Pow2(p) * (r * m) <= n && 2 <= r && 0 < m
    ensures Pow2(p + 1) * m <= n
  {
    hide Pow2;
    TwiceOfMany(Pow2(p), r, m);
    assert Pow2(p + 1) == 2 * Pow2(p) by { PowerStep(p); }
  }

  lemma PowerStep(p: nat)
    ensures Pow2(p + 1) == 2 * Pow2(p) > 0
  {
  }

  lemma TwiceOfMany(x: int, r: int, m: int)
    requires 0 < x && 2 <= r && 0 < m
    ensures 2 * x * m <= x * (r * m)
  {
    Multiple(x, m);
    Multiple(x * m, r - 2);
    assert x * (r * m) == x * m * 2 + x * m * (r - 2);
  }

  // ---------------------------------------------------------------------------------------------
  // The transform
  // ---------------------------------------------------------------------------------------------

  /** d holds the transform of the size elements of x from o on, and elsewhere what d0 held. */
  ghost predicate Transformed(W: seq<Complex>, n: int, x: seq<Complex>, d0: seq<Complex>, d: seq<Complex>, o: int,
                              size: int, s: int)
    requires n > 0
  {
    && |d| == |d0|
    && forall p | 0 <= p < |d| ::
         At(d, p) == if o <= p < o + size then Dft(W, n, x, o, size, s, p - o) else At(d0, p)
  }

  ghost predicate KeptOutside(d0: seq<Complex>, d: seq<Complex>, o: int, size: int) {
    |d| == |d0| && forall p | 0 <= p < |d| && !(o <= p < o + size) :: At(d, p) == At(d0, p)
  }

  /** The first j0 of the small transforms are done. */
  ghost predicate SmallDone(W: seq<Complex>, n: int, x: seq<Complex>, y: seq<Complex>, o: int, r: int, m: int, s: int,
                            j0: int)
    requires n > 0
  {
    forall i, j | 0 <= i < m && 0 <= j < j0 :: SmallAt(W, n, x, y, o, r, m, s, i, j)
  }

  /** From the start of the j-th segment on, d is still u, the unshuffled input; and so it is outside. */
  ghost predicate LeftFrom(u: seq<Complex>, d: seq<Complex>, o: int, r: int, m: int, j: int) {
    && |d| == |u|
    && forall p | 0 <= p < |d| && !(o <= p < o + m * j) :: At(d, p) == At(u, p)
  }

  /** The transform of the j-th segment of the unshuffled input is that of the j-th column of the input. */
  lemma SegmentIsColumn(W: seq<Complex>, n: int, x: seq<Complex>, u0: seq<Complex>, u: seq<Complex>, d: seq<Complex>,
                        o: int, r: int, m: int, s: int, i: int, j: int, b: int)
    requires n > 0 && 0 <= i < m && 0 <= j < r && Shuffled(x, u0, u, o, r, m, 0, m) && LeftFrom(u, d, o, r, m, j)
    requires 0 <= o && o + r * m <= |u| && b == o + m * j
    ensures Dft(W, n, d, b, m, s * r, i) == Sum(W, n, x, o + j, r, 0, s * r * i, m)
  {
    hide Shuffled, LeftFrom, Sum, Term;
    forall t | 0 <= t < m ensures Term(d, b, 1, t) == Term(x, o + j, r, t) {
      SegmentTerm(x, u0, u, d, o, r, m, j, t, b);
    }
    SumSame(W, n, d, b, 1, 0, s * r * i, x, o + j, r, m);
  }

  lemma SegmentTerm(x: seq<Complex>, u0: seq<Complex>, u: seq<Complex>, d: seq<Complex>, o: int, r: int, m: int,
                    j: int, t: int, b: int)
    requires 0 <= t < m && 0 <= j < r && Shuffled(x, u0, u, o, r, m, 0, m) && LeftFrom(u, d, o, r, m, j)
    requires 0 <= o && o + r * m <= |u| && b == o + m * j
    ensures Term(d, b, 1, t) == Term(x, o + j, r, t)
  {
    var p := o + t + m * j;
    Placed(o, m, t, j);
    InRange(o, m, t, j, r);
    hide Col, Row;
    assert InColumns(p, o, r, m, 0, m) && ShuffledAt(x, u, o, r, m, p);
    assert At(d, p) == At(u, p);
  }

  /** One more small transform is done. */
  lemma SmallStep(W: seq<Complex>, n: int, x: seq<Complex>, u0: seq<Complex>, u: seq<Complex>, d: seq<Complex>,
                  y: seq<Complex>, y': seq<Complex>, o: int, r: int, m: int, s: int, j: int, b: int)
    requires n > 0 && 0 < m && 0 <= j < r && Shuffled(x, u0, u, o, r, m, 0, m) && LeftFrom(u, d, o, r, m, j)
    requires 0 <= o && o + r * m <= |u| && o + r * m <= |y| && b == o + m * j
    requires SmallDone(W, n, x, y, o, r, m, s, j) && Transformed(W, n, d, y, y', b, m, s * r)
    ensures SmallDone(W, n, x, y', o, r, m, s, j + 1)
  {
    forall i, k | 0 <= i < m && 0 <= k < j + 1 ensures SmallAt(W, n, x, y', o, r, m, s, i, k) {
      SmallStepAt(W, n, x, u0, u, d, y, y', o, r, m, s, j, b, i, k);
    }
  }

  lemma SmallStepAt(W: seq<Complex>, n: int, x: seq<Complex>, u0: seq<Complex>, u: seq<Complex>, d: seq<Complex>,
                    y: seq<Complex>, y': seq<Complex>, o: int, r: int, m: int, s: int, j: int, b: int, i: int, k: int)
    requires n > 0 && 0 <= i < m && 0 <= k <= j < r && Shuffled(x, u0, u, o, r, m, 0, m) && LeftFrom(u, d, o, r, m, j)
    requires 0 <= o && o + r * m <= |u| && o + r * m <= |y| && b == o + m * j
    requires k < j ==> SmallAt(W, n, x, y, o, r, m, s, i, k)
    requires Transformed(W, n, d, y, y', b, m, s * r)
    ensures SmallAt(W, n, x, y', o, r, m, s, i, k)
  {
    hide Sum, Shuffled, LeftFrom;
    InRange(o, m, i, k, r);
    if k < j {
      Multiple(m, j - k);
      assert m * j == m * k + m * (j - k);
      assert At(y', o + i + m * k) == At(y, o + i + m * k);
    } else {
      assert At(y', b + i) == Dft(W, n, d, b, m, s * r, i);
      SegmentIsColumn(W, n, x, u0, u, d, o, r, m, s, i, j, b);
    }
  }

  /** The twiddle sums over the small transforms are the transform. */
  lemma TransformDone(W: seq<Complex>, n: int, x: seq<Complex>, y: seq<Complex>, d0: seq<Complex>, d1: seq<Complex>,
                      d: seq<Complex>, o: int, r: int, m: int, s: int)
    requires n > 0 && Roots(W, n) && Sized(n, s, r, m)
    requires SmallDone(W, n, x, y, o, r, m, s, r) && Twiddled(W, n, y, d1, d, o, r, m, s, 0, m)
    requires KeptOutside(d0, d1, o, r * m)
    ensures Transformed(W, n, x, d0, d, o, r * m, s)
  {
    hide Roots, Sum, Dft;
    forall p | 0 <= p < |d|
      ensures At(d, p) == if o <= p < o + r * m then Dft(W, n, x, o, r * m, s, p - o) else At(d0, p)
    {
      if o <= p < o + r * m {
        Places(p, o, m, r);
        TwiddledIsDft(W, n, x, y, d, o, r, m, s, p);
      }
    }
  }

  lemma TwiddledIsDft(W: seq<Complex>, n: int, x: seq<Complex>, y: seq<Complex>, d: seq<Complex>, o: int, r: int,
                      m: int, s: int, p: int)
    requires n > 0 && Roots(W, n) && Sized(n, s, r, m) && o <= p < o + r * m
    requires SmallDone(W, n, x, y, o, r, m, s, r) && TwiddledAt(W, n, y, d, o, r, m, s, p)
    ensures At(d, p) == Dft(W, n, x, o, r * m, s, p - o)
  {
    hide Roots, Sum, Dft, Col, Row, SmallAt;
    Places(p, o, m, r);
    var i, k := Col(p, o, m), Row(p, o, m);
    assert forall j | 0 <= j < r :: SmallAt(W, n, x, y, o, r, m, s, i, j);
    CooleyTukey(W, n, x, y, o, r, m, s, i, k);
    assert p - o == i + m * k;
  }

  lemma StepOf(nW: int, s: int, size: int)
    requires 0 < size && nW == s * size
    ensures nW / size == s
  {
    ModUnique(nW, s, 0, size);
  }

  /** fft_aux for an odd size: out gets the transform of in, whose part is overwritten on the way. */
  method FftAux(n: int, inp: array<Complex>, outp: array<Complex>, o: int, factors: array<int>, fi: int,
                W: array<Complex>, nW: int, ghost s: int)
    requires inp != outp && W != outp && W != inp && 0 < n && n % 2 == 1 && 0 < nW && Roots(W[..], nW)
    requires 0 < s && nW == s * n && nW <= MAX_SIZE && FactorList(factors[..], fi, n)
    requires 0 <= o && o + n <= inp.Length && o + n <= outp.Length
    modifies inp, outp
    ensures Transformed(W[..], nW, old(inp[..]), old(outp[..]), outp[..], o, n, s)
    ensures KeptOutside(old(inp[..]), inp[..], o, n)
    decreases n, 1
  {
    var r := factors[fi];
    var m := Quotient(n, r);
    StepOf(nW, s, n);
    if r < n {
      FftSplit(n, inp, outp, o, factors, fi, W, nW, r, m, s);
    } else {
      ghost var w, x, d0 := W[..], inp[..], outp[..];
      hide Roots, Twiddled, Transformed;
      TwiddleGen(0, m, inp, outp, o, W, nW, nW / n, r, m);
    }
  }

  /** The recursive case: unshuffle into out, transform the segments back into in, and combine. */
  method FftSplit(n: int, inp: array<Complex>, outp: array<Complex>, o: int, factors: array<int>, fi: int,
                  W: array<Complex>, nW: int, r: int, m: int, ghost s: int)
    requires inp != outp && W != outp && W != inp && 0 < n && n % 2 == 1 && 0 < nW && Roots(W[..], nW)
    requires 0 < s && nW == s * n && nW <= MAX_SIZE && FactorList(factors[..], fi, n)
    requires r == factors[fi] < n && m == Quotient(n, r)
    requires 0 <= o && o + n <= inp.Length && o + n <= outp.Length
    modifies inp, outp
    ensures Transformed(W[..], nW, old(inp[..]), old(outp[..]), outp[..], o, n, s)
    ensures KeptOutside(old(inp[..]), inp[..], o, n)
    decreases n, 0
  {
    ghost var w, x, d0 := W[..], inp[..], outp[..];
    assert Sized(nW, s, r, m) && FactorList(factors[..], fi + 1, m) && r * m == n && m < n && m % 2 == 1;
    hide Roots, Twiddled, Transformed, Shuffled, SmallDone, LeftFrom, KeptOutside, FactorList, Quotient, Sized, Splits;
    Unshuffle(0, m, inp, outp, o, r, m);
    ghost var u := outp[..];
    FftSegments(inp, outp, o, factors, fi + 1, W, nW, r, m, s, x, d0, u);
    ghost var y, d1 := inp[..], outp[..];
    LeftKept(d0, u, d1, o, r, m);
    StepOf(nW, s, n);
    TwiddleGen(0, m, inp, outp, o, W, nW, nW / n, r, m);
    TransformDone(w, nW, x, y, d0, d1, outp[..], o, r, m, s);
  }

  lemma LeftKept(d0: seq<Complex>, u: seq<Complex>, d1: seq<Complex>, o: int, r: int, m: int)
    requires KeptOutside(d0, u, o, r * m) && LeftFrom(u, d1, o, r, m, r)
    ensures KeptOutside(d0, d1, o, r * m)
  {
    assert r * m == m * r;
  }

  /** The r small transforms, from out back into in. */
  method FftSegments(inp: array<Complex>, outp: array<Complex>, o: int, factors: array<int>, fi: int,
                     W: array<Complex>, nW: int, r: int, m: int, ghost s: int, ghost x: seq<Complex>,
                     ghost d0: seq<Complex>, ghost u: seq<Complex>)
    requires inp != outp && W != outp && W != inp && 0 < m && m % 2 == 1 && 0 < r && 0 < nW && Roots(W[..], nW)
    requires Sized(nW, s, r, m) && FactorList(factors[..], fi, m)
    requires 0 <= o && o + r * m <= inp.Length && o + r * m <= outp.Length
    requires x == inp[..] && u == outp[..] && Shuffled(x, d0, u, o, r, m, 0, m)
    modifies inp, outp
    ensures SmallDone(W[..], nW, x, inp[..], o, r, m, s, r) && LeftFrom(u, outp[..], o, r, m, r)
    ensures KeptOutside(x, inp[..], o, r * m)
    decreases m, 3
  {
    hide Roots, Transformed, Shuffled, LeftFrom, KeptOutside, FactorList, Sized, Reached, SmallAt;
    ghost var w := W[..];
    SegmentsStart(x, u, o, r, m);
    ReachedNext(o, m, 0);
    var k := 0;
    for j := 0 to r
      invariant o + k == Reached(o, m, j)
      invariant SmallDone(w, nW, x, inp[..], o, r, m, s, j) && LeftFrom(u, outp[..], o, r, m, j)
      invariant KeptOutside(x, inp[..], o, r * m)
    {
      FftSegment(inp, outp, o, factors, fi, W, nW, r, m, k, s, x, d0, u, j);
      ReachedNext(o, m, j);
      k := k + m;
    }
  }

  lemma SegmentsStart(x: seq<Complex>, u: seq<Complex>, o: int, r: int, m: int)
    ensures KeptOutside(x, x, o, r * m) && LeftFrom(u, u, o, r, m, 0)
  {
  }

  method FftSegment(inp: array<Complex>, outp: array<Complex>, o: int, factors: array<int>, fi: int,
                    W: array<Complex>, nW: int, r: int, m: int, k: int, ghost s: int, ghost x: seq<Complex>,
                    ghost d0: seq<Complex>, ghost u: seq<Complex>, ghost j: int)
    requires inp != outp && W != outp && W != inp && 0 < m && m % 2 == 1 && 0 < r && 0 < nW && Roots(W[..], nW)
    requires Sized(nW, s, r, m) && FactorList(factors[..], fi, m) && 0 <= j < r && o + k == Reached(o, m, j)
    requires 0 <= o && o + r * m <= inp.Length && o + r * m <= outp.Length && |u| == outp.Length && |x| == inp.Length
    requires Shuffled(x, d0, u, o, r, m, 0, m) && LeftFrom(u, outp[..], o, r, m, j)
    requires SmallDone(W[..], nW, x, inp[..], o, r, m, s, j) && KeptOutside(x, inp[..], o, r * m)
    modifies inp, outp
    ensures SmallDone(W[..], nW, x, inp[..], o, r, m, s, j + 1) && LeftFrom(u, outp[..], o, r, m, j + 1)
    ensures KeptOutside(x, inp[..], o, r * m)
    decreases m, 2
  {
    ghost var w, y, d, b := W[..], inp[..], outp[..], o + k;
    InRange(o, m, 0, j, r);
    InRange(o, m, m - 1, j, r);
    assert nW == s * r * m && 0 < s * r && b == o + m * j by { SegmentSize(nW, s, r, m); }
    hide Roots, Transformed, Shuffled, LeftFrom, KeptOutside, FactorList, Sized, Reached, SmallDone;
    assert o <= b && b + m <= o + r * m;
    FftAux(m, outp, inp, o + k, factors, fi, W, nW, s * r);
    SegmentDone(w, nW, x, d0, u, d, outp[..], y, inp[..], o, r, m, s, j, b);
  }

  lemma SegmentSize(nW: int, s: int, r: int, m: int)
    requires Sized(nW, s, r, m)
    ensures nW == s * r * m && 0 < s * r
  {
    assert s * (r * m) == s * r * m;
    Multiple(s, r);
  }

  lemma SegmentDone(W: seq<Complex>, n: int, x: seq<Complex>, u0: seq<Complex>, u: seq<Complex>, d: seq<Complex>,
                    d': seq<Complex>, y: seq<Complex>, y': seq<Complex>, o: int, r: int, m: int, s: int, j: int, b: int)
    requires n > 0 && 0 < m && 0 <= j < r && Shuffled(x, u0, u, o, r, m, 0, m) && LeftFrom(u, d, o, r, m, j)
    requires 0 <= o && o + r * m <= |u| && o + r * m <= |y| == |x| && b == o + m * j && o <= b && b + m <= o + r * m
    requires SmallDone(W, n, x, y, o, r, m, s, j) && Transformed(W, n, d, y, y', b, m, s * r)
    requires KeptOutside(d, d', b, m)
    requires KeptOutside(x, y, o, r * m)
    ensures SmallDone(W, n, x, y', o, r, m, s, j + 1) && LeftFrom(u, d', o, r, m, j + 1) && KeptOutside(x, y', o, r * m)
  {
    hide Dft;
    assert KeptOutside(x, y', o, r * m);
    hide *;
    SmallStep(W, n, x, u0, u, d, y, y', o, r, m, s, j, b);
  }

  /** cilk_fft for an odd size: the factors of n, then the transform.  W is the table that
      compute_w_coefficients fills. */
  method CilkFft(n: int, inp: array<Complex>, outp: array<Complex>, W: array<Complex>)
    requires inp != outp && W != outp && W != inp && 1 <= n <= MAX_SIZE && n % 2 == 1 && Roots(W[..], n)
    requires n <= inp.Length && n <= outp.Length
    modifies inp, outp
    ensures forall p | 0 <= p < n :: outp[p] == Dft(W[..], n, old(inp[..]), 0, n, 1, p)
    ensures forall p | n <= p < outp.Length :: outp[p] == old(outp[p])
  {
    hide Roots, Transformed, Dft;
    var factors := Factors(n);
    FftAux(n, inp, outp, 0, factors, 0, W, n, 1);
    TransformedElements(W[..], n, old(inp[..]), old(outp[..]), outp[..]);
    assert forall p | 0 <= p < outp.Length :: At(outp[..], p) == outp[p] && At(old(outp[..]), p) == old(outp[p]);
  }

  lemma TransformedElements(W: seq<Complex>, n: int, x: seq<Complex>, d0: seq<Complex>, d: seq<Complex>)
    requires n > 0 && Transformed(W, n, x, d0, d, 0, n, 1)
    ensures |d| == |d0| && forall p | 0 <= p < |d| :: At(d, p) == if p < n then Dft(W, n, x, 0, n, 1, p) else At(d0, p)
  {
  }

  /** p factors of at least 2 have been found, and l is left of n. */
  predicate Factoring(fs: seq<int>, p: int, n: int, l: int) {
    && |fs| == 40 && 0 <= p && Chain(fs, 0, p, n, l) && 1 <= l && Pow2(p) * l <= n
  }

  /** The list never gets as long as the array: 2^31 exceeds every int. */
  lemma RoomLeft(fs: seq<int>, p: int, n: int, l: int)
    requires Factoring(fs, p, n, l) && n <= INT_MAX
    ensures p < 31
  {
    TimesAtLeast(Pow2(p), l);
    if p >= 31 {
      ManyFactors(p);
    }
  }

  lemma TimesAtLeast(a: int, l: int)
    requires a > 0 && l >= 1
    ensures a * l >= a
  {
    Multiple(a, l - 1);
    assert a * (l - 1) == a * l - a;
  }

  lemma FactoringStep(fs: seq<int>, fs': seq<int>, p: int, n: int, l: int)
    requires Factoring(fs, p, n, l) && p < 40 && |fs'| == 40 && Splits(fs'[p], l) && (l > 1 ==> fs'[p] > 1)
    requires forall i | 0 <= i < p :: fs'[i] == fs[i]
    ensures var l' := Quotient(l, fs'[p]);
            if l' > 1 then Factoring(fs', p + 1, n, l') else l' == 1 && FactorList(fs', 0, n)
  {
    ChainExtends(fs, fs', 0, p, n, l);
    var r := fs'[p];
    var l' := Quotient(l, r);
    if r < l {
      SmallerQuotient(l, r, l');
      PowerGrows(p, r, l', n);
    }
  }

  lemma SmallerQuotient(l: int, r: int, m: int)
    requires l == r * m && 1 < r < l
    ensures m > 1
  {
    if m <= 1 { Multiple(r, 1 - m); }
  }

  /** The factor list of cilk_fft: 40 places are enough for any int. */
  method Factors(n: int) returns (factors: array<int>)
    requires 1 <= n <= INT_MAX
    ensures fresh(factors) && factors.Length == 40 && FactorList(factors[..], 0, n)
  {
    factors := new int[40];
    var l := n;
    assert Pow2(0) == 1 && Factoring(factors[..], 0, n, l);
    hide Splits, Quotient, FactorList, Factoring;
    var p := 0;
    l := NextFactor(factors, p, l, n);
    p := 1;
    while l > 1
      invariant 1 <= l && 1 <= p && if l > 1 then Factoring(factors[..], p, n, l) else FactorList(factors[..], 0, n)
      decreases l
    {
      l := NextFactor(factors, p, l, n);
      p := p + 1;
    }
  }

  method NextFactor(factors: array<int>, p: int, l: int, ghost n: int) returns (rest: int)
    requires factors.Length == 40 && 0 <= p && 1 <= l && n <= INT_MAX && Factoring(factors[..], p, n, l)
    modifies factors
    ensures 1 <= rest && (l > 1 ==> rest < l)
    ensures if rest > 1 then Factoring(factors[..], p + 1, n, rest) else FactorList(factors[..], 0, n)
  {
    hide FactorList, Factoring, Quotient;
    RoomLeft(factors[..], p, n, l);
    ghost var fs := factors[..];
    var r := Factor(l);
    factors[p] := r;
    FactoringStep(fs, factors[..], p, n, l);
    rest := Quotient(l, r);
  }

  // ---------------------------------------------------------------------------------------------
  // Spawned calls
  // ---------------------------------------------------------------------------------------------

  /** The two halves of a twiddle recursion read the input and write different columns, so their order does not
      matter. */
  lemma SpawnedTwiddlesCommute(W: seq<Complex>, n: int, x: seq<Complex>, d: seq<Complex>, e: seq<Complex>,
                               f: seq<Complex>, e': seq<Complex>, f': seq<Complex>, o: int, r: int, m: int, s: int,
                               a: int, c: int, b: int)
    requires n > 0 && m > 0 && a <= c <= b
    requires Twiddled(W, n, x, d, e, o, r, m, s, a, c) && Twiddled(W, n, x, e, f, o, r, m, s, c, b)
    requires Twiddled(W, n, x, d, e', o, r, m, s, c, b) && Twiddled(W, n, x, e', f', o, r, m, s, a, c)
    ensures f == f'
  {
    forall p | 0 <= p < |f| ensures At(f, p) == At(f', p) {
      hide Sum, Col, At;
      assert InColumns(p, o, r, m, a, c) ==>
          TwiddledAt(W, n, x, e, o, r, m, s, p) && TwiddledAt(W, n, x, f', o, r, m, s, p);
      assert InColumns(p, o, r, m, c, b) ==>
          TwiddledAt(W, n, x, f, o, r, m, s, p) && TwiddledAt(W, n, x, e', o, r, m, s, p);
    }
    SameElements(f, f');
  }

  lemma SameElements(f: seq<Complex>, g: seq<Complex>)
    requires |f| == |g| && forall p | 0 <= p < |f| :: At(f, p) == At(g, p)
    ensures f == g
  {
    forall p | 0 <= p < |f| ensures f[p] == g[p] {
      assert At(f, p) == At(g, p);
    }
  }

  /** So do the two halves of an unshuffling. */
  lemma SpawnedShufflesCommute(x: seq<Complex>, d: seq<Complex>, e: seq<Complex>, f: seq<Complex>, e': seq<Complex>,
                               f': seq<Complex>, o: int, r: int, m: int, a: int, c: int, b: int)
    requires m > 0 && a <= c <= b
    requires Shuffled(x, d, e, o, r, m, a, c) && Shuffled(x, e, f, o, r, m, c, b)
    requires Shuffled(x, d, e', o, r, m, c, b) && Shuffled(x, e', f', o, r, m, a, c)
    ensures f == f'
  {
    forall p | 0 <= p < |f| ensures At(f, p) == At(f', p) {
      hide Col, At;
      assert InColumns(p, o, r, m, a, c) ==> ShuffledAt(x, e, o, r, m, p) && ShuffledAt(x, f', o, r, m, p);
      assert InColumns(p, o, r, m, c, b) ==> ShuffledAt(x, f, o, r, m, p) && ShuffledAt(x, e', o, r, m, p);
    }
    SameElements(f, f');
  }

  /** A transform of the size elements from o on depends on those elements only. */
  lemma DftOfPart(W: seq<Complex>, n: int, x: seq<Complex>, x': seq<Complex>, o: int, size: int, step: int, p: int)
    requires n > 0 && forall k | o <= k < o + size :: At(x, k) == At(x', k)
    ensures Dft(W, n, x, o, size, step, p) == Dft(W, n, x', o, size, step, p)
  {
    hide At;
    SumSame(W, n, x, o, 1, 0, step * p, x', o, 1, size);
  }

  /** What fft_aux does to its two arrays: the transform goes to the second, and its part of the first is scratch. */
  ghost predicate SegmentCall(W: seq<Complex>, n: int, x: seq<Complex>, d: seq<Complex>, x': seq<Complex>,
                              d': seq<Complex>, o: int, size: int, s: int)
    requires n > 0
  {
    Transformed(W, n, x, d, d', o, size, s) && KeptOutside(x, x', o, size)
  }

  /** The transforms of two segments that are spawned together read and write their own segment of either array, so
      their order does not matter to the result. */
  lemma SpawnedSegmentsCommute(W: seq<Complex>, n: int, x: seq<Complex>, d: seq<Complex>, y: seq<Complex>,
                               e: seq<Complex>, z: seq<Complex>, f: seq<Complex>, y': seq<Complex>, e': seq<Complex>,
                               z': seq<Complex>, f': seq<Complex>, o: int, o': int, size: int, s: int)
    requires n > 0 && 0 <= o && 0 <= o' && o + size <= |x| && o' + size <= |x|
    requires o + size <= o' || o' + size <= o
    requires SegmentCall(W, n, x, d, y, e, o, size, s) && SegmentCall(W, n, y, e, z, f, o', size, s)
    requires SegmentCall(W, n, x, d, y', e', o', size, s) && SegmentCall(W, n, y', e', z', f', o, size, s)
    ensures f == f'
  {
    hide At, Dft;
    forall p | 0 <= p < |f| ensures At(f, p) == At(f', p) {
      DftOfPart(W, n, x, y', o, size, s, p - o);
      DftOfPart(W, n, x, y, o', size, s, p - o');
    }
    SameElements(f, f');
  }
}
