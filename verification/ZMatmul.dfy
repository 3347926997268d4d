/** The blocked Z-order layout of a square matrix, and the recursive product that works on it:
    blocks of Pow2(p) rows stand in Z-order, and inside a block the entries stand row by row. */
module ZMatmul {

  import opened Commons
  import ZOrder

  lemma {:induction false} Pow2Adds(p: nat, k: nat)
    ensures Pow2(p + k) == Pow2(p) * Pow2(k)
    decreases k
  {
    if k > 0 {
      Pow2Adds(p, k - 1);
      assert Pow2(p + k) == 2 * Pow2(p + (k - 1));
      assert Pow2(k) == 2 * Pow2(k - 1);
    }
  }

  function Area(n: int): int { n * n }

  lemma AreaOfTwice(h: int)
    ensures Area(2 * h) == 4 * Area(h)
  {
  }

  function Div(x: int, n: int): int
    requires n > 0
  {
    x / n
  }

  function Rem(x: int, n: int): int
    requires n > 0
  {
    x % n
  }

  lemma Divides(x: int, n: int)
    requires n > 0
    ensures x == n * Div(x, n) + Rem(x, n) && 0 <= Rem(x, n) < n && (x >= 0 ==> Div(x, n) >= 0)
  {
  }

  lemma DivMod(n: int, q: int, r: int)
    requires 0 <= r < n
    ensures Div(n * q + r, n) == q && Rem(n * q + r, n) == r
  {
    var x := n * q + r;
    Divides(x, n);
    var d, m := Div(x, n), Rem(x, n);
    assert n * d + m == n * q + r by { hide Div, Rem; }
    hide Div, Rem;
    SameParts(n, d, m, q, r);
  }

  lemma SameParts(n: int, q: int, r: int, q': int, r': int)
    requires n * q + r == n * q' + r' && 0 <= r < n && 0 <= r' < n
    ensures q == q' && r == r'
  {
    assert n * (q - q') == r' - r;
    if q > q' {
      Grows(n, q - q');
    } else if q < q' {
      Grows(n, q' - q);
    }
  }

  lemma Grows(n: int, d: int)
    requires n > 0 && d >= 1
    ensures n * d >= n
  {
  }

  /** A shift to the right of a number that is not negative. */
  function Shr(x: nat, p: nat): nat {
    Divides(x, Pow2(p));
    Div(x, Pow2(p))
  }

  /** A shift to the left. */
  function Shl(x: int, p: nat): int { x * Pow2(p) }

  /** block_convert, for base cases of Pow2(p) rows. */
  function BlockConvert(p: nat, row: nat, col: nat): int {
    Shl(ZOrder.ZConvert(Shr(row, p), Shr(col, p)) * Pow2(p), p)
      + Shl(row - Shl(Shr(row, p), p), p)
      + (col - Shl(Shr(col, p), p))
  }

  /** The layout as it is meant: a square is its four quadrants in turn, down to blocks by rows. */
  function Layout(p: nat, k: nat, row: int, col: int): int
    decreases k
  {
    if k == 0 then row * Pow2(p) + col else
      var h := Pow2(p + k - 1);
      Area(h) * Quadrant(h, row, col) + Layout(p, k - 1, Within(h, row), Within(h, col))
  }

  function Quadrant(h: int, row: int, col: int): (q: int)
    ensures 0 <= q < 4
  {
    (if row < h then 0 else 2) + (if col < h then 0 else 1)
  }

  function Within(h: int, x: int): int {
    if x < h then x else x - h
  }

  // ---------------------------------------------------------------------------------------------
  // The layout is a bijection
  // ---------------------------------------------------------------------------------------------

  lemma RowMajorFits(n: int, row: int, col: int)
    requires 0 <= row < n && 0 <= col < n
    ensures 0 <= row * n + col < n * n
    ensures Div(row * n + col, n) == row && Rem(row * n + col, n) == col
  {
    hide *;
    DivMod(n, row, col);
    assert row * n == n * row;
    LinesFit(n, row, col);
  }

  lemma LinesFit(n: int, row: int, col: int)
    requires 0 <= row < n && 0 <= col < n
    ensures 0 <= n * row + col < n * n
  {
    assert n * (n - 1) == n * n - n;
    assert n * row <= n * (n - 1);
  }

  lemma {:induction false} LayoutFits(p: nat, k: nat, row: int, col: int)
    requires 0 <= row < Pow2(p + k) && 0 <= col < Pow2(p + k)
    ensures 0 <= Layout(p, k, row, col) < Area(Pow2(p + k))
    decreases k
  {
    if k == 0 {
      RowMajorFits(Pow2(p), row, col);
    } else {
      var h := Pow2(p + k - 1);
      AreaOfTwice(h);
      LayoutFits(p, k - 1, Within(h, row), Within(h, col));
      hide Area, Layout;
      QuadrantFits(Area(h), Quadrant(h, row, col), Layout(p, k - 1, Within(h, row), Within(h, col)));
      LayoutStep(p, k, row, col);
    }
  }

  lemma LayoutStep(p: nat, k: nat, row: int, col: int)
    requires k > 0
    ensures Layout(p, k, row, col) == Area(Pow2(p + k - 1)) * Quadrant(Pow2(p + k - 1), row, col)
                                      + Layout(p, k - 1, Within(Pow2(p + k - 1), row), Within(Pow2(p + k - 1), col))
  {
  }

  lemma QuadrantFits(a: int, q: int, i: int)
    requires 0 <= q < 4 && 0 <= i < a
    ensures 0 <= a * q + i < 4 * a && Div(a * q + i, a) == q && Rem(a * q + i, a) == i
  {
    hide *;
    DivMod(a, q, i);
    assert a * q <= a * 3;
  }

  /** The row of an index of the layout. */
  function RowOf(p: nat, k: nat, i: int): int
    decreases k
  {
    if k == 0 then Div(i, Pow2(p)) else
      var h := Pow2(p + k - 1);
      AreaPositive(h);
      UpTo(h, Div(i, Area(h)) >= 2) + RowOf(p, k - 1, Rem(i, Area(h)))
  }

  function ColOf(p: nat, k: nat, i: int): int
    decreases k
  {
    if k == 0 then Rem(i, Pow2(p)) else
      var h := Pow2(p + k - 1);
      AreaPositive(h);
      UpTo(h, Div(i, Area(h)) == 1 || Div(i, Area(h)) == 3) + ColOf(p, k - 1, Rem(i, Area(h)))
  }

  function UpTo(h: int, second: bool): int { if second then h else 0 }

  lemma AreaPositive(h: int)
    requires h > 0
    ensures Area(h) > 0
  {
  }

  lemma {:induction false} LayoutIsInjective(p: nat, k: nat, row: int, col: int)
    requires 0 <= row < Pow2(p + k) && 0 <= col < Pow2(p + k)
    ensures RowOf(p, k, Layout(p, k, row, col)) == row && ColOf(p, k, Layout(p, k, row, col)) == col
    decreases k
  {
    if k == 0 {
      RowMajorFits(Pow2(p), row, col);
    } else {
      var h := Pow2(p + k - 1);
      assert Pow2(p + k) == 2 * h;
      var q, r, c := Quadrant(h, row, col), Within(h, row), Within(h, col);
      var i := Layout(p, k, row, col);
      hide Area, Layout, Div, Rem, RowOf, ColOf, Pow2;
      LayoutFits(p, k - 1, r, c);
      LayoutIsInjective(p, k - 1, r, c);
      LayoutStep(p, k, row, col);
      AreaPositive(h);
      QuadrantFits(Area(h), q, Layout(p, k - 1, r, c));
    }
  }

  lemma {:induction false} LayoutIsOnto(p: nat, k: nat, i: int)
    requires 0 <= i < Area(Pow2(p + k))
    ensures 0 <= RowOf(p, k, i) < Pow2(p + k) && 0 <= ColOf(p, k, i) < Pow2(p + k)
    ensures Layout(p, k, RowOf(p, k, i), ColOf(p, k, i)) == i
    decreases k
  {
    if k == 0 {
      RowMajorCells(Pow2(p), i);
    } else {
      var h := Pow2(p + k - 1);
      assert Pow2(p + k) == 2 * h;
      AreaOfTwice(h);
      AreaPositive(h);
      var a := Area(h);
      hide Area, Layout, Div, Rem, RowOf, ColOf, Pow2;
      QuadrantOf(a, i);
      LayoutIsOnto(p, k - 1, Rem(i, a));
      LayoutStep(p, k, RowOf(p, k, i), ColOf(p, k, i));
    }
  }

  lemma RowMajorCells(n: int, i: int)
    requires n > 0 && 0 <= i < n * n
    ensures 0 <= Div(i, n) < n && 0 <= Rem(i, n) < n && Div(i, n) * n + Rem(i, n) == i
  {
    hide *;
    Divides(i, n);
    var d := Div(i, n);
    assert n * d == d * n;
  }

  lemma QuadrantOf(a: int, i: int)
    requires a > 0 && 0 <= i < 4 * a
    ensures 0 <= Div(i, a) < 4 && 0 <= Rem(i, a) < a && a * Div(i, a) + Rem(i, a) == i
  {
    hide *;
    Divides(i, a);
  }

  // ---------------------------------------------------------------------------------------------
  // block_convert is the layout
  // ---------------------------------------------------------------------------------------------

  /** A bit in front of row and column is a quadrant of the Morton number. */
  lemma {:induction false} MortonQuadrant(j: nat, x: nat, y: nat, row: nat, col: nat, q: nat)
    requires x < Pow2(j) && y < Pow2(j) && q < 4
    requires row == x + UpTo(Pow2(j), q >= 2) && col == y + UpTo(Pow2(j), q == 1 || q == 3)
    ensures ZOrder.Morton(row, col) == ZOrder.Morton(x, y) + Area(Pow2(j)) * q
    decreases j
  {
    if j == 0 {
    } else {
      var n := Pow2(j - 1);
      assert Pow2(j) == 2 * n;
      AreaOfTwice(n);
      var a := Area(n);
      hide *;
      HalfOf(n, x, row, q >= 2);
      HalfOf(n, y, col, q == 1 || q == 3);
      MortonQuadrant(j - 1, x / 2, y / 2, row / 2, col / 2, q);
      MortonStep(x, y);
      MortonStep(row, col);
      FourTimes(ZOrder.Morton(x / 2, y / 2), a, q);
    }
  }

  lemma FourTimes(m: int, a: int, q: int)
    ensures 4 * (m + a * q) == 4 * m + 4 * a * q
  {
  }

  lemma HalfOf(n: nat, x: nat, y: nat, second: bool)
    requires x < 2 * n && y == x + UpTo(2 * n, second)
    ensures x / 2 < n && y / 2 == x / 2 + UpTo(n, second) && y % 2 == x % 2
  {
  }

  lemma MortonStep(x: nat, y: nat)
    ensures ZOrder.Morton(x, y) == 4 * ZOrder.Morton(x / 2, y / 2) + 2 * (x % 2) + y % 2
  {
  }

  /** A cell: the block by its Morton number, and the place in the block row by row. */
  function Cell(b: nat, row: nat, col: nat): int
    requires b > 0
  {
    Divides(row, b);
    Divides(col, b);
    Area(b) * ZOrder.Morton(Div(row, b), Div(col, b)) + Rem(row, b) * b + Rem(col, b)
  }

  lemma DivAdds(n: nat, x: nat, m: nat, y: nat)
    requires n > 0 && y == x + n * m
    ensures Div(y, n) == Div(x, n) + m && Rem(y, n) == Rem(x, n)
  {
    hide *;
    Divides(x, n);
    var d, r := Div(x, n), Rem(x, n);
    assert n * (d + m) == n * d + n * m;
    DivMod(n, d + m, r);
  }

  lemma DivBelow(n: nat, m: nat, x: nat)
    requires n > 0 && x < n * m
    ensures 0 <= Div(x, n) < m
  {
    hide *;
    Divides(x, n);
  }

  lemma Products(b: int, n: int, m: int, q: int, rest: int)
    ensures Area(b) * (m + Area(n) * q) + rest == Area(b * n) * q + (Area(b) * m + rest)
  {
  }

  lemma {:induction false} CellsAreTheLayout(p: nat, k: nat, row: nat, col: nat)
    requires row < Pow2(p + k) && col < Pow2(p + k)
    ensures Cell(Pow2(p), row, col) == Layout(p, k, row, col)
    decreases k
  {
    var b := Pow2(p);
    if k == 0 {
      CellsOfABlock(p, row, col);
    } else {
      var n, h := Pow2(k - 1), Pow2(p + k - 1);
      Pow2Adds(p, k - 1);
      assert Pow2(p + k) == 2 * h && h == b * n;
      hide *;
      var q, r, c := Quadrant(h, row, col), Within(h, row), Within(h, col);
      CellsAreTheLayout(p, k - 1, r, c);
      CellOfQuadrant(b, n, k - 1, h, q, r, c, row, col);
      LayoutStep(p, k, row, col);
    }
  }

  lemma CellsOfABlock(p: nat, row: nat, col: nat)
    requires row < Pow2(p) && col < Pow2(p)
    ensures Cell(Pow2(p), row, col) == Layout(p, 0, row, col)
  {
    var b := Pow2(p);
    Divides(row, b);
    Divides(col, b);
    assert b * 1 == b;
    DivBelow(b, 1, row);
    DivBelow(b, 1, col);
    assert ZOrder.Morton(0, 0) == 0;
    hide Div, Rem, Pow2;
  }

  /** A cell of a quadrant stands as far behind the cell of the first quadrant as there are cells before. */
  lemma CellOfQuadrant(b: nat, n: nat, j: nat, h: nat, q: nat, r: nat, c: nat, row: nat, col: nat)
    requires b > 0 && n == Pow2(j) && h == b * n && q < 4 && r < h && c < h
    requires row == r + UpTo(h, q >= 2) && col == c + UpTo(h, q == 1 || q == 3)
    ensures Cell(b, row, col) == Area(h) * q + Cell(b, r, c)
  {
    hide *;
    LineOfQuadrant(b, n, h, r, row, q >= 2);
    LineOfQuadrant(b, n, h, c, col, q == 1 || q == 3);
    MortonQuadrant(j, Div(r, b), Div(c, b), Div(row, b), Div(col, b), q);
    CellIs(b, row, col);
    CellIs(b, r, c);
    Products(b, n, ZOrder.Morton(Div(r, b), Div(c, b)), q, Rem(r, b) * b + Rem(c, b));
  }

  lemma CellIs(b: nat, row: nat, col: nat)
    requires b > 0
    ensures Div(row, b) >= 0 && Div(col, b) >= 0
    ensures Cell(b, row, col) == Area(b) * ZOrder.Morton(Div(row, b), Div(col, b)) + (Rem(row, b) * b + Rem(col, b))
  {
    hide Div, Rem, Area;
    Divides(row, b);
    Divides(col, b);
  }

  lemma LineOfQuadrant(b: nat, n: nat, h: nat, r: nat, row: nat, second: bool)
    requires b > 0 && h == b * n && r < h && row == r + UpTo(h, second)
    ensures 0 <= Div(r, b) < n && Div(row, b) >= 0 && Div(row, b) == Div(r, b) + UpTo(n, second)
    ensures Rem(row, b) == Rem(r, b)
  {
    hide Div, Rem;
    DivBelow(b, n, r);
    DivAdds(b, r, UpTo(n, second), row);
  }

  lemma ShiftsBack(x: nat, p: nat, b: nat, d: nat, z: int)
    requires b == Pow2(p) && d == Shr(x, p)
    ensures d == Div(x, b) && x - Shl(d, p) == Rem(x, b)
    ensures Shl(z * b, p) == Area(b) * z && Shl(Rem(x, b), p) == Rem(x, b) * b
  {
    Divides(x, b);
    hide Div, Rem, Pow2;
    assert b * d == d * b;
    assert z * b * b == b * b * z;
  }

  lemma BlockConvertIsCell(p: nat, row: nat, col: nat)
    requires Shr(row, p) < Pow2(16) && Shr(col, p) < Pow2(16)
    ensures BlockConvert(p, row, col) == Cell(Pow2(p), row, col)
  {
    hide Pow2, Div, Rem, Shr, Shl, Area, ZOrder.ZConvert, ZOrder.Morton;
    var b := Pow2(p);
    ZOrder.ZConvertIsMorton(Shr(row, p), Shr(col, p));
    var z := ZOrder.Morton(Shr(row, p), Shr(col, p));
    ShiftsBack(row, p, b, Shr(row, p), z);
    ShiftsBack(col, p, b, Shr(col, p), z);
    CellIs(b, row, col);
  }

  /** block_convert gives every cell of the matrix the place that the layout means. */
  lemma BlockConvertIsLayout(p: nat, k: nat, row: nat, col: nat)
    requires row < Pow2(p + k) && col < Pow2(p + k) && k <= 16
    ensures BlockConvert(p, row, col) == Layout(p, k, row, col)
  {
    var b := Pow2(p);
    hide *;
    Pow2Adds(p, k);
    Pow2Grows(k, 16);
    DivBelow(b, Pow2(k), row);
    DivBelow(b, Pow2(k), col);
    ShiftIsDiv(row, p);
    ShiftIsDiv(col, p);
    BlockConvertIsCell(p, row, col);
    CellsAreTheLayout(p, k, row, col);
  }

  lemma ShiftIsDiv(x: nat, p: nat)
    ensures Shr(x, p) == Div(x, Pow2(p))
  {
  }

  lemma {:induction false} Pow2Grows(j: nat, k: nat)
    requires j <= k
    ensures Pow2(j) <= Pow2(k)
    decreases k
  {
    if j < k {
      Pow2Grows(j, k - 1);
    }
  }

  /** What an int of 32 bits can count. */
  const INT_RANGE: nat := 0x8000_0000

  /** The places of an n by n matrix are ints. */
  predicate Fits(n: nat) {
    n * n <= INT_RANGE
  }

  lemma FitsIsSmall(p: nat, k: nat, n: nat)
    requires n == Pow2(p + k) && Fits(n)
    ensures p + k <= 15
  {
    if p + k >= 16 {
      WordsPerLine();
      Pow2Grows(16, p + k);
    }
  }

  lemma WordsPerLine()
    ensures Pow2(16) == 0x1_0000
  {
    Pow2Adds(2, 2);
    Pow2Adds(4, 4);
    Pow2Adds(8, 8);
  }

  lemma HalfFits(h: nat, n: nat)
    requires Fits(n) && n == 2 * h
    ensures Fits(h)
  {
  }

  lemma PlacesFitInWords(p: nat, k: nat, n: nat)
    requires n == Pow2(p + k) && k <= 16
    ensures (forall row: nat, col: nat | row < n && col < n :: BlockConvert(p, row, col) < INT_RANGE) <==> Fits(n)
  {
    assert Area(n) == n * n;
    hide *;
    var i := n * n - 1;
    LayoutIsOnto(p, k, i);
    BlockConvertIsLayout(p, k, RowOf(p, k, i), ColOf(p, k, i));
    forall row: nat, col: nat | row < n && col < n ensures BlockConvert(p, row, col) < n * n {
      BlockConvertIsLayout(p, k, row, col);
      LayoutFits(p, k, row, col);
    }
  }

  lemma BigSquare(m: nat, n: nat)
    requires 0x1_0000 <= m <= n
    ensures m * m > INT_RANGE && !Fits(n)
  {
    assert m * m >= 0x1_0000 * m && n * n >= 0x1_0000 * n;
  }

  /** The rows and columns that z_convert can tell apart have places beyond every int. */
  lemma PlaceBeyond(p: nat, m: nat) returns (row: nat, col: nat)
    requires m == Pow2(p + 16) && m * m > INT_RANGE
    ensures row < m && col < m && BlockConvert(p, row, col) >= INT_RANGE
  {
    assert Area(m) == m * m;
    hide *;
    var i := m * m - 1;
    LayoutIsOnto(p, 16, i);
    row, col := RowOf(p, 16, i), ColOf(p, 16, i);
    BlockConvertIsLayout(p, 16, row, col);
  }

  /** block_convert returns an int: every place fits if and only if there are at most 2^31 of them. */
  lemma PlacesFitExactly(p: nat, k: nat, n: nat)
    requires n == Pow2(p + k)
    ensures (forall row: nat, col: nat | row < n && col < n :: BlockConvert(p, row, col) < INT_RANGE) <==> Fits(n)
  {
    hide BlockConvert, Fits;
    if k <= 16 {
      PlacesFitInWords(p, k, n);
    } else {
      var m := Pow2(p + 16);
      hide Pow2;
      WordsPerLine();
      Pow2Grows(16, p + 16);
      Pow2Grows(p + 16, p + k);
      BigSquare(m, n);
      var row, col := PlaceBeyond(p, m);
    }
  }

  /** Two cells never share a place, and every place below n * n is the place of a cell. */
  lemma BlockConvertIsBijective(p: nat, k: nat, n: nat)
    requires n == Pow2(p + k) && Fits(n)
    ensures forall row: nat, col: nat | row < n && col < n ::
      0 <= BlockConvert(p, row, col) < n * n
      && RowOf(p, k, BlockConvert(p, row, col)) == row && ColOf(p, k, BlockConvert(p, row, col)) == col
    ensures forall i | 0 <= i < n * n ::
      0 <= RowOf(p, k, i) < n && 0 <= ColOf(p, k, i) < n
      && BlockConvert(p, RowOf(p, k, i), ColOf(p, k, i)) == i
  {
    assert Area(n) == n * n;
    FitsIsSmall(p, k, n);
    hide *;
    forall row: nat, col: nat | row < n && col < n
      ensures 0 <= BlockConvert(p, row, col) < n * n
      ensures RowOf(p, k, BlockConvert(p, row, col)) == row && ColOf(p, k, BlockConvert(p, row, col)) == col
    {
      BlockConvertIsLayout(p, k, row, col);
      LayoutFits(p, k, row, col);
      LayoutIsInjective(p, k, row, col);
    }
    forall i | 0 <= i < n * n
      ensures 0 <= RowOf(p, k, i) < n && 0 <= ColOf(p, k, i) < n
      ensures BlockConvert(p, RowOf(p, k, i), ColOf(p, k, i)) == i
    {
      LayoutIsOnto(p, k, i);
      BlockConvertIsLayout(p, k, RowOf(p, k, i), ColOf(p, k, i));
    }
  }

  // ---------------------------------------------------------------------------------------------
  // The product
  // ---------------------------------------------------------------------------------------------

  /** The entry of the matrix that starts at offset o. */
  ghost function Entry(s: seq<int>, o: int, p: nat, k: nat, row: int, col: int): int {
    Get(s, o + Layout(p, k, row, col))
  }

  ghost function Get(s: seq<int>, i: int): int {
    if 0 <= i < |s| then s[i] else 0
  }

  function Mul(x: int, y: int): int { x * y }

  /** Row times column, m terms from term j on. */
  ghost function Dot(p: nat, k: nat, a: seq<int>, ao: int, b: seq<int>, bo: int, row: int, col: int, j: int,
                     m: nat): int
    decreases m
  {
    if m == 0 then 0 else
      Dot(p, k, a, ao, b, bo, row, col, j, m - 1)
        + Mul(Entry(a, ao, p, k, row, j + m - 1), Entry(b, bo, p, k, j + m - 1, col))
  }

  /** The cell has grown by m terms, from term j on, of its row of A times its column of B. */
  ghost predicate CellDone(p: nat, k: nat, a: seq<int>, ao: int, b: seq<int>, bo: int, co: int,
                           j: int, m: nat, c0: seq<int>, c1: seq<int>, row: int, col: int) {
    Entry(c1, co, p, k, row, col) == Entry(c0, co, p, k, row, col) + Dot(p, k, a, ao, b, bo, row, col, j, m)
  }

  ghost predicate Unchanged(c0: seq<int>, c1: seq<int>, i: int) {
    Get(c0, i) == Get(c1, i)
  }

  /** The n times n cells of C from offset co have grown so, and nothing else of C has changed. */
  ghost predicate Product(p: nat, k: nat, a: seq<int>, ao: int, b: seq<int>, bo: int, co: int, n: nat,
                          j: int, m: nat, c0: seq<int>, c1: seq<int>) {
    && |c1| == |c0|
    && (forall row, col | 0 <= row < n && 0 <= col < n :: CellDone(p, k, a, ao, b, bo, co, j, m, c0, c1, row, col))
    && (forall i | i < co || co + Area(n) <= i :: Unchanged(c0, c1, i))
  }

  lemma {:induction false} DotSplits(p: nat, k: nat, a: seq<int>, ao: int, b: seq<int>, bo: int,
                                     row: int, col: int, h: nat, m: nat)
    ensures Dot(p, k, a, ao, b, bo, row, col, 0, h + m)
         == Dot(p, k, a, ao, b, bo, row, col, 0, h) + Dot(p, k, a, ao, b, bo, row, col, h, m)
    decreases m
  {
    hide Mul, Entry;
    if m > 0 {
      DotSplits(p, k, a, ao, b, bo, row, col, h, m - 1);
      assert h + (m - 1) == h + m - 1;
    }
  }

  /** An entry of a quadrant is an entry of the matrix that starts at the quadrant. */
  lemma EntryOfQuadrant(s: seq<int>, o: int, p: nat, k: nat, row: int, col: int, r: int, c: int, h: int, q: int,
                        o': int)
    requires k > 0 && h == Pow2(p + k - 1) && q == Quadrant(h, row, col)
    requires r == Within(h, row) && c == Within(h, col) && o' == o + Area(h) * q
    ensures Entry(s, o, p, k, row, col) == Entry(s, o', p, k - 1, r, c)
  {
    LayoutStep(p, k, row, col);
    hide Layout, Area, Quadrant, Within, Pow2;
  }

  /** One half of the terms of a row times a column is a product of quadrants. */
  lemma {:induction false} DotOfQuadrants(p: nat, k: nat, a: seq<int>, ao: int, b: seq<int>, bo: int, row: int,
                                          col: int, j: int, m: nat, h: int, r: int, c: int, ao': int, bo': int)
    requires k > 0 && h == Pow2(p + k - 1) && (j == 0 || j == h) && m <= h
    requires r == Within(h, row) && c == Within(h, col)
    requires ao' == ao + Area(h) * Quadrant(h, row, j) && bo' == bo + Area(h) * Quadrant(h, j, col)
    ensures Dot(p, k, a, ao, b, bo, row, col, j, m) == Dot(p, k - 1, a, ao', b, bo', r, c, 0, m)
    decreases m
  {
    hide Mul, Entry, Area, Pow2;
    if m > 0 {
      DotOfQuadrants(p, k, a, ao, b, bo, row, col, j, m - 1, h, r, c, ao', bo');
      var t := j + m - 1;
      EntryOfQuadrant(a, ao, p, k, row, t, r, m - 1, h, Quadrant(h, row, j), ao');
      EntryOfQuadrant(b, bo, p, k, t, col, m - 1, c, h, Quadrant(h, j, col), bo');
    }
  }

  /** The quadrants of A and B that meet in quadrant q of C, for the first or the second half of the terms. */
  function LeftQuadrant(q: int, second: bool): int { (if q >= 2 then 2 else 0) + (if second then 1 else 0) }

  function RightQuadrant(q: int, second: bool): int { (if q == 1 || q == 3 then 1 else 0) + (if second then 2 else 0) }

  lemma DoneCell(p: nat, k: nat, a: seq<int>, ao: int, b: seq<int>, bo: int, co: int, n: nat,
                 j: int, m: nat, c0: seq<int>, c1: seq<int>, row: int, col: int)
    requires Product(p, k, a, ao, b, bo, co, n, j, m, c0, c1) && 0 <= row < n && 0 <= col < n
    ensures Entry(c1, co, p, k, row, col) == Entry(c0, co, p, k, row, col) + Dot(p, k, a, ao, b, bo, row, col, j, m)
  {
    hide Entry, Dot, Unchanged, Area;
    assert CellDone(p, k, a, ao, b, bo, co, j, m, c0, c1, row, col);
  }

  lemma UnchangedEntry(p: nat, k: nat, a: seq<int>, ao: int, b: seq<int>, bo: int, co: int, n: nat,
                       j: int, m: nat, c0: seq<int>, c1: seq<int>, o: int, row: int, col: int)
    requires Product(p, k, a, ao, b, bo, co, n, j, m, c0, c1)
    requires o + Layout(p, k, row, col) < co || co + Area(n) <= o + Layout(p, k, row, col)
    ensures Entry(c1, o, p, k, row, col) == Entry(c0, o, p, k, row, col)
  {
    hide CellDone, Layout, Area;
    assert Unchanged(c0, c1, o + Layout(p, k, row, col));
  }

  lemma OtherQuadrant(a: int, q: int, q': int, i: int)
    requires 0 <= i < a && q != q'
    ensures a * q' + i < a * q || a * q + a <= a * q' + i
  {
    if q' < q {
      assert a * q >= a * (q' + 1);
    } else {
      assert a * q' >= a * (q + 1);
    }
  }

  /** The quadrants of A and B that the call for quadrant q of C takes. */
  predicate Meet(ao: int, bo: int, co: int, h: int, q: int, second: bool, ao': int, bo': int, co': int) {
    && ao' == ao + Area(h) * LeftQuadrant(q, second)
    && bo' == bo + Area(h) * RightQuadrant(q, second)
    && co' == co + Area(h) * q
  }

  /** One product of quadrants, as it looks from a cell of the whole matrix. */
  lemma CellOfCall(p: nat, k: nat, a: seq<int>, ao: int, b: seq<int>, bo: int, co: int, h: nat, second: bool,
                   q: int, ao': int, bo': int, co': int, s: seq<int>, s': seq<int>, row: int, col: int)
    requires k > 0 && h == Pow2(p + k - 1) && 0 <= q < 4 && 0 <= row < 2 * h && 0 <= col < 2 * h
    requires Meet(ao, bo, co, h, q, second, ao', bo', co')
    requires Product(p, k - 1, a, ao', b, bo', co', h, 0, h, s, s')
    ensures Entry(s', co, p, k, row, col) == Entry(s, co, p, k, row, col)
      + (if q == Quadrant(h, row, col) then Dot(p, k, a, ao, b, bo, row, col, UpTo(h, second), h) else 0)
  {
    hide Entry, Dot, Product, Area, Pow2;
    if q == Quadrant(h, row, col) {
      CellOfOwnCall(p, k, a, ao, b, bo, co, h, second, q, ao', bo', co', s, s', row, col);
    } else {
      CellOfOtherCall(p, k, a, ao, b, bo, co, h, second, q, ao', bo', co', s, s', row, col);
    }
  }

  lemma CellOfOwnCall(p: nat, k: nat, a: seq<int>, ao: int, b: seq<int>, bo: int, co: int, h: nat, second: bool,
                   q: int, ao': int, bo': int, co': int, s: seq<int>, s': seq<int>, row: int, col: int)
    requires k > 0 && h == Pow2(p + k - 1) && 0 <= q < 4 && 0 <= row < 2 * h && 0 <= col < 2 * h
    requires Meet(ao, bo, co, h, q, second, ao', bo', co')
    requires Product(p, k - 1, a, ao', b, bo', co', h, 0, h, s, s')
    requires q == Quadrant(h, row, col)
    ensures Entry(s', co, p, k, row, col) == Entry(s, co, p, k, row, col)
      + Dot(p, k, a, ao, b, bo, row, col, UpTo(h, second), h)
  {
    hide Entry, Dot, Product, Area, Layout, Pow2;
    var r, c, j := Within(h, row), Within(h, col), UpTo(h, second);
    EntryOfQuadrant(s, co, p, k, row, col, r, c, h, q, co');
    EntryOfQuadrant(s', co, p, k, row, col, r, c, h, q, co');
    assert Quadrant(h, row, j) == LeftQuadrant(q, second) && Quadrant(h, j, col) == RightQuadrant(q, second);
    DotOfQuadrants(p, k, a, ao, b, bo, row, col, j, h, h, r, c, ao', bo');
    DoneCell(p, k - 1, a, ao', b, bo', co', h, 0, h, s, s', r, c);
  }

  lemma CellOfOtherCall(p: nat, k: nat, a: seq<int>, ao: int, b: seq<int>, bo: int, co: int, h: nat, second: bool,
                   q: int, ao': int, bo': int, co': int, s: seq<int>, s': seq<int>, row: int, col: int)
    requires k > 0 && h == Pow2(p + k - 1) && 0 <= q < 4 && 0 <= row < 2 * h && 0 <= col < 2 * h
    requires Meet(ao, bo, co, h, q, second, ao', bo', co')
    requires Product(p, k - 1, a, ao', b, bo', co', h, 0, h, s, s')
    requires q != Quadrant(h, row, col)
    ensures Entry(s', co, p, k, row, col) == Entry(s, co, p, k, row, col)
  {
    hide Entry, Dot, Product, Area, Layout, Pow2;
    var r, c, q' := Within(h, row), Within(h, col), Quadrant(h, row, col);
    EntryOfQuadrant(s, co, p, k, row, col, r, c, h, q', co + Area(h) * q');
    EntryOfQuadrant(s', co, p, k, row, col, r, c, h, q', co + Area(h) * q');
    LayoutFits(p, k - 1, r, c);
    OtherQuadrant(Area(h), q, q', Layout(p, k - 1, r, c));
    UnchangedEntry(p, k - 1, a, ao', b, bo', co', h, 0, h, s, s', co + Area(h) * q', r, c);
  }

  /** What is outside the whole product is outside each of its quadrants. */
  lemma OutsideOfCall(p: nat, k: nat, a: seq<int>, ao: int, b: seq<int>, bo: int, co: int, h: nat, second: bool, q: int,
                      ao': int, bo': int, co': int, m: nat, s: seq<int>, s': seq<int>, i: int)
    requires 0 <= q < 4 && Meet(ao, bo, co, h, q, second, ao', bo', co')
    requires i < co || co + 4 * Area(h) <= i
    requires Product(p, k, a, ao', b, bo', co', h, 0, m, s, s')
    ensures Unchanged(s, s', i)
  {
    hide CellDone, Unchanged, Area;
  }

  /** Four products of quadrants, one into each quadrant of C, are one half of the terms of the whole product. */
  lemma RoundAdds(p: nat, k: nat, a: seq<int>, ao: int, b: seq<int>, bo: int, co: int, h: nat, second: bool,
                  a1: int, a3: int, b1: int, b2: int, c1: int, c2: int, c3: int, c4: int,
                  s0: seq<int>, s1: seq<int>, s2: seq<int>, s3: seq<int>, s4: seq<int>)
    requires k > 0 && h == Pow2(p + k - 1)
    requires Meet(ao, bo, co, h, 0, second, a1, b1, c1) && Meet(ao, bo, co, h, 1, second, a1, b2, c2)
    requires Meet(ao, bo, co, h, 2, second, a3, b1, c3) && Meet(ao, bo, co, h, 3, second, a3, b2, c4)
    requires Product(p, k - 1, a, a1, b, b1, c1, h, 0, h, s0, s1)
    requires Product(p, k - 1, a, a1, b, b2, c2, h, 0, h, s1, s2)
    requires Product(p, k - 1, a, a3, b, b1, c3, h, 0, h, s2, s3)
    requires Product(p, k - 1, a, a3, b, b2, c4, h, 0, h, s3, s4)
    ensures Product(p, k, a, ao, b, bo, co, 2 * h, UpTo(h, second), h, s0, s4)
  {
    hide *;
    AreaOfTwice(h);
    SameSizes(p, k - 1, a, a1, b, b1, c1, h, 0, h, s0, s1);
    SameSizes(p, k - 1, a, a1, b, b2, c2, h, 0, h, s1, s2);
    SameSizes(p, k - 1, a, a3, b, b1, c3, h, 0, h, s2, s3);
    SameSizes(p, k - 1, a, a3, b, b2, c4, h, 0, h, s3, s4);
    forall row, col | 0 <= row < 2 * h && 0 <= col < 2 * h
      ensures CellDone(p, k, a, ao, b, bo, co, UpTo(h, second), h, s0, s4, row, col)
    {
      CellOfCall(p, k, a, ao, b, bo, co, h, second, 0, a1, b1, c1, s0, s1, row, col);
      CellOfCall(p, k, a, ao, b, bo, co, h, second, 1, a1, b2, c2, s1, s2, row, col);
      CellOfCall(p, k, a, ao, b, bo, co, h, second, 2, a3, b1, c3, s2, s3, row, col);
      CellOfCall(p, k, a, ao, b, bo, co, h, second, 3, a3, b2, c4, s3, s4, row, col);
      IsDone(p, k, a, ao, b, bo, co, UpTo(h, second), h, s0, s4, row, col);
    }
    forall i | i < co || co + Area(2 * h) <= i
      ensures Unchanged(s0, s4, i)
    {
      OutsideOfCall(p, k - 1, a, ao, b, bo, co, h, second, 0, a1, b1, c1, h, s0, s1, i);
      OutsideOfCall(p, k - 1, a, ao, b, bo, co, h, second, 1, a1, b2, c2, h, s1, s2, i);
      OutsideOfCall(p, k - 1, a, ao, b, bo, co, h, second, 2, a3, b1, c3, h, s2, s3, i);
      OutsideOfCall(p, k - 1, a, ao, b, bo, co, h, second, 3, a3, b2, c4, h, s3, s4, i);
      UnchangedSoFar(s0, s1, s2, i);
      UnchangedSoFar(s0, s2, s3, i);
      UnchangedSoFar(s0, s3, s4, i);
    }
    IsProduct(p, k, a, ao, b, bo, co, 2 * h, UpTo(h, second), h, s0, s4);
  }

  lemma IsDone(p: nat, k: nat, a: seq<int>, ao: int, b: seq<int>, bo: int, co: int, j: int, m: nat,
               c0: seq<int>, c1: seq<int>, row: int, col: int)
    requires Entry(c1, co, p, k, row, col) == Entry(c0, co, p, k, row, col) + Dot(p, k, a, ao, b, bo, row, col, j, m)
    ensures CellDone(p, k, a, ao, b, bo, co, j, m, c0, c1, row, col)
  {
    hide Entry, Dot;
  }

  lemma UnchangedSoFar(s0: seq<int>, s1: seq<int>, s2: seq<int>, i: int)
    requires Unchanged(s0, s1, i) && Unchanged(s1, s2, i)
    ensures Unchanged(s0, s2, i)
  {
  }

  lemma IsProduct(p: nat, k: nat, a: seq<int>, ao: int, b: seq<int>, bo: int, co: int, n: nat, j: int, m: nat,
                  c0: seq<int>, c1: seq<int>)
    requires |c1| == |c0|
    requires forall row, col | 0 <= row < n && 0 <= col < n :: CellDone(p, k, a, ao, b, bo, co, j, m, c0, c1, row, col)
    requires forall i | i < co || co + Area(n) <= i :: Unchanged(c0, c1, i)
    ensures Product(p, k, a, ao, b, bo, co, n, j, m, c0, c1)
  {
    hide CellDone, Unchanged, Area;
  }

  lemma SameSizes(p: nat, k: nat, a: seq<int>, ao: int, b: seq<int>, bo: int, co: int, n: nat,
                  j: int, m: nat, c0: seq<int>, c1: seq<int>)
    requires Product(p, k, a, ao, b, bo, co, n, j, m, c0, c1)
    ensures |c1| == |c0|
  {
  }

  /** The two halves of the terms make the whole product. */
  lemma RoundsAdd(p: nat, k: nat, a: seq<int>, ao: int, b: seq<int>, bo: int, co: int, h: nat,
                  s0: seq<int>, s1: seq<int>, s2: seq<int>)
    requires Product(p, k, a, ao, b, bo, co, 2 * h, 0, h, s0, s1)
    requires Product(p, k, a, ao, b, bo, co, 2 * h, h, h, s1, s2)
    ensures Product(p, k, a, ao, b, bo, co, 2 * h, 0, 2 * h, s0, s2)
  {
    forall row, col | 0 <= row < 2 * h && 0 <= col < 2 * h
      ensures CellDone(p, k, a, ao, b, bo, co, 0, 2 * h, s0, s2, row, col)
    {
      DoneCell(p, k, a, ao, b, bo, co, 2 * h, 0, h, s0, s1, row, col);
      DoneCell(p, k, a, ao, b, bo, co, 2 * h, h, h, s1, s2, row, col);
      DotSplits(p, k, a, ao, b, bo, row, col, h, h);
      hide Product, Entry, Dot;
    }
    forall i | i < co || co + Area(2 * h) <= i
      ensures Unchanged(s0, s2, i)
    {
      assert Unchanged(s0, s1, i) && Unchanged(s1, s2, i);
    }
    hide CellDone, Unchanged, Area;
  }

  // The base case, row by row.

  /** The cells before row i and, in row i, before column k are done. */
  ghost predicate Before(row: int, col: int, i: int, k: int) {
    row < i || (row == i && col < k)
  }

  ghost predicate Filled(p: nat, a: seq<int>, ao: int, b: seq<int>, bo: int, co: int, n: nat,
                         c0: seq<int>, c1: seq<int>, i: int, k: int) {
    && |c1| == |c0|
    && (forall row, col | 0 <= row < n && 0 <= col < n && Before(row, col, i, k) ::
          CellDone(p, 0, a, ao, b, bo, co, 0, n, c0, c1, row, col))
    && (forall x | x < co || co + i * n + k <= x :: Unchanged(c0, c1, x))
  }

  lemma FilledStep(p: nat, a: seq<int>, ao: int, b: seq<int>, bo: int, co: int, n: nat,
                   c0: seq<int>, c1: seq<int>, c2: seq<int>, i: int, k: int, at: int)
    requires n == Pow2(p) && 0 <= i < n && 0 <= k < n && at == co + i * n + k && 0 <= at < |c1|
    requires Filled(p, a, ao, b, bo, co, n, c0, c1, i, k)
    requires c2 == c1[at := c1[at] + Dot(p, 0, a, ao, b, bo, i, k, 0, n)]
    ensures Filled(p, a, ao, b, bo, co, n, c0, c2, i, k + 1)
  {
    forall row, col | 0 <= row < n && 0 <= col < n && Before(row, col, i, k + 1)
      ensures CellDone(p, 0, a, ao, b, bo, co, 0, n, c0, c2, row, col)
    {
      var x := co + Layout(p, 0, row, col);
      if row == i && col == k {
        assert Unchanged(c0, c1, at);
        assert x == at;
        hide Dot, Layout, Pow2;
      } else {
        Earlier(n, row, col, i, k);
        assert x != at;
        assert CellDone(p, 0, a, ao, b, bo, co, 0, n, c0, c1, row, col);
        hide Dot, Layout, Pow2;
      }
    }
    forall x | x < co || co + i * n + (k + 1) <= x
      ensures Unchanged(c0, c2, x)
    {
      assert Unchanged(c0, c1, x);
      LinesFit(n, i, k);
      assert n * i == i * n;
    }
    hide Dot, Layout, Pow2;
  }

  lemma Earlier(n: int, row: int, col: int, i: int, k: int)
    requires 0 <= row && 0 <= col < n && 0 <= k < n && Before(row, col, i, k)
    ensures row * n + col < i * n + k
  {
    if row < i {
      LinesGrow(n, row, i);
    }
  }

  lemma LinesGrow(n: int, row: int, i: int)
    requires n > 0 && row < i
    ensures row * n + n <= i * n
  {
    assert (i - row - 1) * n >= 0;
    assert (i - row - 1) * n == i * n - row * n - n;
  }

  /** One row of A times one column of B, both of n terms and stored row by row. */
  method RowTimesColumn(p: nat, A: array<int>, ao: nat, B: array<int>, bo: nat, n: nat, i: nat, k: nat) returns (c: int)
    requires n == Pow2(p) && i < n && k < n
    requires ao + Area(n) <= A.Length && bo + Area(n) <= B.Length
    ensures c == Dot(p, 0, A[..], ao, B[..], bo, i, k, 0, n)
  {
    ghost var a, b := A[..], B[..];
    c := 0;
    var j := 0;
    while j < n
      invariant 0 <= j <= n
      invariant c == Dot(p, 0, a, ao, b, bo, i, k, 0, j)
    {
      var x, y := Place(n, i, j), Place(n, j, k);
      ghost var d := Dot(p, 0, a, ao, b, bo, i, k, 0, j);
      TermOfBlock(p, a, ao, b, bo, n, i, j, k, x, y);
      hide Dot, Area, Pow2, Place, Layout;
      c := c + Mul(A[ao + x], B[bo + y]);
      j := j + 1;
    }
  }

  function Place(n: nat, i: nat, j: nat): nat { i * n + j }

  lemma TermOfBlock(p: nat, a: seq<int>, ao: int, b: seq<int>, bo: int, n: nat, i: nat, j: nat, k: nat, x: nat, y: nat)
    requires n == Pow2(p) && i < n && j < n && k < n && x == Place(n, i, j) && y == Place(n, j, k)
    requires 0 <= ao && ao + Area(n) <= |a| && 0 <= bo && bo + Area(n) <= |b|
    ensures ao + x < |a| && bo + y < |b|
    ensures Dot(p, 0, a, ao, b, bo, i, k, 0, j + 1) == Dot(p, 0, a, ao, b, bo, i, k, 0, j) + Mul(a[ao + x], b[bo + y])
  {
    RowMajorFits(n, i, j);
    RowMajorFits(n, j, k);
    hide Mul, Pow2;
  }

  /** The base case: one block of each matrix. */
  method MatMulBase(p: nat, A: array<int>, ao: nat, B: array<int>, bo: nat, C: array<int>, co: nat, n: nat)
    requires n == Pow2(p) && C != A && C != B
    requires ao + Area(n) <= A.Length && bo + Area(n) <= B.Length && co + Area(n) <= C.Length
    modifies C
    ensures Product(p, 0, A[..], ao, B[..], bo, co, n, 0, n, old(C[..]), C[..])
  {
    hide Filled, Product, Pow2, Area, Dot, Place;
    ghost var a, b, c0 := A[..], B[..], C[..];
    FilledStart(p, a, ao, b, bo, co, n, c0);
    var i := 0;
    while i < n
      invariant 0 <= i <= n
      invariant Filled(p, a, ao, b, bo, co, n, c0, C[..], i, 0)
    {
      var k := 0;
      while k < n
        invariant 0 <= k <= n
        invariant Filled(p, a, ao, b, bo, co, n, c0, C[..], i, k)
      {
        var c := RowTimesColumn(p, A, ao, B, bo, n, i, k);
        ghost var c1 := C[..];
        var at := co + Place(n, i, k);
        PlaceFits(n, i, k);
        C[at] := C[at] + c;
        FilledStep(p, a, ao, b, bo, co, n, c0, c1, C[..], i, k, at);
        k := k + 1;
      }
      FilledRowEnds(p, a, ao, b, bo, co, n, c0, C[..], i);
      i := i + 1;
    }
    FilledIsProduct(p, a, ao, b, bo, co, n, c0, C[..]);
  }

  lemma FilledStart(p: nat, a: seq<int>, ao: int, b: seq<int>, bo: int, co: int, n: nat, c0: seq<int>)
    ensures Filled(p, a, ao, b, bo, co, n, c0, c0, 0, 0)
  {
  }

  lemma FilledRowEnds(p: nat, a: seq<int>, ao: int, b: seq<int>, bo: int, co: int, n: nat, c0: seq<int>, c1: seq<int>,
                      i: int)
    requires Filled(p, a, ao, b, bo, co, n, c0, c1, i, n)
    ensures Filled(p, a, ao, b, bo, co, n, c0, c1, i + 1, 0)
  {
    assert (i + 1) * n == i * n + n;
  }

  lemma FilledIsProduct(p: nat, a: seq<int>, ao: int, b: seq<int>, bo: int, co: int, n: nat, c0: seq<int>, c1: seq<int>)
    requires n == Pow2(p) && Filled(p, a, ao, b, bo, co, n, c0, c1, n, 0)
    ensures Product(p, 0, a, ao, b, bo, co, n, 0, n, c0, c1)
  {
  }

  lemma PlaceFits(n: nat, i: nat, k: nat)
    requires i < n && k < n
    ensures Place(n, i, k) == i * n + k && Place(n, i, k) < Area(n)
  {
    LinesFit(n, i, k);
    assert i * n == n * i;
  }

  lemma Doubled(p: nat, k: nat, h: nat)
    requires k > 0 && h == Pow2(p + k - 1)
    ensures Pow2(p + k) == 2 * h
  {
  }

  /** The corner of a quadrant stands behind the quadrants before it. */
  lemma Corner(p: nat, k: nat, h: nat, x: nat, y: nat)
    requires k > 0 && k <= 16 && h == Pow2(p + k - 1) && (x == 0 || x == h) && (y == 0 || y == h)
    ensures BlockConvert(p, x, y) == Area(h) * Quadrant(h, x, y)
  {
    hide BlockConvert, Pow2, Area, Layout;
    Doubled(p, k, h);
    BlockConvertIsLayout(p, k, x, y);
    LayoutStep(p, k, x, y);
    FirstCorner(p, k - 1);
  }

  lemma CornersAre(p: nat, k: nat, h: nat)
    requires 0 < k <= 16 && h == Pow2(p + k - 1)
    ensures BlockConvert(p, 0, 0) == 0 && BlockConvert(p, 0, h) == Area(h) >= 0
    ensures BlockConvert(p, h, 0) == Area(h) * 2 && BlockConvert(p, h, h) == Area(h) * 3
  {
    hide BlockConvert, Area, Pow2;
    AreaPositive(h);
    Corner(p, k, h, 0, 0);
    Corner(p, k, h, 0, h);
    Corner(p, k, h, h, 0);
    Corner(p, k, h, h, h);
  }

  lemma {:induction false} FirstCorner(p: nat, k: nat)
    ensures Layout(p, k, 0, 0) == 0
    decreases k
  {
    if k > 0 {
      FirstCorner(p, k - 1);
    }
  }

  /** The offsets of the four quadrants, as mat_mul_par computes them, with h half the number of rows. */
  method Corners(p: nat, ghost k: nat, o: nat, h: nat) returns (o1: nat, o2: nat, o3: nat, o4: nat)
    requires 0 < k <= 16 && h == Pow2(p + k - 1)
    ensures o1 == o && o2 == o + Area(h) && o3 == o + Area(h) * 2 && o4 == o + Area(h) * 3
  {
    hide *;
    CornersAre(p, k, h);
    o1 := o + BlockConvert(p, 0, 0);
    o2 := o + BlockConvert(p, 0, h);
    o3 := o + BlockConvert(p, h, 0);
    o4 := o + BlockConvert(p, h, h);
  }

  /** The four products of one round, between two cilk_syncs. */
  method MatMulRound(p: nat, ghost k: nat, A: array<int>, ghost ao: nat, B: array<int>, ghost bo: nat,
                     C: array<int>, ghost co: nat, h: nat, ghost second: bool,
                     a1: nat, a3: nat, b1: nat, b2: nat, c1: nat, c2: nat, c3: nat, c4: nat)
    requires 0 < k <= 16 && h == Pow2(p + k - 1) && Fits(h) && C != A && C != B
    requires Meet(ao, bo, co, h, 0, second, a1, b1, c1) && Meet(ao, bo, co, h, 1, second, a1, b2, c2)
    requires Meet(ao, bo, co, h, 2, second, a3, b1, c3) && Meet(ao, bo, co, h, 3, second, a3, b2, c4)
    requires ao + 4 * Area(h) <= A.Length && bo + 4 * Area(h) <= B.Length && co + 4 * Area(h) <= C.Length
    modifies C
    ensures Product(p, k, A[..], ao, B[..], bo, co, 2 * h, UpTo(h, second), h, old(C[..]), C[..])
    decreases k, 0
  {
    MeetsFit(ao, bo, co, h, 0, second, a1, b1, c1);
    MeetsFit(ao, bo, co, h, 1, second, a1, b2, c2);
    MeetsFit(ao, bo, co, h, 2, second, a3, b1, c3);
    MeetsFit(ao, bo, co, h, 3, second, a3, b2, c4);
    hide *;
    ghost var a, b, s0 := A[..], B[..], C[..];
    MatMulPar(p, k - 1, A, a1, B, b1, C, c1, h);
    ghost var s1 := C[..];
    MatMulPar(p, k - 1, A, a1, B, b2, C, c2, h);
    ghost var s2 := C[..];
    MatMulPar(p, k - 1, A, a3, B, b1, C, c3, h);
    ghost var s3 := C[..];
    MatMulPar(p, k - 1, A, a3, B, b2, C, c4, h);
    RoundAdds(p, k, a, ao, b, bo, co, h, second, a1, a3, b1, b2, c1, c2, c3, c4, s0, s1, s2, s3, C[..]);
  }

  lemma MeetsFit(ao: int, bo: int, co: int, h: int, q: int, second: bool, ao': int, bo': int, co': int)
    requires 0 <= q < 4 && Meet(ao, bo, co, h, q, second, ao', bo', co')
    ensures ao' + Area(h) <= ao + 4 * Area(h) && bo' + Area(h) <= bo + 4 * Area(h) && co' + Area(h) <= co + 4 * Area(h)
  {
  }

  /** mat_mul_par: C grows by the product of A and B, each stored in the layout from its offset on. */
  method MatMulPar(p: nat, ghost k: nat, A: array<int>, ao: nat, B: array<int>, bo: nat, C: array<int>, co: nat, n: nat)
    requires n == Pow2(p + k) && Fits(n) && C != A && C != B
    requires ao + Area(n) <= A.Length && bo + Area(n) <= B.Length && co + Area(n) <= C.Length
    modifies C
    ensures Product(p, k, A[..], ao, B[..], bo, co, n, 0, n, old(C[..]), C[..])
    decreases k, 1
  {
    hide Fits;
    BaseCaseExactly(p, k);
    if n == Pow2(p) {
      MatMulBase(p, A, ao, B, bo, C, co, n);
    } else {
      var h := n / 2;
      assert n == 2 * h && h == Pow2(p + k - 1);
      FitsIsSmall(p, k, n);
      HalfFits(h, n);
      AreaOfTwice(h);
      hide Product, Area, Pow2;
      var a1, a2, a3, a4 := Corners(p, k, ao, h);
      var b1, b2, b3, b4 := Corners(p, k, bo, h);
      var c1, c2, c3, c4 := Corners(p, k, co, h);
      ghost var a, b, s0 := A[..], B[..], C[..];
      MatMulRound(p, k, A, ao, B, bo, C, co, h, false, a1, a3, b1, b2, c1, c2, c3, c4);
      ghost var s1 := C[..];
      MatMulRound(p, k, A, ao, B, bo, C, co, h, true, a2, a4, b3, b4, c1, c2, c3, c4);
      RoundsAdd(p, k, a, ao, b, bo, co, h, s0, s1, C[..]);
    }
  }

  lemma BaseCaseExactly(p: nat, k: nat)
    ensures Pow2(p + k) == Pow2(p) <==> k == 0
  {
    if k > 0 {
      Pow2Grows(p, p + k - 1);
    }
  }

  // ---------------------------------------------------------------------------------------------
  // Spawned calls
  // ---------------------------------------------------------------------------------------------

  /** Two products that are spawned together write different quadrants of C and read neither, so their order does not
      matter. */
  lemma SpawnedProductsCommute(p: nat, k: nat, a: seq<int>, ao: int, b: seq<int>, bo: int, co: int, a': seq<int>,
                               ao': int, b': seq<int>, bo': int, co': int, n: nat, c: seq<int>, d: seq<int>,
                               e: seq<int>, d': seq<int>, e': seq<int>)
    requires n == Pow2(p + k) && (co + Area(n) <= co' || co' + Area(n) <= co)
    requires Product(p, k, a, ao, b, bo, co, n, 0, n, c, d) && Product(p, k, a', ao', b', bo', co', n, 0, n, d, e)
    requires Product(p, k, a', ao', b', bo', co', n, 0, n, c, d') && Product(p, k, a, ao, b, bo, co, n, 0, n, d', e')
    ensures e == e'
  {
    forall x | 0 <= x < |e| ensures Get(e, x) == Get(e', x) {
      if co <= x < co + Area(n) {
        SameCell(p, k, a, ao, b, bo, co, n, c, d, d', e', x);
        assert Unchanged(d, e, x) && Unchanged(c, d', x);
      } else if co' <= x < co' + Area(n) {
        SameCell(p, k, a', ao', b', bo', co', n, c, d', d, e, x);
        assert Unchanged(d', e', x) && Unchanged(c, d, x);
      } else {
        assert Unchanged(c, d, x) && Unchanged(d, e, x) && Unchanged(c, d', x) && Unchanged(d', e', x);
      }
    }
    forall x | 0 <= x < |e| ensures e[x] == e'[x] {
      assert Get(e, x) == Get(e', x);
    }
  }

  /** One product, from two states that agree on the place: it adds the same. */
  lemma SameCell(p: nat, k: nat, a: seq<int>, ao: int, b: seq<int>, bo: int, co: int, n: nat, c: seq<int>, d: seq<int>,
                 c': seq<int>, d': seq<int>, x: int)
    requires n == Pow2(p + k) && co <= x < co + Area(n)
    requires Product(p, k, a, ao, b, bo, co, n, 0, n, c, d) && Product(p, k, a, ao, b, bo, co, n, 0, n, c', d')
    ensures Get(d, x) - Get(c, x) == Get(d', x) - Get(c', x)
  {
    hide Dot, Get;
    LayoutIsOnto(p, k, x - co);
    var row, col := RowOf(p, k, x - co), ColOf(p, k, x - co);
    assert CellDone(p, k, a, ao, b, bo, co, 0, n, c, d, row, col);
    assert CellDone(p, k, a, ao, b, bo, co, 0, n, c', d', row, col);
  }
}
