/** Matrices in blocked Z-order: where an entry stands. */
module ZOrder {
  // The bit tricks that interleave a row and a column number, and the layout that they define.

  import opened Commons

  // ---------------------------------------------------------------------------------------------
  // Machine words
  // ---------------------------------------------------------------------------------------------

  predicate Odd(x: bv32) { x & 1 == 1 }

  function Half(x: bv32): bv32 { x >> 1 }

  function Push(x: bv32, odd: bool): bv32 { (x << 1) | (if odd then 1 else 0) }

  function Bit(odd: bool): nat { if odd then 1 else 0 }

  lemma HalfIsSmaller(x: bv32)
    requires x != 0
    ensures Half(x) < x
  {
  }

  /** The number a word stands for. */
  function Nat(x: bv32): nat
    decreases x
  {
    if x == 0 then 0 else
      HalfIsSmaller(x);
      2 * Nat(Half(x)) + Bit(Odd(x))
  }

  /** The word for a number, as far as 32 bits go. */
  function Word(n: nat): bv32
    decreases n
  {
    if n == 0 then 0 else Push(Word(n / 2), n % 2 == 1)
  }

  // The four rounds of z_convert: bit i of a number below 65536 goes to bit 2 i.

  function Round8(x: bv32): bv32 { (x | (x << 8)) & 0x00FF00FF }
  function Round4(x: bv32): bv32 { (x | (x << 4)) & 0x0F0F0F0F }
  function Round2(x: bv32): bv32 { (x | (x << 2)) & 0x33333333 }
  function Round1(x: bv32): bv32 { (x | (x << 1)) & 0x55555555 }

  function Spread(x: bv32): bv32 {
    Round1(Round2(Round4(Round8(x))))
  }

  // What the rounds do to groups of 8, 4, 2 bits and to single bits.

  function Groups8(x: bv32): bv32 {
    (x & 0xff) | ((x & 0xff00) << 8)
  }

  function Groups4(x: bv32): bv32 {
    (x & 0xf) | ((x & 0xf0) << 4) | ((x & 0xf00) << 8) | ((x & 0xf000) << 12)
  }

  function Groups2(x: bv32): bv32 {
    (x & 0x3) | ((x & 0xc) << 2) | ((x & 0x30) << 4) | ((x & 0xc0) << 6) | ((x & 0x300) << 8) |
    ((x & 0xc00) << 10) | ((x & 0x3000) << 12) | ((x & 0xc000) << 14)
  }

  function Groups1(x: bv32): bv32 {
    (x & 0x1) | ((x & 0x2) << 1) | ((x & 0x4) << 2) | ((x & 0x8) << 3) | ((x & 0x10) << 4) | ((x & 0x20) << 5) |
    ((x & 0x40) << 6) | ((x & 0x80) << 7) | ((x & 0x100) << 8) | ((x & 0x200) << 9) | ((x & 0x400) << 10) |
    ((x & 0x800) << 11) | ((x & 0x1000) << 12) | ((x & 0x2000) << 13) | ((x & 0x4000) << 14) | ((x & 0x8000) << 15)
  }

  lemma RoundOnGroups8(x: bv32)
    requires x < 0x10000
    ensures Round8(x) == Groups8(x)
  {
  }

  lemma RoundOnGroups4(x: bv32)
    requires x < 0x10000
    ensures Round4(Groups8(x)) == Groups4(x)
  {
  }

  lemma RoundOnGroups2(x: bv32)
    requires x < 0x10000
    ensures Round2(Groups4(x)) == Groups2(x)
  {
  }

  lemma RoundOnBits(x: bv32)
    requires x < 0x10000
    ensures Round1(Groups2(x)) == Groups1(x)
  {
  }

  lemma SpreadIsGroups(x: bv32)
    requires x < 0x10000
    ensures Spread(x) == Groups1(x)
  {
    hide Round8, Round4, Round2, Round1, Groups8, Groups4, Groups2, Groups1;
    RoundOnGroups8(x);
    RoundOnGroups4(x);
    RoundOnGroups2(x);
    RoundOnBits(x);
  }

  lemma GroupsShift(x: bv32)
    requires x < 0x10000
    ensures Groups1(x) == (Groups1(x >> 1) << 2) | (x & 1)
  {
  }

  lemma GroupsBound(x: bv32)
    requires x < 0x10000
    ensures Groups1(x) <= 0x55555555
  {
  }

  lemma ShiftFits(x: bv32)
    ensures x < 0x10000 ==> x >> 1 < 0x8000
  {
  }

  lemma SpreadBit(x: bv32)
    requires x < 0x10000
    ensures Spread(x) == (Spread(x >> 1) << 2) | (x & 1) && Spread(x) <= 0x55555555
  {
    hide Spread, Groups1;
    ShiftFits(x);
    GroupsShift(x);
    GroupsBound(x);
    SpreadIsGroups(x);
    SpreadIsGroups(x >> 1);
  }

  /** z_convert on words. */
  function Interleave(row: bv32, col: bv32): bv32 {
    Join(Spread(row), Spread(col))
  }

  predicate Fits16(x: bv32) { x < 0x10000 }

  predicate Fits30(x: bv32) { x < 0x4000_0000 }

  predicate Fits31(x: bv32) { x < 0x8000_0000 }

  function Push2(x: bv32, odd: bool): bv32 { (x << 2) | (if odd then 1 else 0) }

  function Join(r: bv32, c: bv32): bv32 { c | (r << 1) }

  lemma LastBit(x: bv32)
    ensures x & 1 == (if Odd(x) then 1 else 0)
  {
  }

  lemma SpreadHalf(x: bv32)
    requires Fits16(x)
    ensures Spread(x) == Push2(Spread(Half(x)), Odd(x))
  {
    hide Spread, Odd;
    SpreadBit(x);
    LastBit(x);
  }

  lemma JoinBits(r: bv32, c: bv32, hi: bool, lo: bool)
    ensures Join(Push2(r, hi), Push2(c, lo)) == Push(Push(Join(r, c), hi), lo)
  {
    if hi {
      if lo { } else { }
    } else {
      if lo { } else { }
    }
  }

  /** The last bits of row and column end up behind the interleaving of their halves. */
  lemma InterleaveBits(row: bv32, col: bv32)
    requires Fits16(row) && Fits16(col)
    ensures Interleave(row, col) == Push(Push(Interleave(Half(row), Half(col)), Odd(row)), Odd(col))
  {
    hide Spread, Odd, Half, Push, Push2, Join, Fits16;
    SpreadHalf(row);
    SpreadHalf(col);
    JoinBits(Spread(Half(row)), Spread(Half(col)), Odd(row), Odd(col));
  }

  lemma SpreadSmall(x: bv32)
    requires x < 0x8000
    ensures Spread(x) <= 0x15555555
  {
    hide Spread, Groups1;
    SpreadIsGroups(x);
    GroupsSmall(x);
  }

  lemma GroupsSmall(x: bv32)
    requires x < 0x8000
    ensures Groups1(x) <= 0x15555555
  {
  }

  /** Half of a word below 65536 fits 15 bits, and so the interleaved word of two halves fits 30. */
  lemma HalvesFit(row: bv32, col: bv32)
    requires Fits16(row) && Fits16(col)
    ensures Fits16(Half(row)) && Fits16(Half(col)) && Fits30(Interleave(Half(row), Half(col)))
  {
    hide Spread;
    ShiftFits(row);
    ShiftFits(col);
    SpreadSmall(row >> 1);
    SpreadSmall(col >> 1);
  }

  // ---------------------------------------------------------------------------------------------
  // Numbers
  // ---------------------------------------------------------------------------------------------

  lemma PushBits(x: bv32, odd: bool)
    requires Fits31(x)
    ensures Half(Push(x, odd)) == x && Odd(Push(x, odd)) == odd
    ensures Fits30(x) ==> Fits31(Push(x, odd))
  {
  }

  lemma NoBits()
    ensures Half(0) == 0 && !Odd(0)
  {
  }

  /** A bit more at the end doubles the number and adds the bit. */
  lemma NatPush(x: bv32, odd: bool)
    requires Fits31(x)
    ensures Nat(Push(x, odd)) == 2 * Nat(x) + Bit(odd)
  {
    hide Push, Half, Odd, Fits31, Fits30;
    PushBits(x, odd);
    NoBits();
  }

  /** One more than the largest word of k bits, for k up to 16. */
  function Limit(k: nat): bv32 {
    if k == 0 then 0x1 else if k == 1 then 0x2 else if k == 2 then 0x4 else if k == 3 then 0x8 else
    if k == 4 then 0x10 else if k == 5 then 0x20 else if k == 6 then 0x40 else if k == 7 then 0x80 else
    if k == 8 then 0x100 else if k == 9 then 0x200 else if k == 10 then 0x400 else if k == 11 then 0x800 else
    if k == 12 then 0x1000 else if k == 13 then 0x2000 else if k == 14 then 0x4000 else if k == 15 then 0x8000 else
    0x1_0000
  }

  predicate Below(x: bv32, limit: bv32) { x < limit }

  lemma LimitDoubles(k: nat, x: bv32, odd: bool)
    requires k < 16 && Below(x, Limit(k))
    ensures Below(Push(x, odd), Limit(k + 1)) && Fits31(x)
  {
    hide Push, Below;
    assert Limit(k) <= 0x8000 && Limit(k + 1) == Limit(k) << 1;
    PushFits(x, odd, Limit(k));
  }

  lemma PushFits(x: bv32, odd: bool, limit: bv32)
    requires Below(x, limit) && limit <= 0x8000
    ensures Below(Push(x, odd), limit << 1) && Fits31(x)
  {
    hide Push;
    if odd {
      PushOdd(x, limit);
    } else {
      PushEven(x, limit);
    }
  }

  lemma PushOdd(x: bv32, limit: bv32)
    requires x < limit && limit <= 0x8000
    ensures Push(x, true) < limit << 1
  {
  }

  lemma PushEven(x: bv32, limit: bv32)
    requires x < limit && limit <= 0x8000
    ensures Push(x, false) < limit << 1
  {
  }

  lemma ZeroFits(k: nat)
    ensures Below(0, Limit(k)) && Nat(0) == 0
  {
  }

  /** The word for a number below 65536 is below 65536 and stands for the number. */
  lemma {:induction false} WordFits(n: nat, k: nat)
    requires n < Pow2(k) && k <= 16
    ensures Below(Word(n), Limit(k)) && Nat(Word(n)) == n
    decreases k
  {
    hide Limit, Below, Push, Fits31, Nat;
    if n == 0 {
      ZeroFits(k);
    } else {
      var h, odd := n / 2, n % 2 == 1;
      var w := Word(h);
      WordFits(h, k - 1);
      LimitDoubles(k - 1, w, odd);
      NatPush(w, odd);
    }
  }

  /** The Morton number of two numbers: their bits in turn, without tricks. */
  function Morton(row: nat, col: nat): nat
    decreases row + col
  {
    if row == 0 && col == 0 then 0 else 4 * Morton(row / 2, col / 2) + 2 * (row % 2) + col % 2
  }

  lemma NatHalf(x: bv32)
    ensures Nat(x) == 2 * Nat(Half(x)) + Bit(Odd(x)) && Nat(Half(x)) == Nat(x) / 2 && Bit(Odd(x)) == Nat(x) % 2
    ensures Nat(x) == 0 <==> x == 0
    ensures Half(x) == 0 || Half(x) < x
    decreases x
  {
    hide Half, Odd;
    if x == 0 {
      NoBits();
    } else {
      HalfIsSmaller(x);
      NatHalf(Half(x));
      SomeBit(x);
    }
  }

  lemma SomeBit(x: bv32)
    requires x != 0
    ensures Half(x) != 0 || Odd(x)
  {
  }

  lemma {:induction false} InterleaveIsMorton(row: bv32, col: bv32)
    requires Fits16(row) && Fits16(col)
    ensures Nat(Interleave(row, col)) == Morton(Nat(row), Nat(col))
    decreases Nat(row) + Nat(col)
  {
    hide Nat, Half, Odd, Interleave, Push, Fits16, Fits30, Fits31;
    NatHalf(row);
    NatHalf(col);
    if row == 0 && col == 0 {
      ZeroWords();
    } else {
      var h := Interleave(Half(row), Half(col));
      InterleaveBits(row, col);
      HalvesFit(row, col);
      WithinFits(h, Odd(row));
      NatPush(h, Odd(row));
      NatPush(Push(h, Odd(row)), Odd(col));
      InterleaveIsMorton(Half(row), Half(col));
    }
  }

  lemma ZeroWords()
    ensures Nat(Interleave(0, 0)) == 0
  {
    assert Spread(0) == 0;
  }

  lemma WithinFits(x: bv32, odd: bool)
    requires Fits30(x)
    ensures Fits31(x) && Fits31(Push(x, odd))
  {
  }

  /** z_convert on the numbers of a row and a column. */
  function ZConvert(row: nat, col: nat): nat {
    Nat(Interleave(Word(row), Word(col)))
  }

  /** For row and column below 65536 the four rounds of masks give the Morton number. */
  lemma ZConvertIsMorton(row: nat, col: nat)
    requires row < Pow2(16) && col < Pow2(16)
    ensures ZConvert(row, col) == Morton(row, col)
  {
    hide Nat, Interleave, Word, Pow2, Morton, Below;
    WordFits(row, 16);
    WordFits(col, 16);
    BelowFits(Word(row));
    BelowFits(Word(col));
    InterleaveIsMorton(Word(row), Word(col));
  }

  lemma BelowFits(x: bv32)
    requires Below(x, Limit(16))
    ensures Fits16(x)
  {
  }

  /** Row 65536 would share the places of row 256: the bound of 16 bits is needed. */
  lemma BeyondTheBound(col: bv32)
    ensures Interleave(0x1_0000, col) == Interleave(0x100, col)
  {
    assert Spread(0x1_0000) == 0x1_0000;
    assert Spread(0x100) == 0x1_0000;
    hide Spread;
  }
}
