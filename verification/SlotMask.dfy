/** Single bits of the 32-bit mask of free key slots. */
module SlotMask {

  function Bit(k: nat): bv32
    requires k < 32
  {
    if k == 0 then 1 else Bit(k - 1) << 1
  }

  lemma ShiftBoth(x: bv32, y: bv32)
    requires x & y == 0
    ensures (x << 1) & (y << 1) == 0
  {
  }

  lemma {:induction false} BitsDiffer(j: nat, k: nat)
    requires j < k < 32
    ensures Bit(j) & Bit(k) == 0
  {
    if j == 0 {
      OneAndEven(Bit(k - 1));
    } else {
      BitsDiffer(j - 1, k - 1);
      ShiftBoth(Bit(j - 1), Bit(k - 1));
    }
  }

  lemma OneAndEven(x: bv32)
    ensures 1 & (x << 1) == 0
  {
  }

  lemma OneUp(k: nat)
    requires k + 1 < 32
    ensures Bit(k + 1) == Bit(k) << 1
  {
  }

  lemma FourUp(k: nat, x: bv32)
    requires k + 4 < 32 && Bit(k) == x
    ensures Bit(k + 4) == (((x << 1) << 1) << 1) << 1
  {
    OneUp(k);
    OneUp(k + 1);
    OneUp(k + 2);
    OneUp(k + 3);
    hide Bit;
  }

  lemma TopBit()
    ensures Bit(31) == 0x8000_0000
  {
    hide Bit;
    BitZero();
    FourUp(0, 0x1);
    FourUp(4, 0x10);
    FourUp(8, 0x100);
    FourUp(12, 0x1000);
    FourUp(16, 0x1_0000);
    FourUp(20, 0x10_0000);
    FourUp(24, 0x100_0000);
    OneUp(28);
    OneUp(29);
    OneUp(30);
  }

  lemma BitZero()
    ensures Bit(0) == 1
  {
  }

  lemma ShiftKeeps(x: bv32)
    requires x != 0 && x & 0x8000_0000 == 0
    ensures x << 1 != 0
  {
  }

  lemma {:induction false} BitNonzero(k: nat)
    requires k < 32
    ensures Bit(k) != 0
  {
    if k != 0 {
      BitNonzero(k - 1);
      BitsDiffer(k - 1, 31);
      TopBit();
      ShiftKeeps(Bit(k - 1));
    }
  }

  predicate Meets(x: bv32, y: bv32) { x & y != 0 }
  predicate Covers(x: bv32, y: bv32) { x & y == y }
  function Clear(mask: bv32, b: bv32): bv32 { mask & !b }
  function Raise(mask: bv32, b: bv32): bv32 { mask | b }

  lemma ClearedOwn(m: bv32, b: bv32)
    ensures !Meets(Clear(m, b), b)
  {
    assert (m & !b) & b == 0;
  }

  lemma ClearedOther(m: bv32, b: bv32, c: bv32)
    requires !Meets(b, c)
    ensures Meets(Clear(m, b), c) == Meets(m, c)
  {
    OutsideIsKept(b, c);
    hide Meets, Covers;
    Narrowed(m, !b, c);
  }

  lemma RaisedOwn(m: bv32, b: bv32)
    requires b != 0
    ensures Meets(Raise(m, b), b)
  {
    assert (m | b) & b == b;
  }

  lemma RaisedOther(m: bv32, b: bv32, c: bv32)
    requires !Meets(b, c)
    ensures Meets(Raise(m, b), c) == Meets(m, c)
  {
    AndDistributes(m, b, c);
    OrZero(m & c);
  }

  lemma OutsideIsKept(b: bv32, c: bv32)
    requires !Meets(b, c)
    ensures Covers(!b, c)
  {
  }

  lemma Narrowed(m: bv32, y: bv32, c: bv32)
    requires Covers(y, c)
    ensures Meets(m & y, c) == Meets(m, c)
  {
    AndAssociates(m, y, c);
  }

  lemma AndAssociates(x: bv32, y: bv32, z: bv32)
    ensures (x & y) & z == x & (y & z)
  {
  }

  lemma AndDistributes(x: bv32, y: bv32, z: bv32)
    ensures (x | y) & z == (x & z) | (y & z)
  {
  }

  lemma OrZero(x: bv32)
    ensures x | 0 == x
  {
  }

  lemma Commute(x: bv32, y: bv32)
    ensures Meets(x, y) == Meets(y, x)
  {
  }

  lemma BitsApart(j: nat, k: nat)
    requires j < 32 && k < 32 && j != k
    ensures !Meets(Bit(j), Bit(k))
  {
    if j < k {
      BitsDiffer(j, k);
    } else {
      BitsDiffer(k, j);
      Commute(Bit(j), Bit(k));
    }
  }

  predicate BitSet(mask: bv32, k: nat)
    requires k < 32
  {
    Meets(mask, Bit(k))
  }

  /** Clearing and setting one bit does just that. */
  lemma OneBit(mask: bv32, k: nat, j: nat)
    requires k < 32 && j < 32
    ensures BitSet(Clear(mask, Bit(k)), j) <==> j != k && BitSet(mask, j)
    ensures BitSet(Raise(mask, Bit(k)), j) <==> j == k || BitSet(mask, j)
  {
    hide Bit, Meets, Clear, Raise;
    BitNonzero(k);
    if j == k {
      ClearedOwn(mask, Bit(k));
      RaisedOwn(mask, Bit(k));
    } else {
      BitsApart(k, j);
      ClearedOther(mask, Bit(k), Bit(j));
      RaisedOther(mask, Bit(k), Bit(j));
    }
  }

  lemma AllSet(j: nat)
    requires j < 32
    ensures BitSet(0xFFFF_FFFF, j)
  {
    BitNonzero(j);
    hide Bit;
    assert 0xFFFF_FFFF & Bit(j) == Bit(j);
  }
}
