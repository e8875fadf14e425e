/** The CRC-32 of common/checksum.c: a table filled once and used byte by byte equals
    the bit-by-bit reflected CRC (RFC 1952, section 8). */
module Checksum {
  import opened Common
  import opened Bits

  const POLY: nat := 0xEDB8_8320
  const ONES: nat := 0xFFFF_FFFF

  const BYTE_BITS: nat := 8

  function Shift(crc: nat): nat {
    if crc % 2 == 1 then Xor(crc / 2, POLY) else crc / 2
  }

  function Shifts(crc: nat, n: nat): nat
    decreases n, crc
  {
    if n == 0 then crc else Shifts(Shift(crc), n - 1)
  }

  /** One message bit, the lowest of `bits`, enters the register. */
  function PutBit(crc: nat, bits: nat): nat {
    if (crc % 2 + bits % 2) % 2 == 1 then Xor(crc / 2, POLY) else crc / 2
  }

  /** The `n` low bits of a byte, the least significant first. */
  function PutBits(crc: nat, bits: nat, n: nat): nat
    decreases n, crc
  {
    if n == 0 then crc else PutBits(PutBit(crc, bits), bits / 2, n - 1)
  }

  function PutBytes(crc: nat, s: seq<Byte>): nat {
    if s == [] then crc else PutBits(PutBytes(crc, s[..|s| - 1]), s[|s| - 1], BYTE_BITS)
  }

  /** The CRC of the bits of a message, one after the other. */
  function Crc(s: seq<Byte>): nat {
    if s == [] then 0 else Xor(PutBytes(ONES, s), ONES)
  }

  // ---- bits and bytes ----

  lemma BitEnters(crc: nat, bits: nat)
    ensures Shift(Xor(crc, bits)) == Xor(PutBit(crc, bits), bits / 2)
  {
    XorBits(crc, bits);
    XorRegroups(crc / 2, bits / 2, POLY);
    XorSwaps(bits / 2, POLY);
    XorRegroups(crc / 2, POLY, bits / 2);
  }

  /** Feeding bits one by one is shifting the register with all of them in it. */
  lemma {:induction false} BitsEnter(crc: nat, bits: nat, n: nat)
    requires bits < Pow2(n)
    ensures Shifts(Xor(crc, bits), n) == PutBits(crc, bits, n)
    decreases n
  {
    if n == 0 {
      XorZero(crc);
    } else {
      BitEnters(crc, bits);
      BitsEnter(PutBit(crc, bits), bits / 2, n - 1);
    }
  }

  /** Shifting is linear. */
  lemma {:induction false} LinearShift(a: nat, b: nat)
    ensures Shift(Xor(a, b)) == Xor(Shift(a), Shift(b))
  {
    BitEnters(a, b);
    var x, y := a / 2, b / 2;
    if b % 2 == 1 {
      if a % 2 == 1 {
        XorRegroups(x, POLY, Xor(y, POLY));
        XorSwaps(y, POLY);
        XorRegroups(POLY, POLY, y);
        XorZero(POLY);
        XorSwaps(0, y);
        XorZero(y);
      } else {
        XorRegroups(x, POLY, y);
        XorSwaps(POLY, y);
      }
    }
  }

  lemma {:induction false} LinearShifts(a: nat, b: nat, n: nat)
    ensures Shifts(Xor(a, b), n) == Xor(Shifts(a, n), Shifts(b, n))
    decreases n
  {
    if n > 0 {
      LinearShift(a, b);
      LinearShifts(Shift(a), Shift(b), n - 1);
    }
  }

  /** Eight shifts of a register whose low byte is clear only move it. */
  lemma {:induction false} ClearBits(high: nat, q: nat, n: nat)
    requires high == q * Pow2(n)
    ensures Shifts(high, n) == q
    decreases n
  {
    if n > 0 {
      HalfOf(high, q, Pow2(n - 1));
      ClearBits(high / 2, q, n - 1);
    }
  }

  lemma Pow2Is()
    ensures Pow2(8) == 256 && Pow2(32) == 0x1_0000_0000
  {
    assert Pow2(4) == 16 && Pow2(8) == 16 * Pow2(4);
    assert Pow2(16) == 256 * Pow2(8) by {
      assert Pow2(12) == 16 * Pow2(8) && Pow2(16) == 16 * Pow2(12);
    }
    assert Pow2(24) == 256 * Pow2(16) by {
      assert Pow2(20) == 16 * Pow2(16) && Pow2(24) == 16 * Pow2(20);
    }
    assert Pow2(32) == 256 * Pow2(24) by {
      assert Pow2(28) == 16 * Pow2(24) && Pow2(32) == 16 * Pow2(28);
    }
  }

  lemma ShiftBound(crc: Word, n: nat)
    ensures Shifts(crc, n) < 0x1_0000_0000
    decreases n
  {
    if n > 0 {
      Pow2Is();
      XorBound(crc / 2, POLY, 32);
      ShiftBound(Shift(crc), n - 1);
    }
  }

  /** One step of the table-driven loop: `((crc >> 8) & 0x00FFFFFF) ^ table[(crc ^ c) & 0xFF]`. */
  function Step(crc: Word, c: Byte, n: nat): nat {
    Xor(crc / 256 % 0x100_0000, Shifts(Xor(crc, c) % 256, n))
  }

  function Half(a: nat, n: nat): nat {
    if n == 0 then a else Half(a / 2, n - 1)
  }

  lemma {:induction false} XorHalves(a: nat, b: nat, n: nat)
    ensures Half(Xor(a, b), n) == Xor(Half(a, n), Half(b, n))
    decreases n
  {
    if n > 0 {
      XorBits(a, b);
      XorHalves(a / 2, b / 2, n - 1);
    }
  }

  lemma EightHalves(a: nat)
    ensures Half(a, 8) == a / 256
  {
    var a1 := a / 2;
    var a2 := a1 / 2;
    var a3 := a2 / 2;
    var a4 := a3 / 2;
    var a5 := a4 / 2;
    var a6 := a5 / 2;
    var a7 := a6 / 2;
    assert Half(a, 8) == Half(a1, 7) && Half(a1, 7) == Half(a2, 6) && Half(a2, 6) == Half(a3, 5);
    assert Half(a3, 5) == Half(a4, 4) && Half(a4, 4) == Half(a5, 3) && Half(a5, 3) == Half(a6, 2);
    assert Half(a6, 2) == Half(a7, 1) && Half(a7, 1) == a7 / 2;
  }

  /** A byte changes only the low byte of the register. */
  lemma HighBytes(crc: nat, c: Byte)
    ensures Xor(crc, c) / 256 == crc / 256
  {
    XorHalves(crc, c, 8);
    EightHalves(Xor(crc, c));
    EightHalves(crc);
    EightHalves(c);
    XorZero(crc / 256);
  }

  lemma SplitShift(x: nat, n: nat)
    requires n == 8
    ensures Shifts(x, n) == Xor(x / 256, Shifts(x % 256, n))
  {
    Pow2Is();
    var q, low := x / 256, x % 256;
    XorDisjoint(q * 256, q, low, n);
    LinearShifts(q * 256, low, n);
    ClearBits(q * 256, q, n);
  }

  lemma StepIsShifts(crc: Word, c: Byte, n: nat)
    requires n == 8
    ensures Step(crc, c, n) == Shifts(Xor(crc, c), n)
  {
    MaskKeeps(crc);
    SplitShift(Xor(crc, c), n);
    HighBytes(crc, c);
  }

  /** `(crc >> 8) & 0x00FFFFFF` drops nothing of a 32-bit register. */
  lemma MaskKeeps(crc: Word)
    ensures crc / 256 % 0x100_0000 == crc / 256
  {
  }

  lemma WordXor(a: Word, b: Word)
    ensures Xor(a, b) < 0x1_0000_0000
  {
    Pow2Is();
    XorBound(a, b, 32);
  }

  /** The table step is feeding the eight bits of the byte. */
  lemma StepIsBits(crc: Word, c: Byte, n: nat)
    requires n == 8
    ensures Step(crc, c, n) == PutBits(crc, c, n) < 0x1_0000_0000
  {
    StepIsShifts(crc, c, n);
    ByteFits(c, n);
    BitsEnter(crc, c, n);
    WordXor(crc, c);
    ShiftBound(Xor(crc, c), n);
  }

  lemma ByteFits(c: Byte, n: nat)
    requires n == 8
    ensures c < Pow2(n)
  {
  }

  lemma PutNext(crc: nat, s: seq<Byte>, k: nat)
    requires k < |s|
    ensures PutBytes(crc, s[..k + 1]) == PutBits(PutBytes(crc, s[..k]), s[k], BYTE_BITS)
  {
    assert s[..k + 1][..k] == s[..k];
  }

  // ---- some values ----

  lemma HalfOfOnes(q: nat, p: nat)
    requires p > 0
    ensures (q * (2 * p) + (2 * p - 1)) / 2 == q * p + (p - 1) && (q * (2 * p) + (2 * p - 1)) % 2 == 1
  {
    assert q * (2 * p) == 2 * (q * p);
  }

  /** Set bits of the message meet set bits of the register and only shift them out. */
  lemma {:induction false} OnesMeet(q: nat, n: nat)
    ensures PutBits(q * Pow2(n) + (Pow2(n) - 1), Pow2(n) - 1, n) == q
    decreases n
  {
    if n > 0 {
      var p := Pow2(n - 1);
      HalfOfOnes(q, p);
      HalfOfOnes(0, p);
      OnesMeet(q, n - 1);
      assert PutBit(q * (2 * p) + (2 * p - 1), 2 * p - 1) == q * p + (p - 1);
    }
  }

  lemma ByteOfOnes(crc: nat, q: nat, n: nat)
    requires crc == 256 * q + 255 && n == 8
    ensures PutBits(crc, 0xFF, n) == q
  {
    Pow2Is();
    OnesMeet(q, n);
  }

  lemma OneBitEnters(crc: nat, bit: nat, n: nat)
    requires crc == 0 && bit == 1 && n == 1
    ensures PutBits(crc, bit, n) == POLY
  {
    ZeroXor(crc / 2, POLY);
    var one := PutBit(crc, bit);
    assert PutBits(one, bit / 2, n - 1) == one;
  }

  /** The last bit of a byte enters a clear register. */
  lemma {:induction false} LastBitEnters(bits: nat, n: nat)
    requires n > 0 && bits == Pow2(n - 1)
    ensures PutBits(0, bits, n) == POLY
    decreases n
  {
    if n == 1 {
      OneBitEnters(0, bits, n);
    } else {
      var p := Pow2(n - 2);
      assert bits == 2 * p && PutBit(0, bits) == 0;
      LastBitEnters(p, n - 1);
    }
  }

  lemma LastByte(n: nat)
    requires n == 8
    ensures PutBits(0, 0x80, n) == POLY
  {
    Pow2Is();
    LastBitEnters(128, n);
  }

  lemma Complement(a: Word)
    ensures Xor(a, ONES) == ONES - a
  {
    Pow2Is();
    XorAllOnes(a, 32, ONES);
  }

  lemma FourOnes()
    ensures PutBytes(ONES, [0xFF]) == 0x00FF_FFFF && PutBytes(ONES, [0xFF, 0xFF, 0xFF, 0xFF]) == 0
  {
    var s := [0xFF, 0xFF, 0xFF, 0xFF];
    assert s[..0] == [] && s[..1] == [0xFF] && s[..4] == s;
    PutNext(ONES, s, 0);
    PutNext(ONES, s, 1);
    PutNext(ONES, s, 2);
    PutNext(ONES, s, 3);
    ByteOfOnes(ONES, 0x00FF_FFFF, BYTE_BITS);
    ByteOfOnes(0x00FF_FFFF, 0xFFFF, BYTE_BITS);
    ByteOfOnes(0xFFFF, 0xFF, BYTE_BITS);
    ByteOfOnes(0xFF, 0, BYTE_BITS);
  }

  /** Known checksums: they fix the start and the end value, the order of the bits and the
      polynomial. */
  lemma KnownValues()
    ensures Crc([]) == 0 && Crc([0xFF]) == 0xFF00_0000 && Crc([0xFF, 0xFF, 0xFF, 0xFF]) == 0xFFFF_FFFF
    ensures Crc([0xFF, 0xFF, 0xFF, 0xFF, 0x80]) == 0x1247_7CDF
  {
    var s := [0xFF, 0xFF, 0xFF, 0xFF, 0x80];
    assert s[..4] == [0xFF, 0xFF, 0xFF, 0xFF] && s[..5] == s;
    FourOnes();
    PutNext(ONES, s, 4);
    Pow2Is();
    LastByte(BYTE_BITS);
    Complement(0x00FF_FFFF);
    Complement(0);
    Complement(POLY);
  }

  // ---- the code ----

  function Backward(s: seq<Byte>): (r: seq<Byte>)
    ensures |r| == |s| && forall i :: 0 <= i < |s| ==> r[i] == s[|s| - 1 - i]
  {
    seq(|s|, i requires 0 <= i < |s| => s[|s| - 1 - i])
  }

  class Crc32 {
    var table: array<nat>
    var initialized: bool

    ghost predicate Valid()
      reads this, table
    {
      table.Length == 256 && (initialized ==> forall x :: 0 <= x < 256 ==> table[x] == Shifts(x, BYTE_BITS))
    }

    constructor ()
      ensures Valid() && fresh(table) && !initialized
    {
      table := new nat[256];
      initialized := false;
    }

    method FillEntry(x: Byte) returns (crc: nat)
      ensures crc == Shifts(x, BYTE_BITS)
    {
      crc := x;
      for y := BYTE_BITS downto 0
        invariant Shifts(crc, y) == Shifts(x, BYTE_BITS)
      {
        if crc % 2 == 1 {
          crc := Xor(crc / 2, POLY);
        } else {
          crc := crc / 2;
        }
      }
    }

    /** crc32_init: the table is filled the first time only. */
    method Init()
      requires Valid()
      modifies this`initialized, table
      ensures Valid() && initialized
    {
      if initialized {
        return;
      }
      for x := 0 to 256
        invariant !initialized && forall k :: 0 <= k < x ==> table[k] == Shifts(k, BYTE_BITS)
      {
        table[x] := FillEntry(x);
      }
      initialized := true;
    }

    method Lookup(crc: Word, c: Byte) returns (r: Word)
      requires Valid() && initialized
      ensures r == PutBits(crc, c, BYTE_BITS)
    {
      StepIsBits(crc, c, BYTE_BITS);
      r := Xor(crc / 256 % 0x100_0000, table[Xor(crc, c) % 256]);
    }

    /** crc32; the buffer length is an int, so no buffer is longer. */
    method Compute(buf: seq<Byte>) returns (result: nat)
      requires Valid()
      modifies this`initialized, table
      ensures Valid() && result == Crc(buf)
    {
      if buf == [] {
        return 0;
      }
      Init();
      var crc: Word := ONES;
      for i := 0 to |buf|
        invariant Valid() && initialized && crc == PutBytes(ONES, buf[..i])
      {
        PutNext(ONES, buf, i);
        crc := Lookup(crc, buf[i]);
      }
      assert buf[..|buf|] == buf;
      result := Xor(crc, ONES);
    }

    /** crc32rev: the same over the bytes from the last to the first. */
    method ComputeReversed(buf: seq<Byte>) returns (result: nat)
      requires Valid()
      modifies this`initialized, table
      ensures Valid() && result == Crc(Backward(buf))
    {
      if buf == [] {
        return 0;
      }
      Init();
      ghost var r := Backward(buf);
      var crc: Word := ONES;
      for i := |buf| downto 0
        invariant Valid() && initialized && crc == PutBytes(ONES, r[..|buf| - i])
      {
        PutNext(ONES, r, |buf| - 1 - i);
        crc := Lookup(crc, buf[i]);
      }
      assert r[..|buf|] == r;
      result := Xor(crc, ONES);
    }
  }
}
