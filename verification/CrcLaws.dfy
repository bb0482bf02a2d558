/**
  What the checksums are good for (crc.c): a message followed by its register ends
  in zero, and two messages that differ in one byte have different checksums.
*/
module CrcLaws {
  import opened Numerals
  import opened ShiftRegister
  import opened Crc

  /** A byte goes in as eight steps of what it makes of the register's low end. */
  lemma FeedByte(p: bv32, reg: bv32, b: bv8)
    ensures FeedBits(p, reg, b as bv32, 8) == Shifts(p, Xor(reg, b as bv32), 8)
  {
    hide FeedBits, Shifts, Xor, Halves, Down8;
    FeedAll(p, reg, b as bv32, 8);
    HalvesEight(b as bv32);
    Small(b);
    XorZero(FeedBits(p, reg, b as bv32, 8));
  }

  lemma Small(b: bv8)
    ensures Down8(b as bv32) == 0
  {
  }

  // ----- a message and its register -----

  function LowByteOf(reg: bv32): bv8 {
    Low(reg) as bv8
  }

  lemma LowByteIs(reg: bv32)
    ensures LowByteOf(reg) as bv32 == Low(reg) && Xor(reg, Low(reg)) == High(reg)
  {
  }

  lemma OwnByte(p: bv32, reg: bv32)
    ensures FeedBits(p, reg, LowByteOf(reg) as bv32, 8) == Down8(reg)
  {
    hide FeedBits, Shifts, Xor, Down8, LowByteOf, High, Low;
    FeedByte(p, reg, LowByteOf(reg));
    LowByteIs(reg);
    ShiftsHigh(p, reg);
  }

  /** The register as bytes, the lowest first. */
  function RegisterBytes(reg: bv32, n: nat): seq<bv8>
    decreases n
  {
    if n == 0 then [] else [LowByteOf(reg)] + RegisterBytes(Down8(reg), n - 1)
  }

  function Downs(reg: bv32, n: nat): bv32
    decreases n
  {
    if n == 0 then reg else Downs(Down8(reg), n - 1)
  }

  lemma {:induction false} OwnBytes(p: bv32, reg: bv32, n: nat)
    ensures Serial(p, reg, RegisterBytes(reg, n)) == Downs(reg, n)
    decreases n
  {
    hide FeedBits, Down8, LowByteOf;
    if n > 0 {
      OwnByte(p, reg);
      OwnBytes(p, Down8(reg), n - 1);
      assert ([LowByteOf(reg)] + RegisterBytes(Down8(reg), n - 1))[1..] == RegisterBytes(Down8(reg), n - 1);
    }
  }

  lemma DownToZero(reg: bv32)
    ensures Down8(Down8(Down8(Down8(reg)))) == 0 && (reg < 0x10000 ==> Down8(Down8(reg)) == 0)
  {
  }

  /** A message followed by its CRC-32 register leaves the register at zero. */
  lemma Residue32(s: seq<bv8>)
    ensures Serial(POLY32, 0xffffffff, s + RegisterBytes(Serial(POLY32, 0xffffffff, s), 4)) == 0
  {
    hide Serial, Down8, RegisterBytes;
    var reg := Serial(POLY32, 0xffffffff, s);
    SerialConcat(POLY32, 0xffffffff, s, RegisterBytes(reg, 4));
    OwnBytes(POLY32, reg, 4);
    assert Downs(reg, 4) == Down8(Down8(Down8(Down8(reg))));
    DownToZero(reg);
  }

  /** The same for the 16-bit register. */
  lemma Residue16(s: seq<bv8>)
    ensures Serial(POLY16, 0xffff, s + RegisterBytes(Serial(POLY16, 0xffff, s), 2)) == 0
  {
    hide Serial, Down8, RegisterBytes;
    var reg := Serial(POLY16, 0xffff, s);
    SerialConcat(POLY16, 0xffff, s, RegisterBytes(reg, 2));
    OwnBytes(POLY16, reg, 2);
    Narrow(0xffff, s);
    assert Downs(reg, 2) == Down8(Down8(reg));
    DownToZero(reg);
  }

  // ----- 16-bit registers stay 16 bits wide -----

  lemma NarrowShift(x: bv32)
    requires x < 0x10000
    ensures Shift(POLY16, x) < 0x10000
  {
  }

  lemma {:induction false} NarrowShifts(x: bv32, n: nat)
    requires x < 0x10000
    ensures Shifts(POLY16, x, n) < 0x10000
    decreases n
  {
    hide Shift;
    if n > 0 {
      NarrowShift(x);
      NarrowShifts(Shift(POLY16, x), n - 1);
    }
  }

  lemma NarrowByte(reg: bv32, b: bv8)
    requires reg < 0x10000
    ensures Xor(reg, b as bv32) < 0x10000
  {
  }

  lemma {:induction false} Narrow(reg: bv32, s: seq<bv8>)
    requires reg < 0x10000
    ensures Serial(POLY16, reg, s) < 0x10000
    decreases |s|
  {
    hide FeedBits, Shifts, Xor;
    if s != [] {
      FeedByte(POLY16, reg, s[0]);
      NarrowByte(reg, s[0]);
      NarrowShifts(Xor(reg, s[0] as bv32), 8);
      Narrow(FeedBits(POLY16, reg, s[0] as bv32, 8), s[1..]);
    }
  }

  // ----- nothing is lost in the register -----

  /** The two registers in use. */
  predicate Width(p: bv32, x: bv32) {
    p == POLY32 || (p == POLY16 && x < 0x10000)
  }

  lemma Injective32(x: bv32, y: bv32)
    requires Shift(POLY32, x) == Shift(POLY32, y)
    ensures x == y
  {
  }

  lemma Injective16(x: bv32, y: bv32)
    requires x < 0x10000 && y < 0x10000 && Shift(POLY16, x) == Shift(POLY16, y)
    ensures x == y
  {
  }

  lemma {:induction false} ShiftsInjective(p: bv32, x: bv32, y: bv32, n: nat)
    requires Width(p, x) && Width(p, y) && Shifts(p, x, n) == Shifts(p, y, n)
    ensures x == y
    decreases n
  {
    hide Shift;
    if n > 0 {
      if p == POLY16 {
        NarrowShift(x);
        NarrowShift(y);
      }
      ShiftsInjective(p, Shift(p, x), Shift(p, y), n - 1);
      if p == POLY32 {
        Injective32(x, y);
      } else {
        Injective16(x, y);
      }
    }
  }

  lemma XorCancels(a: bv32, b: bv32, c: bv32)
    requires Xor(a, c) == Xor(b, c)
    ensures a == b
  {
  }

  lemma ByteSame(reg: bv32, a: bv8, b: bv8)
    requires Xor(reg, a as bv32) == Xor(reg, b as bv32)
    ensures a == b
  {
  }

  lemma WidthByte(p: bv32, reg: bv32, b: bv8)
    requires Width(p, reg)
    ensures Width(p, Xor(reg, b as bv32)) && Width(p, FeedBits(p, reg, b as bv32, 8))
  {
    hide FeedBits, Shifts, Xor;
    if p == POLY16 {
      NarrowByte(reg, b);
      FeedByte(p, reg, b);
      NarrowShifts(Xor(reg, b as bv32), 8);
    }
  }

  /** Different registers stay different over any message. */
  lemma {:induction false} Apart(p: bv32, x: bv32, y: bv32, s: seq<bv8>)
    requires Width(p, x) && Width(p, y) && x != y
    ensures Serial(p, x, s) != Serial(p, y, s)
    decreases |s|
  {
    hide FeedBits, Shifts, Xor, Width;
    if s != [] {
      var b := s[0];
      FeedByte(p, x, b);
      FeedByte(p, y, b);
      WidthByte(p, x, b);
      WidthByte(p, y, b);
      if FeedBits(p, x, b as bv32, 8) == FeedBits(p, y, b as bv32, 8) {
        ShiftsInjective(p, Xor(x, b as bv32), Xor(y, b as bv32), 8);
        XorCancels(x, y, b as bv32);
      }
      Apart(p, FeedBits(p, x, b as bv32, 8), FeedBits(p, y, b as bv32, 8), s[1..]);
    }
  }

  lemma BytesApart(p: bv32, reg: bv32, a: bv8, b: bv8)
    requires Width(p, reg) && a != b
    ensures FeedBits(p, reg, a as bv32, 8) != FeedBits(p, reg, b as bv32, 8)
  {
    hide FeedBits, Shifts, Xor, Width;
    FeedByte(p, reg, a);
    FeedByte(p, reg, b);
    WidthByte(p, reg, a);
    WidthByte(p, reg, b);
    if FeedBits(p, reg, a as bv32, 8) == FeedBits(p, reg, b as bv32, 8) {
      ShiftsInjective(p, Xor(reg, a as bv32), Xor(reg, b as bv32), 8);
      ByteSame(reg, a, b);
    }
  }

  lemma {:induction false} WidthKept(p: bv32, reg: bv32, s: seq<bv8>)
    requires Width(p, reg)
    ensures Width(p, Serial(p, reg, s))
  {
    hide Serial;
    if p == POLY16 {
      Narrow(reg, s);
    }
  }

  /** One changed byte, anywhere, changes the checksum. */
  lemma ByteChange(p: bv32, reg: bv32, u: seq<bv8>, a: bv8, b: bv8, w: seq<bv8>)
    requires Width(p, reg) && a != b
    ensures Serial(p, reg, u + [a] + w) != Serial(p, reg, u + [b] + w)
  {
    hide Serial, FeedBits, Width;
    var x := Serial(p, reg, u);
    WidthKept(p, reg, u);
    OneByte(p, x, a);
    OneByte(p, x, b);
    BytesApart(p, x, a, b);
    WidthByte(p, x, a);
    WidthByte(p, x, b);
    Apart(p, FeedBits(p, x, a as bv32, 8), FeedBits(p, x, b as bv32, 8), w);
    SerialConcat(p, reg, u + [a], w);
    SerialConcat(p, reg, u, [a]);
    SerialConcat(p, reg, u + [b], w);
    SerialConcat(p, reg, u, [b]);
  }

  lemma OneByte(p: bv32, reg: bv32, b: bv8)
    ensures Serial(p, reg, [b]) == FeedBits(p, reg, b as bv32, 8)
  {
    hide FeedBits;
    assert [b][1..] == [];
  }

  // ----- the text of a checksum -----

  /** The complement flips all sixteen bits. */
  lemma FlipIs(x: bv32)
    requires x < 0x10000
    ensures Flip(x) < 0x10000 && Xor(x, Flip(x)) == 0xffff && Flip(Flip(x)) == x
  {
  }

  /** The number a text of hexadecimal digits, lowest first, stands for. */
  function ReadDigits(t: string): int {
    if t == "" then 0 else HexValue(t[0]) + 16 * ReadDigits(t[1..])
  }

  lemma DigitReads(d: nat)
    requires d < 16
    ensures HexValue(HexDigit(d)) == d
  {
  }

  function Sixteens(k: nat): nat {
    if k == 0 then 1 else 16 * Sixteens(k - 1)
  }

  /** The digits of a number that fits read back as the number. */
  lemma {:induction false} DigitsRead(n: nat, k: nat)
    requires n < Sixteens(k)
    ensures ReadDigits(Digits(n, k)) == n
    decreases k
  {
    hide HexValue, HexDigit;
    if k > 0 {
      var t := Digits(n, k);
      assert t[0] == HexDigit(n % 16) && t[1..] == Digits(n / 16, k - 1);
      DigitReads(n % 16);
      DigitsRead(n / 16, k - 1);
    }
  }
}
