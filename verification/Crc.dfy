/**
  Checksums (crc.c): the table-driven loops against the shift registers they
  stand for.
*/
module Crc {
  import opened Sequences
  import opened ShiftRegister
  import CrcTable
  import CcittTable

  const POLY32: bv32 := 0xedb88320
  const POLY16: bv32 := 0x8408

  // ----- the tables hold eight steps of their index -----

  lemma Steps32()
    ensures Shift(POLY32, 0x80) == 0x40 && Shift(POLY32, 0x40) == 0x20 && Shift(POLY32, 0x20) == 0x10
    ensures Shift(POLY32, 0x10) == 0x08 && Shift(POLY32, 0x08) == 0x04 && Shift(POLY32, 0x04) == 0x02
    ensures Shift(POLY32, 0x02) == 0x01 && Shift(POLY32, 0x01) == 0xedb88320
    ensures Shift(POLY32, 0xedb88320) == 0x76dc4190
    ensures Shift(POLY32, 0x76dc4190) == 0x3b6e20c8 && Shift(POLY32, 0x3b6e20c8) == 0x1db71064
    ensures Shift(POLY32, 0x1db71064) == 0x0edb8832
    ensures Shift(POLY32, 0x0edb8832) == 0x076dc419 && Shift(POLY32, 0x076dc419) == 0xee0e612c
    ensures Shift(POLY32, 0xee0e612c) == 0x77073096
  {
  }

  lemma Steps16()
    ensures Shift(POLY16, 0x80) == 0x40 && Shift(POLY16, 0x40) == 0x20 && Shift(POLY16, 0x20) == 0x10
    ensures Shift(POLY16, 0x10) == 0x08 && Shift(POLY16, 0x08) == 0x04 && Shift(POLY16, 0x04) == 0x02
    ensures Shift(POLY16, 0x02) == 0x01 && Shift(POLY16, 0x01) == 0x8408 && Shift(POLY16, 0x8408) == 0x4204
    ensures Shift(POLY16, 0x4204) == 0x2102 && Shift(POLY16, 0x2102) == 0x1081 && Shift(POLY16, 0x1081) == 0x8c48
    ensures Shift(POLY16, 0x8c48) == 0x4624 && Shift(POLY16, 0x4624) == 0x2312 && Shift(POLY16, 0x2312) == 0x1189
  {
  }

  lemma Table32(i: bv32)
    requires i < 256
    ensures CrcTable.Table(i) == Shifts(POLY32, i, 8)
  {
    hide Shift, Shifts, Sum, Xor, CrcTable.Table;
    CrcTable.TableBits(i);
    Steps32();
    Eight(POLY32, 0x01);
    Eight(POLY32, 0x02);
    Eight(POLY32, 0x04);
    Eight(POLY32, 0x08);
    Eight(POLY32, 0x10);
    Eight(POLY32, 0x20);
    Eight(POLY32, 0x40);
    Eight(POLY32, 0x80);
    ShiftsSum(POLY32, i, 0x77073096, 0xee0e612c, 0x076dc419, 0x0edb8832,
              0x1db71064, 0x3b6e20c8, 0x76dc4190, 0xedb88320);
  }

  lemma Table16(i: bv32)
    requires i < 256
    ensures CcittTable.Table(i) == Shifts(POLY16, i, 8)
  {
    hide Shift, Shifts, Sum, Xor, CcittTable.Table;
    CcittTable.TableBits(i);
    Steps16();
    Eight(POLY16, 0x01);
    Eight(POLY16, 0x02);
    Eight(POLY16, 0x04);
    Eight(POLY16, 0x08);
    Eight(POLY16, 0x10);
    Eight(POLY16, 0x20);
    Eight(POLY16, 0x40);
    Eight(POLY16, 0x80);
    ShiftsSum(POLY16, i, 0x1189, 0x2312, 0x4624, 0x8c48, 0x1081, 0x2102, 0x4204, 0x8408);
  }

  lemma LowByte(reg: bv32, b: bv8)
    ensures Xor(Low(reg), b as bv32) < 256
  {
  }

  // ----- the 32-bit CRC -----

  /** The table step for one byte. */
  function Update32(hash: bv32, b: bv8): bv32 {
    Xor(CrcTable.Table(Xor(Low(hash), b as bv32)), Down8(hash))
  }

  lemma Next32(s: seq<bv8>, i: nat)
    requires i < |s|
    ensures Serial(POLY32, 0xffffffff, s[..i + 1]) == Update32(Serial(POLY32, 0xffffffff, s[..i]), s[i])
  {
    hide Serial, FeedBits, Shifts, Xor, Low, Down8, CrcTable.Table;
    var reg := Serial(POLY32, 0xffffffff, s[..i]);
    LowByte(reg, s[i]);
    Table32(Xor(Low(reg), s[i] as bv32));
    LookupFeeds(POLY32, reg, s[i], CrcTable.Table(Xor(Low(reg), s[i] as bv32)));
    SerialOne(POLY32, 0xffffffff, s, i);
  }

  /** Four bytes a round, then the rest, is the shift register over the whole string. */
  method Crc32(data: seq<bv8>) returns (hash: bv32)
    ensures hash == Serial(POLY32, 0xffffffff, data)
  {
    hide Serial, Update32;
    hash := 0xffffffff;
    var at, len := 0, |data| / 4;
    SerialNone(POLY32, hash);
    assert data[..0] == [];
    while len > 0
      invariant 0 <= len && at + 4 * len == |data| - |data| % 4 && hash == Serial(POLY32, 0xffffffff, data[..at])
    {
      Next32(data, at);
      hash := Update32(hash, data[at]);
      Next32(data, at + 1);
      hash := Update32(hash, data[at + 1]);
      Next32(data, at + 2);
      hash := Update32(hash, data[at + 2]);
      Next32(data, at + 3);
      hash := Update32(hash, data[at + 3]);
      len, at := len - 1, at + 4;
    }
    len := |data| % 4;
    while len > 0
      invariant 0 <= len && at + len == |data| && hash == Serial(POLY32, 0xffffffff, data[..at])
    {
      Next32(data, at);
      hash := Update32(hash, data[at]);
      len, at := len - 1, at + 1;
    }
    assert data[..|data|] == data;
  }

  // ----- the CCITT checksum -----

  function Update16(crc: bv32, b: bv8): bv32 {
    Xor(CcittTable.Table(Xor(Low(crc), b as bv32)), Down8(crc))
  }

  lemma Feeds16(reg: bv32, b: bv8)
    ensures Update16(reg, b) == FeedBits(POLY16, reg, b as bv32, 8)
  {
    hide FeedBits, Shifts, Xor, Low, Down8, CcittTable.Table;
    LowByte(reg, b);
    Table16(Xor(Low(reg), b as bv32));
    LookupFeeds(POLY16, reg, b, CcittTable.Table(Xor(Low(reg), b as bv32)));
  }

  /** The complement of a 16-bit register. */
  function Flip(crc: bv32): bv32 {
    !crc & 0xffff
  }

  method CcittString(s: seq<bv8>) returns (crc: bv32)
    ensures crc == Flip(Serial(POLY16, 0xffff, s))
  {
    crc := Continue(0xffff, s);
    crc := Flip(crc);
  }

  /** Runs a string through the register. */
  method Continue(start: bv32, s: seq<bv8>) returns (crc: bv32)
    ensures crc == Serial(POLY16, start, s)
  {
    hide Serial, FeedBits, Update16;
    crc := start;
    var at, len := 0, |s|;
    SerialNone(POLY16, start);
    assert s[..0] == [];
    while len > 0
      invariant 0 <= len && at + len == |s| && crc == Serial(POLY16, start, s[..at])
    {
      SerialOne(POLY16, start, s, at);
      Feeds16(crc, s[at]);
      crc := Update16(crc, s[at]);
      at, len := at + 1, len - 1;
    }
    assert s[..|s|] == s;
  }

  function HexDigit(d: nat): char
    requires d < 16
  {
    "0123456789abcdef"[d]
  }

  /** The lowest `k` hexadecimal digits of a number, the lowest first. */
  function Digits(n: nat, k: nat): (t: string)
    ensures |t| == k
    decreases k
  {
    if k == 0 then "" else [HexDigit(n % 16)] + Digits(n / 16, k - 1)
  }

  function LowDigit(n: nat): char {
    HexDigit(n % 16)
  }

  function Upper(n: nat): nat {
    n / 16
  }

  /** Taking one digit off what is still to be written. */
  lemma DigitTaken(t: string, n: nat, k: nat)
    requires k > 0
    ensures t + Digits(n, k) == (t + [LowDigit(n)]) + Digits(Upper(n), k - 1)
    ensures n == 0 ==> LowDigit(n) == '0' && Upper(n) == 0
  {
  }

  /** Writes a number's digits, the lowest first, and fills up with zeros. */
  method ReverseHex(n: nat, size: nat) returns (t: string)
    requires size > 0
    ensures t == Digits(n, size)
  {
    hide Digits, LowDigit, Upper;
    t := "";
    var rest, left := n, size;
    assert t + Digits(rest, left) == Digits(n, size);
    if n == 0 {
      DigitTaken(t, rest, left);
      t, left := t + ['0'], left - 1;
    } else {
      while left > 0 && rest > 0
        invariant 0 <= left <= size && t + Digits(rest, left) == Digits(n, size)
      {
        DigitTaken(t, rest, left);
        t := t + [LowDigit(rest)];
        rest, left := Upper(rest), left - 1;
      }
    }
    while left > 0
      invariant 0 <= left <= size && (left == 0 || rest == 0) && t + Digits(rest, left) == Digits(n, size)
    {
      DigitTaken(t, rest, left);
      t, left := t + ['0'], left - 1;
    }
  }

  /** The checksum text of several strings is that of their concatenation. */
  method CcittStrings(src: seq<seq<bv8>>) returns (dst: string)
    ensures dst == Digits(Flip(Serial(POLY16, 0xffff, Concat(src))) as nat, 4)
  {
    hide Serial, FeedBits, Update16, Flip;
    var crc: bv32 := 0xffff;
    SerialNone(POLY16, crc);
    for i := 0 to |src|
      invariant crc == Serial(POLY16, 0xffff, Concat(src[..i]))
    {
      SerialConcat(POLY16, 0xffff, Concat(src[..i]), src[i]);
      ConcatLast(src[..i], src[i]);
      assert src[..i + 1] == src[..i] + [src[i]];
      crc := Continue(crc, src[i]);
    }
    assert src[..|src|] == src;
    dst := ReverseHex(Flip(crc) as nat, 4);
  }
}
