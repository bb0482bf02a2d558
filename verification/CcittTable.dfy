/**
  The feedback table of the CCITT checksum (crc.c), sixteen entries to a row.
*/
module CcittTable {
  import opened ShiftRegister

  function Row0(l: bv32): bv32 {
    Pick(l, 0x0000, 0x1189, 0x2312, 0x329b, 0x4624, 0x57ad, 0x6536, 0x74bf,
            0x8c48, 0x9dc1, 0xaf5a, 0xbed3, 0xca6c, 0xdbe5, 0xe97e, 0xf8f7)
  }

  function Row1(l: bv32): bv32 {
    Pick(l, 0x1081, 0x0108, 0x3393, 0x221a, 0x56a5, 0x472c, 0x75b7, 0x643e,
            0x9cc9, 0x8d40, 0xbfdb, 0xae52, 0xdaed, 0xcb64, 0xf9ff, 0xe876)
  }

  function Row2(l: bv32): bv32 {
    Pick(l, 0x2102, 0x308b, 0x0210, 0x1399, 0x6726, 0x76af, 0x4434, 0x55bd,
            0xad4a, 0xbcc3, 0x8e58, 0x9fd1, 0xeb6e, 0xfae7, 0xc87c, 0xd9f5)
  }

  function Row3(l: bv32): bv32 {
    Pick(l, 0x3183, 0x200a, 0x1291, 0x0318, 0x77a7, 0x662e, 0x54b5, 0x453c,
            0xbdcb, 0xac42, 0x9ed9, 0x8f50, 0xfbef, 0xea66, 0xd8fd, 0xc974)
  }

  function Row4(l: bv32): bv32 {
    Pick(l, 0x4204, 0x538d, 0x6116, 0x709f, 0x0420, 0x15a9, 0x2732, 0x36bb,
            0xce4c, 0xdfc5, 0xed5e, 0xfcd7, 0x8868, 0x99e1, 0xab7a, 0xbaf3)
  }

  function Row5(l: bv32): bv32 {
    Pick(l, 0x5285, 0x430c, 0x7197, 0x601e, 0x14a1, 0x0528, 0x37b3, 0x263a,
            0xdecd, 0xcf44, 0xfddf, 0xec56, 0x98e9, 0x8960, 0xbbfb, 0xaa72)
  }

  function Row6(l: bv32): bv32 {
    Pick(l, 0x6306, 0x728f, 0x4014, 0x519d, 0x2522, 0x34ab, 0x0630, 0x17b9,
            0xef4e, 0xfec7, 0xcc5c, 0xddd5, 0xa96a, 0xb8e3, 0x8a78, 0x9bf1)
  }

  function Row7(l: bv32): bv32 {
    Pick(l, 0x7387, 0x620e, 0x5095, 0x411c, 0x35a3, 0x242a, 0x16b1, 0x0738,
            0xffcf, 0xee46, 0xdcdd, 0xcd54, 0xb9eb, 0xa862, 0x9af9, 0x8b70)
  }

  function Row8(l: bv32): bv32 {
    Pick(l, 0x8408, 0x9581, 0xa71a, 0xb693, 0xc22c, 0xd3a5, 0xe13e, 0xf0b7,
            0x0840, 0x19c9, 0x2b52, 0x3adb, 0x4e64, 0x5fed, 0x6d76, 0x7cff)
  }

  function Row9(l: bv32): bv32 {
    Pick(l, 0x9489, 0x8500, 0xb79b, 0xa612, 0xd2ad, 0xc324, 0xf1bf, 0xe036,
            0x18c1, 0x0948, 0x3bd3, 0x2a5a, 0x5ee5, 0x4f6c, 0x7df7, 0x6c7e)
  }

  function RowA(l: bv32): bv32 {
    Pick(l, 0xa50a, 0xb483, 0x8618, 0x9791, 0xe32e, 0xf2a7, 0xc03c, 0xd1b5,
            0x2942, 0x38cb, 0x0a50, 0x1bd9, 0x6f66, 0x7eef, 0x4c74, 0x5dfd)
  }

  function RowB(l: bv32): bv32 {
    Pick(l, 0xb58b, 0xa402, 0x9699, 0x8710, 0xf3af, 0xe226, 0xd0bd, 0xc134,
            0x39c3, 0x284a, 0x1ad1, 0x0b58, 0x7fe7, 0x6e6e, 0x5cf5, 0x4d7c)
  }

  function RowC(l: bv32): bv32 {
    Pick(l, 0xc60c, 0xd785, 0xe51e, 0xf497, 0x8028, 0x91a1, 0xa33a, 0xb2b3,
            0x4a44, 0x5bcd, 0x6956, 0x78df, 0x0c60, 0x1de9, 0x2f72, 0x3efb)
  }

  function RowD(l: bv32): bv32 {
    Pick(l, 0xd68d, 0xc704, 0xf59f, 0xe416, 0x90a9, 0x8120, 0xb3bb, 0xa232,
            0x5ac5, 0x4b4c, 0x79d7, 0x685e, 0x1ce1, 0x0d68, 0x3ff3, 0x2e7a)
  }

  function RowE(l: bv32): bv32 {
    Pick(l, 0xe70e, 0xf687, 0xc41c, 0xd595, 0xa12a, 0xb0a3, 0x8238, 0x93b1,
            0x6b46, 0x7acf, 0x4854, 0x59dd, 0x2d62, 0x3ceb, 0x0e70, 0x1ff9)
  }

  function RowF(l: bv32): bv32 {
    Pick(l, 0xf78f, 0xe606, 0xd49d, 0xc514, 0xb1ab, 0xa022, 0x92b9, 0x8330,
            0x7bc7, 0x6a4e, 0x58d5, 0x495c, 0x3de3, 0x2c6a, 0x1ef1, 0x0f78)
  }

  /** The table, indexed by a byte. */
  function Table(i: bv32): bv32 {
    var h, l := (i >> 4) & 0xf, i & 0xf;
    if h == 0 then Row0(l)
    else if h == 1 then Row1(l)
    else if h == 2 then Row2(l)
    else if h == 3 then Row3(l)
    else if h == 4 then Row4(l)
    else if h == 5 then Row5(l)
    else if h == 6 then Row6(l)
    else if h == 7 then Row7(l)
    else if h == 8 then Row8(l)
    else if h == 9 then Row9(l)
    else if h == 10 then RowA(l)
    else if h == 11 then RowB(l)
    else if h == 12 then RowC(l)
    else if h == 13 then RowD(l)
    else if h == 14 then RowE(l)
    else RowF(l)
  }

  /** What each bit of the index contributes. */
  function Bits(i: bv32): bv32 {
    Sum(i, 0x1189, 0x2312, 0x4624, 0x8c48, 0x1081, 0x2102, 0x4204, 0x8408)
  }

  lemma Row0Bits(i: bv32)
    requires i < 256 && (i >> 4) & 0xf == 0
    ensures Row0(i & 0xf) == Bits(i)
  {
  }

  lemma Row1Bits(i: bv32)
    requires i < 256 && (i >> 4) & 0xf == 1
    ensures Row1(i & 0xf) == Bits(i)
  {
  }

  lemma Row2Bits(i: bv32)
    requires i < 256 && (i >> 4) & 0xf == 2
    ensures Row2(i & 0xf) == Bits(i)
  {
  }

  lemma Row3Bits(i: bv32)
    requires i < 256 && (i >> 4) & 0xf == 3
    ensures Row3(i & 0xf) == Bits(i)
  {
  }

  lemma Row4Bits(i: bv32)
    requires i < 256 && (i >> 4) & 0xf == 4
    ensures Row4(i & 0xf) == Bits(i)
  {
  }

  lemma Row5Bits(i: bv32)
    requires i < 256 && (i >> 4) & 0xf == 5
    ensures Row5(i & 0xf) == Bits(i)
  {
  }

  lemma Row6Bits(i: bv32)
    requires i < 256 && (i >> 4) & 0xf == 6
    ensures Row6(i & 0xf) == Bits(i)
  {
  }

  lemma Row7Bits(i: bv32)
    requires i < 256 && (i >> 4) & 0xf == 7
    ensures Row7(i & 0xf) == Bits(i)
  {
  }

  lemma Row8Bits(i: bv32)
    requires i < 256 && (i >> 4) & 0xf == 8
    ensures Row8(i & 0xf) == Bits(i)
  {
  }

  lemma Row9Bits(i: bv32)
    requires i < 256 && (i >> 4) & 0xf == 9
    ensures Row9(i & 0xf) == Bits(i)
  {
  }

  lemma RowABits(i: bv32)
    requires i < 256 && (i >> 4) & 0xf == 10
    ensures RowA(i & 0xf) == Bits(i)
  {
  }

  lemma RowBBits(i: bv32)
    requires i < 256 && (i >> 4) & 0xf == 11
    ensures RowB(i & 0xf) == Bits(i)
  {
  }

  lemma RowCBits(i: bv32)
    requires i < 256 && (i >> 4) & 0xf == 12
    ensures RowC(i & 0xf) == Bits(i)
  {
  }

  lemma RowDBits(i: bv32)
    requires i < 256 && (i >> 4) & 0xf == 13
    ensures RowD(i & 0xf) == Bits(i)
  {
  }

  lemma RowEBits(i: bv32)
    requires i < 256 && (i >> 4) & 0xf == 14
    ensures RowE(i & 0xf) == Bits(i)
  {
  }

  lemma RowFBits(i: bv32)
    requires i < 256 && (i >> 4) & 0xf == 15
    ensures RowF(i & 0xf) == Bits(i)
  {
  }

  /** The table is linear: each entry is the sum of what its bits contribute. */
  lemma TableBits(i: bv32)
    requires i < 256
    ensures Table(i) == Bits(i)
  {
    hide Bits, Row0, Row1, Row2, Row3, Row4, Row5, Row6, Row7,
         Row8, Row9, RowA, RowB, RowC, RowD, RowE, RowF;
    var h := (i >> 4) & 0xf;
    if h == 0 {
      Row0Bits(i);
    } else if h == 1 {
      Row1Bits(i);
    } else if h == 2 {
      Row2Bits(i);
    } else if h == 3 {
      Row3Bits(i);
    } else if h == 4 {
      Row4Bits(i);
    } else if h == 5 {
      Row5Bits(i);
    } else if h == 6 {
      Row6Bits(i);
    } else if h == 7 {
      Row7Bits(i);
    } else if h == 8 {
      Row8Bits(i);
    } else if h == 9 {
      Row9Bits(i);
    } else if h == 10 {
      RowABits(i);
    } else if h == 11 {
      RowBBits(i);
    } else if h == 12 {
      RowCBits(i);
    } else if h == 13 {
      RowDBits(i);
    } else if h == 14 {
      RowEBits(i);
    } else {
      RowFBits(i);
    }
  }
}
