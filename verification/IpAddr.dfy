/**
  The loops of ip_addr.h that print an address into a 40-byte buffer and read
  one from a string.
*/
module IpAddr {
  import opened Wrappers
  import opened Numerals
  import opened Octets
  import opened IpText
  import opened Ip6Text

  const BUFFER := 40

  // ----- printing -----

  lemma DecimalForms(n: nat)
    requires n < 256
    ensures var a, b, c := n / 100, n % 100 / 10, n % 10;
      Decimal(n) == if a != 0 then [Digit(a), Digit(b), Digit(c)]
                    else if b != 0 then [Digit(b), Digit(c)] else [Digit(c)]
  {
    var m := n / 10;
    assert m / 10 == n / 100 && m % 10 == n % 100 / 10;
  }

  lemma HexForms(n: nat)
    requires n < 0x1_0000
    ensures var a, b, c, d := n / 0x1000, n / 0x100 % 16, n / 0x10 % 16, n % 16;
      Hex(n) == if a != 0 then [Digit(a), Digit(b), Digit(c), Digit(d)]
                else if b != 0 then [Digit(b), Digit(c), Digit(d)]
                else if c != 0 then [Digit(c), Digit(d)] else [Digit(d)]
  {
    hide Hex, Digit;
    var m := n / 16;
    var k := m / 16;
    var j := k / 16;
    assert k == n / 0x100 && j == n / 0x1000;
    HexStep(n);
    HexStep(m);
    HexStep(k);
    HexStep(j);
  }

  lemma HexStep(g: nat)
    ensures Hex(g) == if g < 16 then [Digit(g)] else Hex(g / 16) + [Digit(g % 16)]
  {
  }

  /** Writes characters one after the other. */
  method Write(buf: array<char>, offset: nat, t: string) returns (end: nat)
    requires offset + |t| <= buf.Length
    modifies buf
    ensures end == offset + |t| && buf[offset..end] == t && buf[..offset] == old(buf[..offset])
    ensures buf[..end] == old(buf[..offset]) + t
  {
    end := offset + |t|;
    forall i | 0 <= i < |t| {
      buf[offset + i] := t[i];
    }
  }

  method PutDecimal(buf: array<char>, offset: nat, n: nat) returns (end: nat)
    requires n < 256 && offset + 3 <= buf.Length
    modifies buf
    ensures offset < end <= offset + 3 && buf[..end] == old(buf[..offset]) + Decimal(n)
  {
    hide Decimal;
    DecimalForms(n);
    var a, b, c := n / 100, n % 100 / 10, n % 10;
    if a != 0 {
      end := Write(buf, offset, [Digit(a), Digit(b), Digit(c)]);
    } else if b != 0 {
      end := Write(buf, offset, [Digit(b), Digit(c)]);
    } else {
      end := Write(buf, offset, [Digit(c)]);
    }
  }

  method PutHex(buf: array<char>, offset: nat, n: nat) returns (end: nat)
    requires n < 0x1_0000 && offset + 4 <= buf.Length
    modifies buf
    ensures offset < end <= offset + 4 && buf[..end] == old(buf[..offset]) + Hex(n)
  {
    hide Hex;
    HexForms(n);
    var a, b, c, d := n / 0x1000, n / 0x100 % 16, n / 0x10 % 16, n % 16;
    if a != 0 {
      end := Write(buf, offset, [Digit(a), Digit(b), Digit(c), Digit(d)]);
    } else if b != 0 {
      end := Write(buf, offset, [Digit(b), Digit(c), Digit(d)]);
    } else if c != 0 {
      end := Write(buf, offset, [Digit(c), Digit(d)]);
    } else {
      end := Write(buf, offset, [Digit(d)]);
    }
  }

  /** Prints an IPv4 address; the terminator is at most at position 15. */
  method Print4(a: seq<int>, buf: array<char>) returns (end: nat)
    requires Address4(a) && buf.Length == BUFFER
    modifies buf
    ensures end <= 15 && buf[..end] == Text4(a) && buf[end] == '\0'
  {
    hide Decimal;
    end := 0;
    var r := 0;
    while r < 3
      invariant 0 <= r <= 3 && end <= 4 * r && buf[..end] == Dotted(a[..r])
    {
      end := PutDecimal(buf, end, a[r]);
      end := Write(buf, end, ".");
      assert a[..r + 1][..r] == a[..r];
      r := r + 1;
    }
    end := PutDecimal(buf, end, a[3]);
    buf[end] := '\0';
  }

  /** Prints an IPv6 address; the terminator is at most at position 39. */
  method Print6(a: seq<int>, buf: array<char>) returns (end: nat)
    requires |a| == 8 && Groups(a) && buf.Length == BUFFER
    modifies buf
    ensures end < BUFFER && buf[..end] == Joined(a) && buf[end] == '\0'
  {
    hide Hex;
    end := 0;
    var r := 0;
    while r < 7
      invariant 0 <= r <= 7 && end <= 5 * r && buf[..end] == if r == 0 then "" else Joined(a[..r]) + ":"
    {
      end := PutHex(buf, end, a[r]);
      end := Write(buf, end, ":");
      assert a[..r + 1][..r] == a[..r];
      r := r + 1;
    }
    end := PutHex(buf, end, a[7]);
    assert a[..7] + [a[7]] == a;
    buf[end] := '\0';
  }

  // ----- parsing -----

  lemma RunStep4(t: string, k: nat, s: Scan4)
    requires k <= |t|
    ensures Run4(t[k..], s) == if k == |t| then Some(s) else
              match Step4(t[k], s) case None => None case Some(s') => Run4(t[k + 1..], s')
  {
    if k < |t| {
      assert t[k..][1..] == t[k + 1..];
    }
  }

  /** The byte arithmetic of a digit, where it does not overflow. */
  method AddDigit(addr: array<int>, i: nat, c: char)
    requires i < addr.Length && IsDigit(c) && 0 <= addr[i] && addr[i] * 10 + (c as int - '0' as int) < 256
    modifies addr
    ensures addr[..] == old(addr[..])[i := old(addr[i]) * 10 + (c as int - '0' as int)]
  {
    addr[i] := (addr[i] * 10 + c as int - '0' as int) % 256;
  }

  /** The number being read, and zeros after it. */
  ghost predicate Held(addr: array<int>, i: int, j: int)
    reads addr
  {
    && addr.Length == 4 && 0 <= i <= 3 && 0 <= j <= 3 && 0 <= addr[i] < 256
    && (forall n :: i < n < 4 ==> addr[n] == 0)
    && (j == 0 ==> addr[i] == 0) && (j == 1 ==> addr[i] < 10) && (j == 2 ==> addr[i] < 100)
  }

  ghost function At(addr: array<int>, i: int, j: int): Scan4
    requires Held(addr, i, j)
    reads addr
  {
    Scan4(addr[..i], j, addr[i])
  }

  /** A dot and the digit that has to follow it, unless the text ends there. */
  method TakeDot(t: string, k: nat, addr: array<int>, i: nat, ghost j: nat)
    returns (ok: bool, i': nat, j': nat, k': nat)
    requires k < |t| && t[k] == '.' && Held(addr, i, j) && j > 0
    modifies addr
    ensures !ok ==> Run4(t[k..], old(At(addr, i, j))) == None
    ensures ok ==>
              && Held(addr, i', j') && k < k' <= |t| && (j' == 0 ==> k' == |t|)
              && Run4(t[k..], old(At(addr, i, j))) == Run4(t[k'..], At(addr, i', j'))
  {
    hide Run4;
    RunStep4(t, k, At(addr, i, j));
    ok, i', j', k' := false, i + 1, 0, k + 1;
    if i' > 3 {
      return;
    }
    assert addr[..i'] == addr[..i] + [addr[i]];
    ghost var s := At(addr, i', 0);
    if k' < |t| {
      RunStep4(t, k', s);
      if !IsDigit(t[k']) {
        return;
      }
      AddDigit(addr, i', t[k']);
      assert addr[..i'] == s.nums;
      j', k' := 1, k' + 1;
    }
    ok := true;
  }

  /** A second or third digit. */
  method TakeDigit(t: string, k: nat, addr: array<int>, i: nat, j: nat) returns (ok: bool)
    requires k < |t| && t[k] != '.' && Held(addr, i, j) && j > 0
    modifies addr
    ensures !ok ==> Run4(t[k..], old(At(addr, i, j))) == None
    ensures ok ==> Held(addr, i, j + 1) && Run4(t[k..], old(At(addr, i, j))) == Run4(t[k + 1..], At(addr, i, j + 1))
  {
    hide Run4;
    ghost var s := At(addr, i, j);
    RunStep4(t, k, s);
    ok := false;
    if j == 1 && IsDigit(t[k]) {
      if addr[i] == 0 {
        return;
      }
    } else if j == 2 && IsDigit(t[k]) {
      if addr[i] > 25 || (addr[i] == 25 && t[k] > '5') {
        return;
      }
    } else {
      return;
    }
    AddDigit(addr, i, t[k]);
    assert addr[..i] == s.nums;
    ok := true;
  }

  /** An empty string is refused like any string that starts with no digit. */
  method StrToIp(t: string) returns (r: Option<seq<int>>)
    ensures r == Parse4(t)
  {
    hide Run4;
    var addr := new int[4](_ => 0);
    RunStep4(t, 0, Scan4([], 0, 0));
    assert t[0..] == t;
    if |t| == 0 || !IsDigit(t[0]) {
      return None;
    }
    addr[0] := t[0] as int - '0' as int;
    assert addr[..0] == [];
    var i: nat, j: nat, k: nat := 0, 1, 1;
    while k < |t|
      invariant k <= |t| && Held(addr, i, j) && (j == 0 ==> k == |t|)
      invariant Run4(t, Scan4([], 0, 0)) == Run4(t[k..], At(addr, i, j))
      decreases |t| - k
    {
      var ok;
      if t[k] == '.' {
        ok, i, j, k := TakeDot(t, k, addr, i, j);
      } else {
        ok := TakeDigit(t, k, addr, i, j);
        j, k := j + 1, k + 1;
      }
      if !ok {
        return None;
      }
    }
    RunStep4(t, k, At(addr, i, j));
    if i < 3 {
      return None;
    }
    assert addr[..] == addr[..3] + [addr[3]];
    r := Some(addr[..]);
  }

  lemma RunStep6(t: string, k: nat, limit: nat, s: Scan6)
    requires k <= limit <= |t| && Fine(s)
    ensures Run6(t[k..limit], s) == if k == limit then Some(s) else
              match Step6(t[k], s) case None => None case Some(s') => Run6(t[k + 1..limit], s')
  {
    if k < limit {
      assert t[k..limit][0] == t[k] && t[k..limit][1..] == t[k + 1..limit];
    }
  }

  lemma ParseBare(t: string)
    ensures if |t| > 0 && t[0] == '[' then
              if t[|t| - 1] != ']' then Parse6(t) == None else Parse6(t) == ParseRun(t[1..|t| - 1])
            else Parse6(t) == ParseRun(t[0..|t|])
  {
    assert t[0..|t|] == t;
  }

  function ParseRun(u: string): Option<seq<int>> {
    match Run6(u, START)
    case None => None
    case Some(s) => End6(s)
  }

  method AddHex(addr: array<int>, i: nat, h: nat)
    requires i < addr.Length
    modifies addr
    ensures addr[..] == old(addr[..])[i := (old(addr[i]) * 16 + h) % 0x1_0000]
  {
    addr[i] := (addr[i] * 16 + h) % 0x1_0000;
  }

  method StrToIp6(t: string) returns (r: Option<seq<int>>)
    ensures r == Parse6(t)
  {
    hide Run6, HexValue, Parse6, Bare, Zeros, End6;
    var k, limit := 0, |t|;
    ParseBare(t);
    if |t| > 0 && t[0] == '[' {
      if t[|t| - 1] != ']' {
        return None;
      }
      k, limit := 1, |t| - 1;
    }
    ghost var u := t[k..limit];
    var head, tail := new int[8](_ => 0), new int[8](_ => 0);
    var i, before, colons := 0, 0, 0;
    var late, colon := false, false;
    assert head[..] == tail[..] == Zeros(8);
    while k < limit
      invariant k <= limit <= |t| && 0 <= i && 0 <= before && 0 <= colons
      invariant Fine(Scan6(colons, colon, i, late, before, head[..], tail[..]))
      invariant Run6(u, START) == Run6(t[k..limit], Scan6(colons, colon, i, late, before, head[..], tail[..]))
    {
      ghost var s := Scan6(colons, colon, i, late, before, head[..], tail[..]);
      RunStep6(t, k, limit, s);
      if t[k] == ':' {
        colons := colons + 1;
        if colons > 7 || (colon && late) {
          return None;
        }
        if colon {
          before, i, late := i, 0, true;
        } else {
          colon, i := true, i + 1;
        }
        assert Step6(':', s) == Some(Scan6(colons, colon, i, late, before, s.head, s.tail));
      } else {
        var h := HexValue(t[k]);
        if h < 0 {
          return None;
        }
        FineIndex(s);
        if late {
          AddHex(tail, i, h);
        } else {
          AddHex(head, i, h);
        }
        colon := false;
        assert Step6(t[k], s) == Some(Scan6(colons, colon, i, late, before, head[..], tail[..]));
      }
      k := k + 1;
    }
    ghost var last := Scan6(colons, colon, i, late, before, head[..], tail[..]);
    RunStep6(t, k, limit, last);
    r := Finish(head, tail, i, colons, colon, late, last);
  }

  method Finish(head: array<int>, tail: array<int>, i: nat, colons: nat, colon: bool, late: bool, ghost s: Scan6)
    returns (r: Option<seq<int>>)
    requires Fine(s) && s == Scan6(colons, colon, i, late, s.before, head[..], tail[..])
    ensures r == End6(s)
  {
    var n := if colon then i else i + 1;
    if late {
      r := Some(head[..8 - n] + tail[..n]);
    } else if colons < 7 {
      r := None;
    } else {
      r := Some(head[..]);
    }
  }

  lemma FineIndex(s: Scan6)
    requires Fine(s)
    ensures s.i < |s.head| && s.i < |s.tail|
  {
  }
}
