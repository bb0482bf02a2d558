/**
  Binary packets between nodes (bin_interface.c): a header that carries the
  packet's length, then integers and counted strings, pushed at the end and
  popped from a cursor.  Numbers are stored low byte first.
*/
module BinPacket {
  import opened Octets

  const MARKER: seq<byte> := [0x50, 0x34, 0x43, 0x4b]
  const HEADER := 10
  const MIN_PACKET := 17
  /** How far a packet may grow. */
  const MAX := 65515

  // ----- numbers -----

  function Num(b: seq<byte>): nat {
    if b == [] then 0 else (b[0] as int) + 256 * Num(b[1..])
  }

  /** The low bytes of a number. */
  function Bytes(n: nat, k: nat): (b: seq<byte>)
    ensures |b| == k
  {
    if k == 0 then [] else [n % 256] + Bytes(n / 256, k - 1)
  }

  function Pow(k: nat): nat {
    if k == 0 then 1 else 256 * Pow(k - 1)
  }

  lemma {:induction false} NumBytes(n: nat, k: nat)
    requires n < Pow(k)
    ensures Num(Bytes(n, k)) == n
  {
    if k > 0 {
      var b := Bytes(n, k);
      assert b[1..] == Bytes(n / 256, k - 1);
      NumBytes(n / 256, k - 1);
    }
  }

  lemma {:induction false} NumBound(b: seq<byte>)
    ensures Num(b) < Pow(|b|)
  {
    if b != [] {
      NumBound(b[1..]);
    }
  }

  const WORD := 0x1_0000_0000

  /** A signed 32-bit integer as stored. */
  function IntBytes(n: int): (b: seq<byte>)
    requires -0x8000_0000 <= n < 0x8000_0000
    ensures |b| == 4
  {
    Bytes(if n < 0 then n + WORD else n, 4)
  }

  function IntOf(b: seq<byte>): int
    requires |b| == 4
  {
    if Num(b) < 0x8000_0000 then Num(b) else Num(b) - WORD
  }

  lemma IntRoundTrip(n: int)
    requires -0x8000_0000 <= n < 0x8000_0000
    ensures IntOf(IntBytes(n)) == n
  {
    assert Pow(4) == WORD by {
      assert Pow(2) == 0x1_0000 && Pow(3) == 0x100_0000;
    }
    NumBytes(if n < 0 then n + WORD else n, 4);
  }

  // ----- fields -----

  datatype Item = Int(n: int) | Str(s: seq<byte>)

  predicate Encodable(v: Item) {
    v.Int? ==> -0x8000_0000 <= v.n < 0x8000_0000
  }

  /** The length of a string is cut to 16 bits. */
  function Wire(v: Item): seq<byte>
    requires Encodable(v)
  {
    match v
    case Int(n) => IntBytes(n)
    case Str(s) => Bytes(|s| % 0x1_0000, 2) + s
  }

  /** What a pop yields: a value and the new cursor, the end, or a fault. */
  datatype Popped = Value(v: Item, front: nat) | Done | Fault(front: nat)

  function StrAt(b: seq<byte>, f: nat): Popped {
    if f == |b| then Done
    else if f + 2 > |b| then Fault(f)
    else
      var n := Num(b[f..f + 2]);
      if f + 2 + n > |b| then Fault(f + 2) else Value(Str(b[f + 2..f + 2 + n]), f + 2 + n)
  }

  function IntAt(b: seq<byte>, f: nat): Popped {
    if f == |b| then Done
    else if f + 4 > |b| then Fault(f)
    else Value(Int(IntOf(b[f..f + 4])), f + 4)
  }

  function ItemAt(b: seq<byte>, f: nat, like: Item): Popped {
    if like.Int? then IntAt(b, f) else StrAt(b, f)
  }

  /** A value pushed after `b` is popped from there, just when its length fits the field. */
  lemma PopPushed(b: seq<byte>, v: Item, t: seq<byte>)
    requires Encodable(v)
    ensures ItemAt(b + Wire(v) + t, |b|, v) == Value(v, |b| + |Wire(v)|) <==> (v.Str? ==> |v.s| < 0x1_0000)
  {
    var w := Wire(v);
    var all := b + w + t;
    match v
    case Int(n) =>
      assert all[|b|..|b| + 4] == w;
      IntRoundTrip(n);
    case Str(s) =>
      var n := |s| % 0x1_0000;
      assert all[|b|..|b| + 2] == Bytes(n, 2);
      assert Pow(2) == 0x1_0000 by { assert Pow(1) == 256; }
      NumBytes(n, 2);
      assert all[|b| + 2..|b| + 2 + |s|] == s;
  }

  // ----- sequences -----

  function Encode(vs: seq<Item>): seq<byte>
    requires forall i :: 0 <= i < |vs| ==> Encodable(vs[i])
  {
    if vs == [] then [] else Wire(vs[0]) + Encode(vs[1..])
  }

  /** Popping the types of `vs` in order gives `vs` and then the end. */
  predicate Yields(b: seq<byte>, f: nat, vs: seq<Item>)
    decreases |vs|
  {
    if vs == [] then f == |b|
    else
      var r := ItemAt(b, f, vs[0]);
      r.Value? && r.v == vs[0] && Yields(b, r.front, vs[1..])
  }

  predicate Short(vs: seq<Item>) {
    forall i :: 0 <= i < |vs| ==> Encodable(vs[i]) && (vs[i].Str? ==> |vs[i].s| < 0x1_0000)
  }

  lemma {:induction false} RoundTrip(b: seq<byte>, vs: seq<Item>)
    requires Short(vs)
    ensures Yields(b + Encode(vs), |b|, vs)
    decreases |vs|
  {
    hide ItemAt, Wire;
    if vs == [] {
      assert b + [] == b;
    } else {
      var w, rest := Wire(vs[0]), Encode(vs[1..]);
      PopPushed(b, vs[0], rest);
      RoundTrip(b + w, vs[1..]);
      assert b + Encode(vs) == b + w + rest;
    }
  }

  lemma {:induction false} EncodeLast(vs: seq<Item>, v: Item)
    requires (forall i :: 0 <= i < |vs| ==> Encodable(vs[i])) && Encodable(v)
    ensures forall i :: 0 <= i < |vs + [v]| ==> Encodable((vs + [v])[i])
    ensures Encode(vs + [v]) == Encode(vs) + Wire(v)
  {
    hide Wire, Encodable;
    if vs == [] {
      assert [v][1..] == [];
    } else {
      assert (vs + [v])[1..] == vs[1..] + [v];
      EncodeLast(vs[1..], v);
    }
  }

  // ----- skipping -----

  /** The cursor after `k` strings, if each is there. */
  function StrsEnd(b: seq<byte>, f: nat, k: nat): Popped
    decreases k
  {
    if k == 0 then Value(Int(0), f)
    else
      var r := StrAt(b, f);
      if r.Value? then StrsEnd(b, r.front, k - 1) else r
  }

  // ----- the packet -----

  /** The bytes with the length written into the header. */
  function Sized(b: seq<byte>): (r: seq<byte>)
    requires |b| >= 8
    ensures |r| == |b|
  {
    b[..4] + Bytes(|b|, 4) + b[8..]
  }

  class Packet {
    var buffer: array<byte>
    var len: int
    var front: int

    ghost predicate Valid()
      reads this, buffer
    {
      HEADER <= len <= buffer.Length && len < WORD && buffer[..len] == Sized(buffer[..len])
    }

    ghost function Content(): (c: seq<byte>)
      requires Valid()
      reads this, buffer
      ensures |c| == len
    {
      buffer[..len]
    }

    /** Builds the header; a length that is given must have room for it. */
    constructor (capability: seq<byte>, command: int, version: nat, length: nat)
      requires version < 0x1_0000 && length < WORD && Encodable(Int(command)) && |capability| < 0x1_0000
      requires MIN_PACKET + |capability| <= if length == 0 then MAX else length
      ensures Valid() && fresh(buffer) && buffer.Length == if length == 0 then MAX else length
      ensures Content() == Sized(MARKER + [0, 0, 0, 0] + Bytes(version, 2) + Wire(Str(capability)) + IntBytes(command))
    {
      var bytes := Sized(MARKER + [0, 0, 0, 0] + Bytes(version, 2) + Wire(Str(capability)) + IntBytes(command));
      var n := if length == 0 then MAX else length;
      buffer := new byte[n](i requires 0 <= i => if i < |bytes| then bytes[i] else 0);
      len, front := |bytes|, 0;
      new;
      assert buffer[..len] == bytes;
      SizedTwice(MARKER + [0, 0, 0, 0] + Bytes(version, 2) + Wire(Str(capability)) + IntBytes(command));
    }

    /** Makes room for `size` more bytes. */
    method Extend(size: nat) returns (ok: bool)
      requires Valid()
      modifies this`buffer
      ensures Valid() && Content() == old(Content()) && (buffer == old(buffer) || fresh(buffer))
      ensures ok <==> len + size <= MAX
      ensures if ok then len + size <= buffer.Length <= MAX else buffer == old(buffer)
    {
      hide Sized;
      if len + size > MAX {
        return false;
      }
      var required := len + size;
      var bigger := new byte[if 2 * required > MAX then MAX else 2 * required](i => 0);
      forall i | 0 <= i < len {
        bigger[i] := buffer[i];
      }
      assert bigger[..len] == old(buffer[..len]);
      buffer := bigger;
      assert buffer[..len] == old(buffer[..len]);
      ok := true;
    }

    method Put(bytes: seq<byte>)
      requires Valid() && len + |bytes| <= buffer.Length && len + |bytes| < WORD
      modifies this`len, buffer
      ensures Valid() && Content() == Sized(old(Content()) + bytes) && buffer == old(buffer)
    {
      hide Bytes;
      ghost var before := buffer[..len];
      forall i | 0 <= i < |bytes| {
        buffer[len + i] := bytes[i];
      }
      len := len + |bytes|;
      assert buffer[..len] == before + bytes;
      var size := Bytes(len, 4);
      forall i | 0 <= i < 4 {
        buffer[4 + i] := size[i];
      }
      assert buffer[..len] == Sized(before + bytes);
      SizedTwice(before + bytes);
    }

    /** Appends a value; only a packet that cannot grow enough refuses it, unchanged. */
    method Push(v: Item) returns (ok: bool)
      requires Valid() && Encodable(v) && buffer.Length < WORD
      modifies this, buffer
      ensures Valid() && (buffer == old(buffer) || fresh(buffer))
      ensures buffer.Length == old(buffer.Length) || buffer.Length <= MAX
      ensures ok <==> old(len) + |Wire(v)| <= old(buffer.Length) || old(len) + |Wire(v)| <= MAX
      ensures Content() == if ok then Sized(old(Content()) + Wire(v)) else old(Content())
    {
      var bytes := Wire(v);
      if len + |bytes| > buffer.Length {
        ok := Extend(|bytes|);
        if !ok {
          return;
        }
      }
      Put(bytes);
      ok := true;
    }

    /** Takes over a received buffer and places the cursor behind the header. */
    method Open()
      requires Valid() && len >= HEADER + 2
      modifies this`front
      ensures Valid() && front == HEADER + 2 + Num(Content()[HEADER..HEADER + 2]) + 4
    {
      assert buffer[HEADER..HEADER + 2] == Content()[HEADER..HEADER + 2];
      front := HEADER + 2 + Num(buffer[HEADER..HEADER + 2]) + 4;
    }

    lemma Window(i: int, j: int)
      requires Valid() && 0 <= i <= j <= len
      ensures buffer[i..j] == Content()[i..j]
    {
      hide Sized;
    }

    method PopStr() returns (r: Popped)
      requires Valid() && front >= 0
      modifies this`front
      ensures r == StrAt(Content(), old(front))
      ensures front == if r.Done? then old(front) else r.front
    {
      hide Num, Sized;
      if front == len {
        return Done;
      }
      if front > len || front + 2 > len {
        return Fault(front);
      }
      var n := Num(buffer[front..front + 2]);
      Window(front, front + 2);
      front := front + 2;
      if front + n > len {
        return Fault(front);
      }
      r := Value(Str(buffer[front..front + n]), front + n);
      Window(front, front + n);
      front := front + n;
    }

    method PopInt() returns (r: Popped)
      requires Valid() && front >= 0
      modifies this`front
      ensures r == IntAt(Content(), old(front))
      ensures front == if r.Done? then old(front) else r.front
    {
      hide IntOf, Sized;
      if front == len {
        return Done;
      }
      if front + 4 > len {
        return Fault(front);
      }
      r := Value(Int(IntOf(buffer[front..front + 4])), front + 4);
      Window(front, front + 4);
      front := front + 4;
    }

    /** Skipping `count` strings succeeds just when that many pops do, and moves the
        cursor as far; at the end of the data it stays there. */
    method SkipStr(count: nat) returns (ok: bool)
      requires Valid() && front >= 0
      modifies this`front
      ensures ok <==> StrsEnd(Content(), old(front), count).Value?
      ensures var r := StrsEnd(Content(), old(front), count); front == if r.Done? then len else r.front
    {
      hide Num, Sized;
      var i := 0;
      while i < count
        invariant 0 <= i <= count && front >= 0
        invariant StrsEnd(Content(), old(front), count) == StrsEnd(Content(), front, count - i)
      {
        if front + 2 > len {
          return false;
        }
        var n := Num(buffer[front..front + 2]);
        Window(front, front + 2);
        front := front + 2;
        if front + n > len {
          return false;
        }
        front := front + n;
        i := i + 1;
      }
      ok := true;
    }
  }

  lemma SizedTwice(b: seq<byte>)
    requires |b| >= 8
    ensures Sized(Sized(b)) == Sized(b)
  {
    assert Sized(b)[..4] == b[..4] && Sized(b)[8..] == b[8..];
  }

  /** Values pushed one after the other onto an opened packet stand behind its header. */
  lemma SizedAppend(h: seq<byte>, e: seq<byte>, w: seq<byte>)
    requires |h| >= 8
    ensures Sized(Sized(h + e) + w) == Sized(h + (e + w))
    ensures Sized(h + e)[8..] == h[8..] + e && |Sized(h + e)| == |h| + |e|
  {
    assert h + e + w == h + (e + w);
    assert Sized(h + e)[8..] == (h + e)[8..] == h[8..] + e;
    assert (Sized(h + e) + w)[8..] == (h + (e + w))[8..];
    assert (Sized(h + e) + w)[..4] == (h + (e + w))[..4];
  }

  /** A new packet; one whose given length has no room for the header is refused. */
  method NewPacket(capability: seq<byte>, command: int, version: nat, length: nat) returns (p: Packet?)
    requires version < 0x1_0000 && length < WORD && Encodable(Int(command)) && |capability| < 0x1_0000
    requires length == 0 ==> MIN_PACKET + |capability| <= MAX
    ensures p == null <==> 0 < length < MIN_PACKET + |capability|
    ensures p != null ==>
              && p.Valid() && fresh(p) && fresh(p.buffer) && p.buffer.Length == (if length == 0 then MAX else length)
              && p.Content() ==
                 Sized(MARKER + [0, 0, 0, 0] + Bytes(version, 2) + Wire(Str(capability)) + IntBytes(command))
  {
    if length != 0 && length < MIN_PACKET + |capability| {
      return null;
    }
    p := new Packet(capability, command, version, length);
  }

  method PushAll(p: Packet, vs: seq<Item>) returns (ok: bool)
    requires p.Valid() && p.buffer.Length < WORD && forall i :: 0 <= i < |vs| ==> Encodable(vs[i])
    modifies p, p.buffer
    ensures ok ==> p.Valid() && p.Content() == Sized(old(p.Content()) + Encode(vs))
    ensures ok && old(p.buffer.Length) <= 0xffff ==> Short(vs)
  {
    hide Wire, Sized, Encode, Encodable;
    ok := true;
    ghost var h := p.Content();
    var i := 0;
    EncodeNone(h);
    while i < |vs|
      invariant 0 <= i <= |vs| && p.Valid() && (p.buffer == old(p.buffer) || fresh(p.buffer))
      invariant p.buffer.Length == old(p.buffer.Length) || p.buffer.Length <= MAX
      invariant p.Content() == Sized(h + Encode(vs[..i]))
      invariant old(p.buffer.Length) <= 0xffff ==> Short(vs[..i])
    {
      EncodeLast(vs[..i], vs[i]);
      assert vs[..i + 1] == vs[..i] + [vs[i]];
      SizedAppend(h, Encode(vs[..i]), Wire(vs[i]));
      WireLength(vs[i]);
      ok := p.Push(vs[i]);
      if !ok {
        return;
      }
      i := i + 1;
    }
    assert vs[..|vs|] == vs;
  }

  lemma EncodeNone(h: seq<byte>)
    requires |h| >= 8
    ensures Encode([]) == [] && Sized(h) == Sized(h + Encode([]))
  {
    assert h + [] == h;
  }

  lemma WireLength(v: Item)
    requires Encodable(v)
    ensures v.Str? ==> |Wire(v)| == 2 + |v.s|
  {
  }

  method PopAll(p: Packet, like: seq<Item>) returns (out: seq<Item>, last: Popped)
    requires p.Valid() && p.front >= 0 && Yields(p.Content(), p.front, like)
    modifies p`front
    ensures out == like && last == Done
  {
    hide StrAt, IntAt;
    out := [];
    var i := 0;
    assert like[0..] == like;
    while i < |like|
      invariant 0 <= i <= |like| && p.front >= 0 && out == like[..i] && Yields(p.Content(), p.front, like[i..])
    {
      assert like[i..][0] == like[i] && like[i..][1..] == like[i + 1..];
      var r;
      if like[i].Int? {
        r := p.PopInt();
      } else {
        r := p.PopStr();
      }
      out := out + [r.v];
      i := i + 1;
    }
    assert like[|like|..] == [];
    AtEnd(p.Content());
    last := p.PopInt();
  }

  lemma AtEnd(b: seq<byte>)
    ensures IntAt(b, |b|) == Done
  {
  }

  /**
    A packet from one node to another: if every push succeeds, opening the
    buffer and popping the same types gives the same values in order and then
    the end.  Strings longer than their length field can hold are possible only
    in a packet made larger than 65535 bytes.
  */
  method Transfer(capability: seq<byte>, command: int, version: nat, length: nat, vs: seq<Item>)
    returns (ok: bool, out: seq<Item>, last: Popped)
    requires version < 0x1_0000 && length < WORD && Encodable(Int(command)) && |capability| < 0x1_0000
    requires length == 0 ==> MIN_PACKET + |capability| <= MAX
    requires forall i :: 0 <= i < |vs| ==> Encodable(vs[i])
    requires length > 0xffff ==> Short(vs)
    ensures ok ==> out == vs && last == Done
  {
    hide Wire, Sized, Encode, Encodable, Yields, Bytes;
    ok, out, last := false, [], Done;
    var p := NewPacket(capability, command, version, length);
    if p == null {
      return;
    }
    ghost var h := p.Content();
    ok := PushAll(p, vs);
    if ok {
      ghost var c := p.Content();
      HeaderEnd(capability, command, version, h, Encode(vs));
      RoundTrip(c[..|h|], vs);
      p.Open();
      out, last := PopAll(p, vs);
    }
  }

  /** Opening a packet puts the cursor right behind its header. */
  lemma HeaderEnd(capability: seq<byte>, command: int, version: nat, h: seq<byte>, e: seq<byte>)
    requires version < 0x1_0000 && Encodable(Int(command)) && |capability| < 0x1_0000
    requires h == Sized(MARKER + [0, 0, 0, 0] + Bytes(version, 2) + Wire(Str(capability)) + IntBytes(command))
    ensures var c := Sized(h + e);
      |h| >= HEADER + 2 && |c| == |h| + |e| && c == c[..|h|] + e && |h| == HEADER + 2 + Num(c[HEADER..HEADER + 2]) + 4
  {
    hide Sized, Num, Bytes, IntBytes, Wire;
    var c := Sized(h + e);
    var raw := MARKER + [0, 0, 0, 0] + Bytes(version, 2) + Wire(Str(capability)) + IntBytes(command);
    RawHeader(capability, command, version, raw);
    SizedAppend(raw, [], []);
    SizedAppend(h, e, []);
    assert raw + [] == raw && |h| == |raw| && h[8..] == raw[8..];
    Shifted(c, |h| - 8, |c| - 8);
    Shifted(c, 2, 4);
    Shifted(raw, 2, 4);
    assert c[8..] == raw[8..] + e;
    assert c[8..][|h| - 8..|c| - 8] == e && c[8..][2..4] == raw[8..][2..4];
  }

  /** The length of the capability stands at its place in a header. */
  lemma RawHeader(capability: seq<byte>, command: int, version: nat, raw: seq<byte>)
    requires version < 0x1_0000 && Encodable(Int(command)) && |capability| < 0x1_0000
    requires raw == MARKER + [0, 0, 0, 0] + Bytes(version, 2) + Wire(Str(capability)) + IntBytes(command)
    ensures |raw| == HEADER + 2 + |capability| + 4 && Num(raw[HEADER..HEADER + 2]) == |capability|
  {
    hide Num, Bytes;
    var first, field, rest := MARKER + [0, 0, 0, 0] + Bytes(version, 2), Bytes(|capability|, 2),
                              capability + IntBytes(command);
    assert raw == first + field + rest;
    assert |first| == HEADER && raw[HEADER..HEADER + 2] == field;
    assert Pow(2) == 0x1_0000 by { assert Pow(1) == 256; }
    NumBytes(|capability|, 2);
  }

  lemma Shifted(b: seq<byte>, i: nat, j: nat)
    requires 8 <= |b| && i <= j <= |b| - 8
    ensures b[8..][i..j] == b[8 + i..8 + j]
  {
  }

  // ----- what a packet says about itself -----

  /** Two bytes, the lower one first. */
  lemma LowFirst(n: nat)
    requires n < 0x1_0000
    ensures Bytes(n, 2) == [n % 256, n / 256] && Num([n % 256, n / 256]) == n
  {
    assert Bytes(n / 256, 1) == [n / 256] + Bytes(0, 0);
    assert Num([n % 256, n / 256][1..]) == n / 256 by { assert [n % 256, n / 256][1..] == [n / 256]; OneNum(n / 256); }
  }

  lemma OneNum(x: byte)
    ensures Num([x]) == x
  {
    assert [x][1..] == [];
  }

  lemma Pow4()
    ensures Pow(4) == WORD && Pow(2) == 0x1_0000
  {
    assert Pow(1) == 256 && Pow(3) == 0x100_0000;
  }

  /** The length field holds the length. */
  lemma LengthReads(b: seq<byte>)
    requires 8 <= |b| < WORD
    ensures Num(Sized(b)[4..8]) == |b| && Sized(b)[..4] == b[..4] && Sized(b)[8..] == b[8..]
  {
    hide Num, Bytes, Pow;
    Pow4();
    NumBytes(|b|, 4);
    assert Sized(b)[4..8] == Bytes(|b|, 4);
  }

  /** And it does so in every valid packet. */
  lemma PacketLength(p: Packet)
    requires p.Valid()
    ensures Num(p.Content()[4..8]) == p.len
  {
    hide Num, Sized;
    LengthReads(p.Content());
  }

  /** The fields of a new packet's header, each at its place. */
  lemma HeaderFields(capability: seq<byte>, command: int, version: nat, c: seq<byte>)
    requires version < 0x1_0000 && Encodable(Int(command)) && |capability| < 0x1_0000
    requires c == Sized(MARKER + [0, 0, 0, 0] + Bytes(version, 2) + Wire(Str(capability)) + IntBytes(command))
    ensures var n := |capability|;
      && |c| == 16 + n && c[..4] == [0x50, 0x34, 0x43, 0x4b] && Num(c[4..8]) == |c|
      && Num(c[8..10]) == version && Num(c[10..12]) == n && c[12..12 + n] == capability
      && IntOf(c[12 + n..]) == command
  {
    hide Num, Bytes, IntBytes, Pow, IntOf, Sized;
    var n := |capability|;
    var v, l, i := Bytes(version, 2), Bytes(n, 2), IntBytes(command);
    var raw := MARKER + [0, 0, 0, 0] + v + Wire(Str(capability)) + i;
    assert raw == MARKER + [0, 0, 0, 0] + v + l + capability + i;
    Pow4();
    NumBytes(version, 2);
    NumBytes(n, 2);
    IntRoundTrip(command);
    LengthReads(raw);
    Fields(raw, c, v, l, capability, i);
  }

  lemma Fields(raw: seq<byte>, c: seq<byte>, v: seq<byte>, l: seq<byte>, s: seq<byte>, i: seq<byte>)
    requires raw == MARKER + [0, 0, 0, 0] + v + l + s + i && |v| == |l| == 2 && |i| == 4
    requires |c| == |raw| && c[..4] == raw[..4] && c[8..] == raw[8..]
    ensures c[..4] == MARKER && c[8..10] == v && c[10..12] == l && c[12..12 + |s|] == s && c[12 + |s|..] == i
  {
    assert raw[8..] == v + l + s + i;
    assert c[8..10] == c[8..][0..2] && c[10..12] == c[8..][2..4];
    assert c[12..12 + |s|] == c[8..][4..4 + |s|] && c[12 + |s|..] == c[8..][4 + |s|..];
  }
}
