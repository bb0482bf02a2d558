/**
  Streaming MD5 (md5.c): a message arrives in chunks, is collected in a 64-byte
  buffer and hashed block by block.  The transformation of one block is a
  parameter.  Words are 32 bits wide and wrap around.
*/
module Md5 {
  import opened Sequences
  import opened Octets

  const WORD := 0x1_0000_0000
  const LIMIT := 0x1_0000_0000_0000_0000

  datatype Words = Words(a: int, b: int, c: int, d: int)

  const INIT := Words(0x67452301, 0xefcdab89, 0x98badcfe, 0x10325476)

  type Transform = (Words, seq<byte>) -> Words

  // ----- section 3 of RFC 1321: padding, length, and the fold over blocks -----

  ghost function Hash(f: Transform, h: Words, s: seq<byte>): Words
    requires |s| % 64 == 0
    decreases |s|
  {
    if s == [] then h else Hash(f, f(h, s[..64]), s[64..])
  }

  /** Zero bytes after the first padding byte, up to 56 modulo 64. */
  function PadLen(n: nat): nat {
    if n % 64 < 56 then 56 - n % 64 else 120 - n % 64
  }

  function Padding(n: nat): seq<byte>
    requires n > 0
  {
    [0x80] + Zeros(n - 1)
  }

  /** A word as four bytes, low byte first. */
  function WordBytes(w: int): (b: seq<byte>)
    requires 0 <= w < WORD
    ensures |b| == 4
    ensures w == (b[0] as int) + 0x100 * (b[1] as int) + 0x1_0000 * (b[2] as int) + 0x100_0000 * (b[3] as int)
  {
    var w1 := w / 256;
    var w2 := w1 / 256;
    [w % 256, w1 % 256, w2 % 256, w2 / 256]
  }

  /** The message length in bits as eight bytes, low byte first. */
  function LengthBytes(n: nat): (b: seq<byte>)
    ensures |b| == 8
  {
    WordBytes(8 * n % LIMIT % WORD) + WordBytes(8 * n % LIMIT / WORD)
  }

  lemma PadAligns(n: nat)
    ensures PadLen(n) > 0 && (n + PadLen(n)) % 64 == 56 && (n + PadLen(n) + 8) % 64 == 0
  {
    var q, r := n / 64, n % 64;
    assert n == 64 * q + r;
    Multiple(q, 56);
    Multiple(q + 1, 56);
    Multiple(q + 1, 0);
    Multiple(q + 2, 0);
  }

  lemma Multiple(q: int, r: int)
    requires 0 <= r < 64
    ensures (64 * q + r) % 64 == r
  {
  }

  function Padded(m: seq<byte>): (p: seq<byte>)
    ensures |p| % 64 == 0 && m <= p
  {
    PadAligns(|m|);
    m + Padding(PadLen(|m|)) + LengthBytes(|m|)
  }

  ghost predicate Fits(f: Transform) {
    forall h, s :: InRange(h) && |s| == 64 ==> InRange(f(h, s))
  }

  predicate InRange(h: Words) {
    0 <= h.a < WORD && 0 <= h.b < WORD && 0 <= h.c < WORD && 0 <= h.d < WORD
  }

  function Bytes(h: Words): seq<byte>
    requires InRange(h)
  {
    WordBytes(h.a) + WordBytes(h.b) + WordBytes(h.c) + WordBytes(h.d)
  }

  lemma {:induction false} HashRange(f: Transform, h: Words, s: seq<byte>)
    requires Fits(f) && InRange(h) && |s| % 64 == 0
    ensures InRange(Hash(f, h, s))
    decreases |s|
  {
    if s != [] {
      HashRange(f, f(h, s[..64]), s[64..]);
    }
  }

  /** The digest of a message. */
  ghost function Digest(f: Transform, m: seq<byte>): seq<byte>
    requires Fits(f)
  {
    HashRange(f, INIT, Padded(m));
    Bytes(Hash(f, INIT, Padded(m)))
  }

  lemma {:induction false} HashConcat(f: Transform, h: Words, s: seq<byte>, t: seq<byte>)
    requires |s| % 64 == 0 && |t| % 64 == 0
    ensures Hash(f, h, s + t) == Hash(f, Hash(f, h, s), t)
    decreases |s|
  {
    if s == [] {
      assert s + t == t;
    } else {
      assert (s + t)[..64] == s[..64] && (s + t)[64..] == s[64..] + t;
      HashConcat(f, f(h, s[..64]), s[64..], t);
    }
  }

  lemma HashBlock(f: Transform, h: Words, s: seq<byte>, b: seq<byte>)
    requires |s| % 64 == 0 && |b| == 64
    ensures Hash(f, h, s + b) == f(Hash(f, h, s), b)
  {
    HashConcat(f, h, s, b);
    assert b[..64] == b && b[64..] == [];
  }

  /** Whole blocks and what is left over. */
  function Whole(s: seq<byte>): (w: seq<byte>)
    ensures |w| % 64 == 0
  {
    s[..|s| - |s| % 64]
  }

  function Rest(s: seq<byte>): (r: seq<byte>)
    ensures |r| == |s| % 64 && Whole(s) + r == s
  {
    s[|s| - |s| % 64..]
  }

  // ----- the bit count -----

  ghost predicate Counts(c0: int, c1: int, n: nat) {
    0 <= c0 < WORD && 0 <= c1 < WORD && c1 * WORD + c0 == 8 * n % LIMIT
  }

  /** The low word gives the position in the buffer. */
  lemma CountIndex(c0: int, c1: int, n: nat)
    requires Counts(c0, c1, n)
    ensures c0 / 8 % 64 == n % 64
  {
    var q := 8 * n / LIMIT;
    var r := LowWord(q, c0, c1, n) by { assert 8 * n == q * LIMIT + c1 * WORD + c0; }
    Modulus(q * 0x80_0000_0000_0000 + c1 * 0x80_0000, r);
  }

  lemma LowWord(q: int, c0: int, c1: int, n: nat) returns (r: int)
    requires 8 * n == q * LIMIT + c1 * WORD + c0 && 0 <= c0
    ensures r == c0 / 8 && n == 64 * (q * 0x80_0000_0000_0000 + c1 * 0x80_0000) + r && r >= 0
  {
    r := n - 64 * (q * 0x80_0000_0000_0000 + c1 * 0x80_0000);
    assert c0 == 8 * r;
  }

  lemma Modulus(k: int, r: nat)
    ensures (64 * k + r) % 64 == r % 64
  {
  }

  /** The two-word addition with carry, as it is done on the count. */
  lemma CountAdd(c0: int, c1: int, n: nat, len: nat)
    requires Counts(c0, c1, n) && len < WORD
    ensures var low := len * 8 % WORD;
      var c0' := (c0 + low) % WORD;
      var carry := if c0' < low then 1 else 0;
      Counts(c0', (c1 + carry + len / 0x2000_0000) % WORD, n + len)
  {
    var low, high := len * 8 % WORD, len / 0x2000_0000;
    assert len * 8 == high * WORD + low;
    var c0' := (c0 + low) % WORD;
    var carry := if c0' < low then 1 else 0;
    assert c0 + low == carry * WORD + c0';
    var sum := c1 + carry + high;
    var c1' := sum % WORD;
    var over := sum / WORD;
    assert sum == over * WORD + c1';
    var q := 8 * n / LIMIT;
    assert 8 * n == q * LIMIT + c1 * WORD + c0;
    assert 8 * (n + len) == (q + over) * LIMIT + (c1' * WORD + c0');
    ModIs(8 * (n + len), q + over, c1' * WORD + c0');
  }

  lemma ModIs(x: int, q: int, r: int)
    requires x == q * LIMIT + r && 0 <= r < LIMIT
    ensures x % LIMIT == r
  {
  }

  // ----- the index -----

  /** The loop over the blocks of a chunk of `len` bytes, after `n` bytes, ends. */
  predicate Indexable(n: nat, len: nat) {
    len < WORD && (len < 64 - n % 64 || len - (n + len) % 64 + 63 < WORD)
  }

  lemma Short(n: nat, len: nat)
    requires Indexable(n, len)
    ensures len < WORD
  {
  }

  /** No block starts later than the last one that fits. */
  lemma LastStart(n: nat, len: nat, i: nat)
    requires (n + i) % 64 == 0 && 64 - n % 64 <= i <= len && Indexable(n, len)
    ensures (i + 63) % WORD == i + 63
  {
    var k := (n + i) / 64;
    assert n + len == 64 * k + (len - i);
    Modulus(k, len - i);
    Remainder(len - i);
  }

  lemma Remainder(x: nat)
    ensures x % 64 <= x
  {
  }

  /** Otherwise the index wraps at the end and the loop goes on past it. */
  lemma IndexWraps(n: nat, len: nat)
    requires 64 - n % 64 <= len < WORD && !Indexable(n, len)
    ensures var i := len - (n + len) % 64; (i + 63) % WORD < len < i + 64
  {
    var i := len - (n + len) % 64;
    assert (i + 63) % WORD == i + 63 - WORD;
  }

  // ----- the context -----

  class Context {
    const transform: Transform
    var state: Words
    var count0: int
    var count1: int
    const buffer: array<byte>
    /** What has been hashed so far. */
    ghost var seen: seq<byte>

    ghost predicate Valid()
      reads this, buffer
    {
      && buffer.Length == 64 && Fits(transform) && Counts(count0, count1, |seen|)
      && state == Hash(transform, INIT, Whole(seen))
      && buffer[..|seen| % 64] == Rest(seen)
    }

    constructor (f: Transform)
      requires Fits(f)
      ensures Valid() && fresh(buffer) && seen == [] && transform == f
    {
      transform := f;
      count0, count1 := 0, 0;
      state := INIT;
      buffer := new byte[64](_ => 0);
      seen := [];
    }

    method Copy(at: nat, input: seq<byte>)
      requires at + |input| <= buffer.Length
      modifies buffer
      ensures buffer[..at] == old(buffer[..at]) && buffer[at..at + |input|] == input
    {
      for i := 0 to |input|
        invariant buffer[..at] == old(buffer[..at])
        invariant forall j :: 0 <= j < i ==> buffer[at + j] == input[j]
      {
        buffer[at + i] := input[i];
      }
    }

    method AddCount(len: nat)
      requires Counts(count0, count1, |seen|) && len < WORD
      modifies this`count0, this`count1
      ensures Counts(count0, count1, |seen| + len)
    {
      CountAdd(count0, count1, |seen|, len);
      var low := len * 8 % WORD;
      count0 := (count0 + low) % WORD;
      var carry := if count0 < low then 1 else 0;
      count1 := (count1 + carry + len / 0x2000_0000) % WORD;
    }

    /** Fills the buffer and hashes it. */
    method FirstBlock(input: seq<byte>, part: nat)
      requires buffer.Length == 64 && part == 64 - |seen| % 64 && part <= |input|
      requires state == Hash(transform, INIT, Whole(seen)) && buffer[..|seen| % 64] == Rest(seen)
      modifies this`state, buffer
      ensures (|seen| + part) % 64 == 0 && state == Hash(transform, INIT, seen + input[..part])
    {
      hide Hash, Whole, Rest;
      Copy(64 - part, input[..part]);
      assert buffer[64 - part..64] == buffer[..][64 - part..] && buffer[..][..64 - part] == buffer[..64 - part];
      Filled(seen, input, part, buffer[..]);
      HashBlock(transform, INIT, Whole(seen), buffer[..]);
      state := transform(state, buffer[..]);
    }

    /** Hashes the buffer once it is full, and then the whole blocks of the chunk. */
    method Blocks(input: seq<byte>, part: nat) returns (i: nat)
      requires buffer.Length == 64 && part == 64 - |seen| % 64 && part <= |input|
      requires Indexable(|seen|, |input|)
      requires state == Hash(transform, INIT, Whole(seen)) && buffer[..|seen| % 64] == Rest(seen)
      modifies this`state, buffer
      ensures i <= |input| && |input| - i < 64 && (|seen| + i) % 64 == 0
      ensures state == Hash(transform, INIT, seen + input[..i])
    {
      hide Hash, Whole, Rest, Indexable;
      FirstBlock(input, part);
      i := part;
      LastStart(|seen|, |input|, i);
      while (i + 63) % WORD < |input|
        invariant i <= |input| && (|seen| + i) % 64 == 0 && (i + 63) % WORD == i + 63
        invariant state == Hash(transform, INIT, seen + input[..i])
        modifies this`state
      {
        NextBlock(transform, seen, input, i);
        state := transform(state, input[i..i + 64]);
        i := i + 64;
        LastStart(|seen|, |input|, i);
      }
    }

    /**
      Takes another chunk.  The loop's index is 32 bits wide: `Indexable` says
      when it reaches the chunk's end without wrapping.
    */
    method Update(input: seq<byte>)
      requires Valid() && Indexable(|seen|, |input|)
      modifies this, buffer
      ensures Valid() && seen == old(seen) + input
    {
      hide Hash, Counts, Fits, Whole, Rest, Indexable;
      var index := Index();
      AddCount(|input|) by { assert Indexable(|seen|, |input|); Short(|seen|, |input|); }
      var part := 64 - index;
      var i := 0;
      if |input| >= part {
        i := Blocks(input, part);
        index := 0;
        Leftover(seen, input, i);
      } else {
        Buffered(seen, input);
      }
      ghost var n := index + (|input| - i);
      assert n == |seen + input| % 64 && buffer[..index] + input[i..] == Rest(seen + input);
      Copy(index, input[i..]);
      assert buffer[..n] == buffer[..index] + buffer[index..n];
      seen := seen + input;
    }

    /** Pads, appends the length and gives out the state; the context is wiped. */
    method Final() returns (digest: seq<byte>)
      requires Valid()
      modifies this, buffer
      ensures digest == Digest(transform, old(seen))
    {
      hide Hash, Fits, Whole, Rest, Digest, Bytes;
      ghost var m := seen;
      BitBytes(count0, count1, |m|);
      var bits := WordBytes(count0) + WordBytes(count1);
      var index := Index();
      var padLen := if index < 56 then 56 - index else 120 - index;
      Update(Padding(padLen));
      Update(bits);
      Finished(transform, m, seen, state);
      digest := Encode(state);
      state, count0, count1 := Words(0, 0, 0, 0), 0, 0;
      forall i | 0 <= i < buffer.Length {
        buffer[i] := 0;
      }
    }

    method Index() returns (index: nat)
      requires Counts(count0, count1, |seen|)
      ensures index == |seen| % 64
    {
      CountIndex(count0, count1, |seen|);
      index := count0 / 8 % 64;
    }
  }

  lemma NextBlock(f: Transform, seen: seq<byte>, input: seq<byte>, i: nat)
    requires i + 64 <= |input| && (|seen| + i) % 64 == 0
    ensures Hash(f, INIT, seen + input[..i + 64]) == f(Hash(f, INIT, seen + input[..i]), input[i..i + 64])
    ensures (|seen| + (i + 64)) % 64 == 0
  {
    hide Hash;
    HashBlock(f, INIT, seen + input[..i], input[i..i + 64]);
    assert seen + input[..i + 64] == seen + input[..i] + input[i..i + 64];
  }

  lemma Buffered(seen: seq<byte>, input: seq<byte>)
    requires |seen| % 64 + |input| < 64
    ensures Whole(seen + input) == Whole(seen) && Rest(seen + input) == Rest(seen) + input
    ensures |seen + input| % 64 == |seen| % 64 + |input|
  {
    Multiple(|seen| / 64, |seen| % 64 + |input|);
  }

  lemma Filled(seen: seq<byte>, input: seq<byte>, part: nat, block: seq<byte>)
    requires part == 64 - |seen| % 64 && part <= |input| && |block| == 64
    requires block[..|seen| % 64] == Rest(seen) && block[|seen| % 64..] == input[..part]
    ensures Whole(seen) + block == seen + input[..part] && (|seen| + part) % 64 == 0
  {
  }

  lemma Leftover(seen: seq<byte>, input: seq<byte>, i: nat)
    requires i <= |input| && |input| - i < 64 && (|seen| + i) % 64 == 0
    ensures Whole(seen + input) == seen + input[..i] && Rest(seen + input) == input[i..]
    ensures |seen + input| % 64 == |input| - i
  {
  }

  lemma BitBytes(c0: int, c1: int, n: nat)
    requires Counts(c0, c1, n)
    ensures WordBytes(c0) + WordBytes(c1) == LengthBytes(n)
  {
    var b := 8 * n % LIMIT;
    assert b % WORD == c0 && b / WORD == c1;
  }

  lemma Finished(f: Transform, m: seq<byte>, s: seq<byte>, h: Words)
    requires Fits(f) && s == m + Padding(PadLen(|m|)) + LengthBytes(|m|) && h == Hash(f, INIT, Whole(s))
    ensures InRange(h) && Bytes(h) == Digest(f, m)
  {
    assert s == Padded(m) && Whole(s) == s;
    HashRange(f, INIT, s);
  }

  method Encode(h: Words) returns (out: seq<byte>)
    requires InRange(h)
    ensures out == Bytes(h)
  {
    var input := [h.a, h.b, h.c, h.d];
    out := [];
    var i := 0;
    while i < 4
      invariant 0 <= i <= 4 && out == Bytes(h)[..4 * i]
    {
      out := out + WordBytes(input[i]);
      i := i + 1;
    }
  }

  // ----- every way to cut a message -----

  /** However a message is cut into chunks, the digest is that of the whole. */
  method DigestChunks(f: Transform, chunks: seq<seq<byte>>) returns (digest: seq<byte>)
    requires Fits(f) && forall i :: 0 <= i < |chunks| ==> Indexable(|Concat(chunks[..i])|, |chunks[i]|)
    ensures digest == Digest(f, Concat(chunks))
  {
    hide Digest, Fits;
    var c := new Context(f);
    for i := 0 to |chunks|
      invariant c.Valid() && c.seen == Concat(chunks[..i]) && c.transform == f && fresh(c) && fresh(c.buffer)
    {
      ConcatLast(chunks[..i], chunks[i]);
      assert chunks[..i + 1] == chunks[..i] + [chunks[i]];
      c.Update(chunks[i]);
    }
    assert chunks[..|chunks|] == chunks;
    digest := c.Final();
  }

  // ----- what the standard writes down -----

  /** The initial words, low byte first, count up and down in hexadecimal digits
      (section 3.3 of RFC 1321). */
  lemma InitBytes()
    ensures Bytes(INIT) == [0x01, 0x23, 0x45, 0x67, 0x89, 0xab, 0xcd, 0xef,
                            0xfe, 0xdc, 0xba, 0x98, 0x76, 0x54, 0x32, 0x10]
  {
    hide WordBytes;
    WordIs(0x67452301, 0x01, 0x23, 0x45, 0x67);
    WordIs(0xefcdab89, 0x89, 0xab, 0xcd, 0xef);
    WordIs(0x98badcfe, 0xfe, 0xdc, 0xba, 0x98);
    WordIs(0x10325476, 0x76, 0x54, 0x32, 0x10);
  }

  lemma WordIs(w: int, a: byte, b: byte, c: byte, d: byte)
    requires w == a + 0x100 * b + 0x1_0000 * c + 0x100_0000 * d
    ensures 0 <= w < WORD && WordBytes(w) == [a, b, c, d]
  {
    OneOff(a, b + 0x100 * c + 0x1_0000 * d);
    OneOff(b, c + 0x100 * d);
    OneOff(c, d);
  }

  lemma OneOff(a: byte, q: int)
    ensures (a + 256 * q) / 256 == q && (a + 256 * q) % 256 == a
  {
  }

  /** A number of eight bytes, low byte first. */
  function Value8(b: seq<byte>): int
    requires |b| == 8
  {
    (b[0] as int) + 0x100 * (b[1] as int) + 0x1_0000 * (b[2] as int) + 0x100_0000 * (b[3] as int)
    + WORD * ((b[4] as int) + 0x100 * (b[5] as int) + 0x1_0000 * (b[6] as int) + 0x100_0000 * (b[7] as int))
  }

  lemma LengthReads(n: nat)
    ensures Value8(LengthBytes(n)) == 8 * n % LIMIT
  {
    hide WordBytes;
    var bits := 8 * n % LIMIT;
    var lo, hi := WordBytes(bits % WORD), WordBytes(bits / WORD);
    assert LengthBytes(n) == lo + hi;
    assert bits == bits % WORD + WORD * (bits / WORD);
  }

  /** The padded message: the message, a single one bit, as few zeros as fill the last
      block, and the length in bits. */
  lemma PaddedShape(m: seq<byte>)
    ensures var p := Padded(m);
      && |p| % 64 == 0 && |m| + 9 <= |p| < |m| + 9 + 64
      && p[..|m|] == m && p[|m|] == 0x80
      && (forall i :: |m| < i < |p| - 8 ==> p[i] == 0)
      && Value8(p[|p| - 8..]) == 8 * |m| % LIMIT
  {
    hide LengthBytes, Value8;
    PadAligns(|m|);
    LengthReads(|m|);
    var p := Padded(m);
    assert p[|p| - 8..] == LengthBytes(|m|);
  }

  /** Different messages are padded to different texts. */
  lemma PaddedApart(a: seq<byte>, b: seq<byte>)
    requires 8 * |a| < LIMIT && 8 * |b| < LIMIT && Padded(a) == Padded(b)
    ensures a == b
  {
    hide Padded, Value8;
    PaddedShape(a);
    PaddedShape(b);
  }
}
