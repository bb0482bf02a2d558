/**
  Building the message that is sent (msg_translator.c): the size is predicted,
  Content-Length adjusted, the buffer allocated and filled; the server aborts if
  the two sizes differ.
*/
module MessageBuild {
  import opened Wrappers
  import opened Numerals
  import opened SubstContext
  import opened Lumps
  import opened LumpLaws
  import opened DataLump
  import opened MsgTranslator
  import opened BodyParts
  import opened ChainLaws
  import BodyLaws

  const UINT_MAX: nat := 0xffff_ffff
  const UINT64_RANGE: nat := 0x1_0000_0000_0000_0000
  const CONTENT_LENGTH: string := "Content-Length: "

  /** The received message: `start` is where the headers' blank line ends and
      `len` the body length get_body reports. */
  datatype View = View(buf: string, start: nat, len: nat) {
    predicate Valid() {
      start + len <= |buf| < UINT_MAX
    }

    /** The part of the message worth sending: bytes past the body are dropped. */
    function Useful(): nat {
      if len > 0 then start + len else |buf|
    }
  }

  /** Where the write pass goes over to the body; a parsed body that has no
      received text (a null pointer in the source) starts at the very end. */
  function Split(v: View, body: Option<Body>): nat {
    if body.Some? then body.value.start else v.start
  }

  ghost predicate Ready(v: View, hdr: seq<Lump>, lumps: seq<Lump>, body: Option<Body>, c: Context) {
    && v.Valid() && Consistent(c)
    && Split(v, body) <= |v.buf| && WellFormed(hdr, 0, Split(v, body))
    && (if body.Some? then ValidBody(Env(v.buf, lumps, c), body.value)
        else WellFormed(lumps, v.start, |v.buf|) && Uncrossed(lumps, v.Useful()))
  }

  /** The body as it is sent: with no parsed body, edits from `Useful` on are not written. */
  ghost function NewBody(v: View, hdr: seq<Lump>, lumps: seq<Lump>, body: Option<Body>, c: Context): string
    requires Ready(v, hdr, lumps, body, c)
  {
    if body.Some? then BodyText(Env(v.buf, lumps, c), body.value)
    else Render(v.buf, Active(lumps, v.Useful()), c, v.start, v.Useful())
  }

  ghost function NewHeaders(v: View, hdr: seq<Lump>, lumps: seq<Lump>, body: Option<Body>, c: Context): string
    requires Ready(v, hdr, lumps, body, c)
  {
    Render(v.buf, hdr, c, 0, Split(v, body))
  }

  /** How much longer the body gets, as the code counts it: with no parsed body,
      over all edits up to the end of the message. */
  ghost function BodyDelta(v: View, hdr: seq<Lump>, lumps: seq<Lump>, body: Option<Body>, c: Context): int
    requires Ready(v, hdr, lumps, body, c)
  {
    if body.Some? then |BodyText(Env(v.buf, lumps, c), body.value)| - body.value.len
    else |Render(v.buf, lumps, c, v.start, |v.buf|)| - (|v.buf| - v.start)
  }

  /** The size the buffer is allocated with. */
  ghost function Predicted(v: View, hdr: seq<Lump>, lumps: seq<Lump>, body: Option<Body>, c: Context): int
    requires Ready(v, hdr, lumps, body, c)
  {
    v.Useful() + BodyDelta(v, hdr, lumps, body, c)
    + |NewHeaders(v, hdr, lumps, body, c)| - Split(v, body)
  }

  /** The edits at or past the end of the useful part. */
  function TailEdits(v: View, lumps: seq<Lump>): seq<Lump> {
    lumps[|Active(lumps, v.Useful())|..]
  }

  /** What those edits, on their own, change in length. */
  ghost function TailGain(v: View, lumps: seq<Lump>, c: Context): int
    requires v.Valid()
  {
    |Render(v.buf, TailEdits(v, lumps), c, v.Useful(), |v.buf|)| - (|v.buf| - v.Useful())
  }

  /** A parsed body is the rest of what is worth sending; edits of an unparsed one
      that lie past the useful part gain nothing. */
  ghost predicate Fits(v: View, lumps: seq<Lump>, body: Option<Body>, c: Context)
    requires v.Valid()
  {
    if body.Some? then body.value.start + body.value.len == v.Useful()
    else TailGain(v, lumps, c) == 0
  }

  /** The two sizes agree, and the server does not abort, exactly then. */
  lemma SizesAgree(v: View, hdr: seq<Lump>, lumps: seq<Lump>, body: Option<Body>, c: Context)
    requires Ready(v, hdr, lumps, body, c)
    ensures Predicted(v, hdr, lumps, body, c)
            == |NewHeaders(v, hdr, lumps, body, c) + NewBody(v, hdr, lumps, body, c)|
            <==> Fits(v, lumps, body, c)
  {
    hide ValidBody, BodyText, WellFormed, Rest, Active, Uncrossed;
    if body.None? {
      CutClean(v.buf, lumps, c, v.start, v.Useful(), |v.buf|);
    }
  }

  /** So edits that stay before the end of the useful part never abort it. */
  lemma EditsInside(v: View, lumps: seq<Lump>, c: Context)
    requires v.Valid() && forall i :: 0 <= i < |lumps| ==> lumps[i].offset < v.Useful()
    ensures Fits(v, lumps, None, c)
  {
    hide Rest, Active;
    assert TailEdits(v, lumps) == [];
    RenderEmpty(v.buf, c, v.Useful(), |v.buf|);
  }

  /** A message without edits is sent as received, up to the end of the useful part. */
  lemma Untouched(v: View, c: Context)
    requires v.Valid() && Consistent(c)
    ensures Ready(v, [], [], None, c) && Fits(v, [], None, c)
    ensures NewHeaders(v, [], [], None, c) + NewBody(v, [], [], None, c) == v.buf[..v.Useful()]
  {
    hide Rest, Active, Consistent;
    assert Active([], v.Useful()) == [];
    EditsInside(v, [], c);
    RenderEmpty(v.buf, c, 0, v.start);
    RenderEmpty(v.buf, c, v.start, v.Useful());
    assert v.buf[0..v.start] + v.buf[v.start..v.Useful()] == v.buf[..v.Useful()];
  }

  /** So is a message with a parsed body whose parts are all left alone. */
  lemma UntouchedParsed(v: View, b: Body, c: Context)
    requires v.Valid() && Consistent(c) && ValidBody(Env(v.buf, [], c), b)
    requires b.partCount >= 2 && b.updatedCount >= 2 && BodyLaws.AllUnedited(Env(v.buf, [], c), b.parts, 0)
    ensures Ready(v, [], [], Some(b), c)
    ensures NewHeaders(v, [], [], Some(b), c) + NewBody(v, [], [], Some(b), c) == v.buf
  {
    hide Rest, Consistent, BodyLaws.AllUnedited, Layout, Tail, Reframed;
    RenderEmpty(v.buf, c, 0, b.start);
    BodyLaws.ReframedIdentity(Env(v.buf, [], c), b.boundary, b.parts, b.start);
    assert v.buf[0..b.start] + v.buf[b.start..] == v.buf;
  }

  lemma UntouchedSingle(v: View, b: Body, k: nat, c: Context)
    requires v.Valid() && Consistent(c) && ValidBody(Env(v.buf, [], c), b) && b.updatedCount == 1
    requires BodyLaws.Only(b, k) && BodyLaws.Unedited(Env(v.buf, [], c), b.parts[k])
    requires (b.rcvMultipart && b.partCount == 1) ||
             (b.parts[k].content.off == b.start && b.parts[k].content.len == b.len)
    ensures Ready(v, [], [], Some(b), c)
    ensures NewHeaders(v, [], [], Some(b), c) + NewBody(v, [], [], Some(b), c) == v.buf[..b.start + b.len]
  {
    hide Rest, Consistent, BodyText, ValidBody, PartLumps;
    InsideBuffer(Env(v.buf, [], c), b);
    RenderEmpty(v.buf, c, 0, b.start);
    BodyLaws.SingleUnedited(Env(v.buf, [], c), b, k);
    assert v.buf[0..b.start] + v.buf[b.start..b.start + b.len] == v.buf[..b.start + b.len];
  }

  lemma InsideBuffer(env: Env, b: Body)
    requires ValidBody(env, b)
    ensures b.start + b.len <= |env.buf|
  {
  }

  /** Any text anchored at the very end of a message whose body was not parsed is
      counted and not written. */
  lemma AnchorAtEnd(v: View, t: string, c: Context)
    requires v.Valid() && Consistent(c) && t != ""
    ensures var lumps := [Lump(|v.buf|, false, 0, [], [Add(t)])];
            && Ready(v, [], lumps, None, c) && !Fits(v, lumps, None, c)
            && Predicted(v, [], lumps, None, c)
               == |NewHeaders(v, [], lumps, None, c) + NewBody(v, [], lumps, None, c)| + |t|
  {
    hide Rest, Active, Consistent;
    var e, u, l := |v.buf|, v.Useful(), Lump(|v.buf|, false, 0, [], [Add(t)]);
    var lumps := [l];
    NoneActive(lumps, u);
    CutClean(v.buf, lumps, c, v.start, u, e);
    RenderEmpty(v.buf, c, u, e);
    RenderEmpty(v.buf, c, v.start, u);
    LumpShown(v.buf, lumps, c, 0, u, e);
    RestEnd(v.buf, lumps, c, 1, e);
    AddText(t, c);
    assert Live(lumps, 0) && lumps[..0] == [];
  }

  lemma NoneActive(ls: seq<Lump>, max: nat)
    requires ls != [] && ls[0].offset >= max
    ensures Active(ls, max) == []
  {
  }

  lemma AddText(t: string, c: Context)
    ensures LumpText(Lump(0, false, 0, [], [Add(t)]), c) == t
    ensures ChainText([Add(t)], 0, c) == t && ChainText([], 0, c) == ""
  {
    assert ChainText([Add(t)], 1, c) == "";
  }

  /** A five-byte message and "x" added at its end: six bytes are predicted, five written. */
  lemma AbortAtEnd(c: Context)
    requires Consistent(c)
    ensures var v, lumps := View("h\n\r\nb", 4, 1), [Lump(5, false, 0, [], [Add("x")])];
            && Ready(v, [], lumps, None, c) && !Fits(v, lumps, None, c)
            && Predicted(v, [], lumps, None, c) == 6
            && |NewHeaders(v, [], lumps, None, c) + NewBody(v, [], lumps, None, c)| == 5
  {
    hide Rest, Active, Consistent;
    var v, lumps := View("h\n\r\nb", 4, 1), [Lump(5, false, 0, [], [Add("x")])];
    AnchorAtEnd(v, "x", c);
    NoneActive(lumps, 5);
    RenderEmpty(v.buf, c, 4, 5);
    RenderEmpty(v.buf, c, 0, 4);
  }

  /** A body of four bytes without a Content-Type, two more bytes in the datagram
      and an added part: 13 bytes are predicted, 15 written. */
  lemma AbortNullBody(c: Context)
    requires Consistent(c)
    ensures var v := View("h\n\r\nbody++", 4, 4);
            var body := Some(Body(0, 1, false, 10, 0, "", [Part(false, "t/p", "", New("hello"), NoFunction)]));
            && Ready(v, [], [], body, c) && !Fits(v, [], body, c)
            && Predicted(v, [], [], body, c) == 13
            && |NewHeaders(v, [], [], body, c) + NewBody(v, [], [], body, c)| == 15
  {
    hide Rest, Consistent;
    var v := View("h\n\r\nbody++", 4, 4);
    var b := Body(0, 1, false, 10, 0, "", [Part(false, "t/p", "", New("hello"), NoFunction)]);
    AddedPart(Env(v.buf, [], c), b, "hello");
    RenderEmpty(v.buf, c, 0, 10);
  }

  /** A body that consists of one added part. */
  lemma AddedPart(env: Env, b: Body, t: string)
    requires b.updatedCount == 1 && b.len == 0 && b.start == |env.buf|
    requires b.parts == [Part(false, "t/p", "", New(t), NoFunction)]
    ensures ValidBody(env, b) && BodyText(env, b) == t
  {
    hide Rest;
  }

  /** Over all edits, the counting and the writing of substitutions agree exactly
      for consistent advertised addresses. */
  lemma PassesAgree(c: Context)
    ensures Consistent(c) <==> forall ls: seq<Lump> :: Skew(ls, c, 0) == 0
  {
    hide Skew, SubstText, SubstLen, Consistent;
    if Consistent(c) {
      forall ls: seq<Lump> ensures Skew(ls, c, 0) == 0 {
        NoSkew(ls, c, 0);
      }
    } else {
      var k := InconsistentWitness(c);
      OneSubst(k, c);
      assert Skew([Lump(0, false, 0, [AddSubst(k)], [])], c, 0) != 0;
    }
  }

  lemma OneSubst(k: Subst, c: Context)
    ensures Skew([Lump(0, false, 0, [AddSubst(k)], [])], c, 0) == SubstLen(k, c) - |SubstText(k, c)|
  {
    hide SubstText, SubstLen;
    var l := Lump(0, false, 0, [AddSubst(k)], []);
    assert ChainText([AddSubst(k)], 1, c) == "";
    assert ChainLen([AddSubst(k)], 1, c) == 0;
    assert Live([l], 0) && Skew([l], c, 1) == 0;
  }

  lemma ActiveAll(ls: seq<Lump>, s: nat, e: nat)
    requires WellFormed(ls, s, e) && e < UINT_MAX
    ensures Active(ls, UINT_MAX) == ls
  {
    hide Active;
  }

  // ----- Content-Length -----

  /** The header line; the printing routine takes an unsigned 64-bit value. */
  function ClenText(n: int): string {
    CONTENT_LENGTH + Decimal(n % UINT64_RANGE) + CRLF
  }

  predicate TcpBased(p: Proto) {
    p == TCP || p == TLS || p == WS || p == WSS
  }

  /** Position and length of a header in the message. */
  datatype Header = Header(off: nat, len: nat)

  /** Whether adjust_clen writes a Content-Length. */
  predicate WritesClen(proto: Proto, clen: Option<Header>, delta: int) {
    || (TcpBased(proto) && clen.None?)
    || (delta != 0 && (clen.Some? || proto != UDP))
  }

  /** The edit adjust_clen makes: an old header goes, the new one follows it. */
  function ClenLump(clen: Option<Header>, unparsed: nat, n: int): Lump {
    if clen.Some? then Lump(clen.value.off, true, clen.value.len, [], [Add(ClenText(n))])
    else Lump(unparsed, false, 0, [], [Add(ClenText(n))])
  }

  function WithClen(ls: seq<Lump>, clen: Option<Header>, unparsed: nat, number: Option<int>): seq<Lump> {
    if number.None? then ls else Insert(ls, ClenLump(clen, unparsed, number.value))
  }

  lemma InsertThenAttach(ls: seq<Lump>, l: Lump, p: Piece)
    ensures var k := Place(ls, l.offset);
            k < |Insert(ls, l)| && Attach(Insert(ls, l), k, p) == Insert(ls, l.(after := [p] + l.after))
  {
    hide Place;
  }

  /** adjust_clen */
  method AdjustClen(msg: SipMsg, bodyLen: nat, delta: int, proto: Proto, clen: Option<Header>, unparsed: nat)
    returns (number: Option<int>)
    requires msg.Valid() && msg.len < UINT_RANGE
    requires msg.eoh.Some? && unparsed <= msg.eoh.value && unparsed <= msg.len
    requires clen.Some? ==> clen.value.off <= msg.eoh.value && clen.value.off + clen.value.len <= msg.len
    modifies msg
    ensures msg.Valid() && msg.bodyLumps == old(msg.bodyLumps)
    ensures number == if WritesClen(proto, clen, delta) then Some(bodyLen + delta) else None
    ensures clen.Some? ==> (number.Some? <==> delta != 0)
    ensures clen.None? && proto in {TCP, TLS, WS, WSS} ==> number.Some?
    ensures clen.None? && proto !in {TCP, TLS, WS, WSS} ==> (number.Some? <==> delta != 0 && proto != UDP)
    ensures msg.addRm == WithClen(old(msg.addRm), clen, unparsed, number)
  {
    hide Insert, Place, Sorted, Attach;
    var anchor := Aborted;
    ghost var l := Lump(unparsed, false, 0, [], []);
    ghost var before := msg.addRm;
    if TcpBased(proto) && clen.None? {
      anchor := msg.AnchorLump(unparsed);
    }
    if anchor.Aborted? && delta != 0 {
      if clen.None? {
        if proto != UDP {
          anchor := msg.AnchorLump(unparsed);
        }
      } else {
        assert clen.value.off + clen.value.len < UINT_RANGE;
        anchor := msg.DelLump(clen.value.off, clen.value.len);
        l := Lump(clen.value.off, true, clen.value.len, [], []);
      }
    }
    number := None;
    if !anchor.Aborted? {
      number := Some(bodyLen + delta);
      InsertThenAttach(before, l, Add(ClenText(number.value)));
      assert [Add(ClenText(number.value))] + [] == [Add(ClenText(number.value))];
      msg.InsertAfter(anchor, Add(ClenText(number.value)));
    }
  }

  /** The header line reads back as its number. */
  lemma ClenReads(n: nat)
    requires n < UINT64_RANGE
    ensures var t := ClenText(n);
      |t| >= 18 && t == "Content-Length: " + t[16..|t| - 2] + "\r\n" && ParseDecimal(t[16..|t| - 2]) == n
  {
    hide Decimal, ParseDecimal;
    DecimalParses(n);
    var t := ClenText(n);
    assert t[16..|t| - 2] == Decimal(n);
  }

  /** On headers without other edits: an old line is replaced where it stands, and
      otherwise the new one goes in front of the blank line. */
  lemma ClenReplaces(buf: string, clen: Option<Header>, unparsed: nat, n: int, c: Context, e: nat)
    requires unparsed <= e <= |buf| && (clen.Some? ==> clen.value.off + clen.value.len <= e)
    ensures Render(buf, WithClen([], clen, unparsed, Some(n)), c, 0, e) ==
            if clen.Some? then buf[..clen.value.off] + (ClenText(n) + buf[clen.value.off + clen.value.len..e])
            else buf[..unparsed] + (ClenText(n) + buf[unparsed..e])
  {
    hide Rest, ClenText, ChainText;
    var l := ClenLump(clen, unparsed, n);
    assert WithClen([], clen, unparsed, Some(n)) == [l];
    OneText(ClenText(n), c);
    NoText(c);
    if clen.Some? {
      Replacement(buf, l, c, 0, e);
    } else {
      Addition(buf, l, c, 0, e);
    }
  }

  // ----- the passes over a whole message -----

  /** calculate_body_diff */
  method CalculateBodyDiff(v: View, ghost hdr: seq<Lump>, lumps: seq<Lump>, body: Option<Body>, c: Context)
    returns (d: int)
    requires Ready(v, hdr, lumps, body, c)
    ensures d == BodyDelta(v, hdr, lumps, body, c)
  {
    hide ValidBody, BodyText, WellFormed, Rest, Skew, Consistent;
    if body.None? {
      ActiveAll(lumps, v.start, |v.buf|);
      d := LumpsLen(lumps, c, UINT_MAX, v.buf, v.start, |v.buf|);
      NoSkew(lumps, c, 0);
    } else {
      d := Prepare(Env(v.buf, lumps, c), body.value);
      d := d - body.value.len;
    }
  }

  /** apply_msg_changes */
  method ApplyChanges(v: View, hdr: seq<Lump>, lumps: seq<Lump>, body: Option<Body>, c: Context, dst: array<char>)
    returns (o: nat)
    requires Ready(v, hdr, lumps, body, c)
    requires |NewHeaders(v, hdr, lumps, body, c)| + |NewBody(v, hdr, lumps, body, c)| <= dst.Length
    modifies dst
    ensures o == |NewHeaders(v, hdr, lumps, body, c)| + |NewBody(v, hdr, lumps, body, c)|
    ensures dst[..o] == NewHeaders(v, hdr, lumps, body, c) + NewBody(v, hdr, lumps, body, c)
  {
    hide ValidBody, BodyText, WellFormed, Rest, Consistent, Active;
    var h := Split(v, body);
    ghost var headers := NewHeaders(v, hdr, lumps, body, c);
    ActiveAll(hdr, 0, h);
    var from;
    o, from := ProcessLumps(v.buf, hdr, c, dst, 0, 0, UINT_MAX, h);
    assert dst[..o] + v.buf[from..h] == headers;
    if body.None? {
      CutClean(v.buf, lumps, c, v.start, v.Useful(), |v.buf|);
      o := FinishBody(v, lumps, c, dst, o, from, headers);
    } else {
      assert |v.buf[from..h]| == h - from;
      MemCpy(dst, o, v.buf[from..h]);
      o := o + (h - from);
      assert dst[..o] == headers;
      o := Reassemble(Env(v.buf, lumps, c), body.value, dst, o);
    }
  }

  /** The unparsed body: its edits, then the rest of the useful part. */
  method FinishBody(v: View, lumps: seq<Lump>, c: Context, dst: array<char>, at: nat, from: nat, ghost headers: string)
    returns (o: nat)
    requires v.Valid() && WellFormed(Active(lumps, v.Useful()), v.start, v.Useful()) && from <= v.start
    requires |headers| + |Render(v.buf, Active(lumps, v.Useful()), c, v.start, v.Useful())| <= dst.Length
    requires at + (v.start - from) == |headers| && dst[..at] + v.buf[from..v.start] == headers
    modifies dst
    ensures o == |headers| + |Render(v.buf, Active(lumps, v.Useful()), c, v.start, v.Useful())|
    ensures dst[..o] == headers + Render(v.buf, Active(lumps, v.Useful()), c, v.start, v.Useful())
  {
    hide WellFormed, Rest, Active;
    var max := v.Useful();
    ghost var act := Active(lumps, max);
    RenderFrom(Env(v.buf, lumps, c), act, from, v.start, max);
    ghost var goal := headers + Render(v.buf, act, c, v.start, max);
    ghost var head := dst[..at];
    var from';
    o, from' := ProcessLumps(v.buf, lumps, c, dst, at, from, max, max);
    Assoc(head, v.buf[from..v.start], Render(v.buf, act, c, v.start, max));
    assert dst[..o] + v.buf[from'..max] == goal;
    MemCpy(dst, o, v.buf[from'..max]);
    o := o + (max - from');
  }

  // ----- what the Content-Length says -----

  /** The blank line stays and the body does not begin before it. */
  ghost predicate Separated(v: View, hdr: seq<Lump>, body: Option<Body>) {
    v.start <= Split(v, body) && WellFormed(hdr, 0, v.start)
  }

  /** The number written is the number of bytes sent after the blank line exactly
      if get_body saw a body or nothing follows the blank line. */
  lemma ClenRight(v: View, hdr: seq<Lump>, lumps: seq<Lump>, body: Option<Body>, c: Context)
    requires Ready(v, hdr, lumps, body, c) && Fits(v, lumps, body, c) && Separated(v, hdr, body)
    ensures v.len + BodyDelta(v, hdr, lumps, body, c)
            == |NewHeaders(v, hdr, lumps, body, c) + NewBody(v, hdr, lumps, body, c)|
               - |Render(v.buf, hdr, c, 0, v.start)|
            <==> v.len > 0 || v.start == |v.buf|
  {
    hide ValidBody, BodyText, WellFormed, Rest, Active, Uncrossed;
    RenderTo(v.buf, hdr, c, 0, v.start, Split(v, body));
    SizesAgree(v, hdr, lumps, body, c);
  }

  /** An empty body followed by six bytes, and an added part of five: the number is
      5, and 11 bytes follow the blank line. */
  lemma WrongClen(c: Context)
    requires Consistent(c)
    ensures var v := View("h\r\n\r\ngarbag", 5, 0);
            var body := Some(Body(0, 1, false, 11, 0, "", [Part(false, "t/p", "", New("hello"), NoFunction)]));
            && Ready(v, [], [], body, c) && Fits(v, [], body, c) && Separated(v, [], body)
            && v.len + BodyDelta(v, [], [], body, c) == 5
            && |NewHeaders(v, [], [], body, c) + NewBody(v, [], [], body, c)|
               - |Render(v.buf, [], c, 0, v.start)| == 11
  {
    hide Rest, Consistent;
    var v := View("h\r\n\r\ngarbag", 5, 0);
    var b := Body(0, 1, false, 11, 0, "", [Part(false, "t/p", "", New("hello"), NoFunction)]);
    AddedPart(Env(v.buf, [], c), b, "hello");
    RenderEmpty(v.buf, c, 0, 5);
    RenderEmpty(v.buf, c, 0, 11);
  }

  /** The same message with the six bytes deleted: the number is -6, which is
      printed as 2^64 - 6. */
  lemma NegativeClen(c: Context)
    requires Consistent(c)
    ensures var v, lumps := View("h\r\n\r\ngarbag", 5, 0), [Lump(5, true, 6, [], [])];
            && Ready(v, [], lumps, None, c) && Fits(v, lumps, None, c) && Separated(v, [], None)
            && v.len + BodyDelta(v, [], lumps, None, c) == -6
    ensures ClenText(-6) == CONTENT_LENGTH + Decimal(0xffff_ffff_ffff_fffa) + CRLF
  {
    hide Rest, Consistent, Active, Decimal;
    var v, lumps := View("h\r\n\r\ngarbag", 5, 0), [Lump(5, true, 6, [], [])];
    EditsInside(v, lumps, c);
    AllDeleted(v.buf, c, 5, 5, 11);
  }

  lemma {:induction false} AllDeleted(buf: string, c: Context, s: nat, p: nat, e: nat)
    requires s <= p <= e <= |buf|
    ensures Rest(buf, [Lump(s, true, e - s, [], [])], c, 0, p, e) == ""
    decreases e - p
  {
    var ls := [Lump(s, true, e - s, [], [])];
    assert LumpText(ls[0], c) == "" && TextAt(ls, c, 1, p) == "";
    assert Live(ls, 0);
    if p < e {
      AllDeleted(buf, c, s, p + 1, e);
      assert LiveDel(ls, 0) && ls[0].Deletes(p);
    }
  }

  /** The first-Via deletion of build_res_buf_from_sip_res, unless the caller
      keeps the Via. */
  function WithoutVia(ls: seq<Lump>, via: Option<Header>): seq<Lump> {
    if via.None? then ls else Insert(ls, Lump(via.value.off, true, via.value.len, [], []))
  }

  /** On headers without other edits the first Via is cut out. */
  lemma ViaGone(buf: string, via: Header, c: Context, e: nat)
    requires via.off + via.len <= e <= |buf|
    ensures Render(buf, WithoutVia([], Some(via)), c, 0, e) == buf[..via.off] + buf[via.off + via.len..e]
  {
    hide Rest, ChainText;
    var l := Lump(via.off, true, via.len, [], []);
    assert WithoutVia([], Some(via)) == [l];
    NoText(c);
    Replacement(buf, l, c, 0, e);
  }

  /** Where the new Content-Length stands among the edits and in the message: at
      its anchor, exactly if its edit is live. */
  lemma ClenShown(buf: string, ls0: seq<Lump>, clen: Option<Header>, unparsed: nat, n: int,
                  via: Option<Header>, c: Context, e: nat) returns (k: nat)
    requires Sorted(ls0) && ClenLump(clen, unparsed, n).offset <= e <= |buf|
    ensures var ls := WithoutVia(WithClen(ls0, clen, unparsed, Some(n)), via);
            && k < |ls| && ls[k] == ClenLump(clen, unparsed, n)
            && (via.None? ==> (Live(ls, k) <==> Open(ls0, ls[k].offset)))
            && Render(buf, ls, c, 0, e) ==
               Render(buf, ls[..k], c, 0, ls[k].offset)
               + ((if Live(ls, k) then ClenText(n) else "") + Rest(buf, ls, c, k + 1, ls[k].offset, e))
  {
    hide Rest, Live, Place, ClenText, Open, Sorted;
    var l := ClenLump(clen, unparsed, n);
    var ls1 := Insert(ls0, l);
    var ls := WithoutVia(ls1, via);
    InsertSorted(ls0, l);
    NewLive(ls0, l);
    k := Place(ls0, l.offset);
    if via.Some? {
      InsertSorted(ls1, Lump(via.value.off, true, via.value.len, [], []));
      k := Up(Place(ls1, via.value.off), k);
    }
    AddText(ClenText(n), c);
    LumpShown(buf, ls, c, k, 0, e);
  }

  /** The header edits of build_res_buf_from_sip_res. */
  method EditHeaders(msg: SipMsg, bodyLen: nat, delta: int, proto: Proto, clen: Option<Header>, unparsed: nat,
                     via: Option<Header>)
    returns (number: Option<int>)
    requires msg.Valid() && msg.len < UINT_RANGE
    requires msg.eoh.Some? && unparsed <= msg.eoh.value && unparsed <= msg.len
    requires clen.Some? ==> clen.value.off <= msg.eoh.value && clen.value.off + clen.value.len <= msg.len
    requires via.Some? ==> via.value.off <= msg.eoh.value && via.value.off + via.value.len <= msg.len
    modifies msg
    ensures msg.Valid() && msg.bodyLumps == old(msg.bodyLumps)
    ensures number == if WritesClen(proto, clen, delta) then Some(bodyLen + delta) else None
    ensures clen.Some? ==> (number.Some? <==> delta != 0)
    ensures clen.None? && proto in {TCP, TLS, WS, WSS} ==> number.Some?
    ensures clen.None? && proto !in {TCP, TLS, WS, WSS} ==> (number.Some? <==> delta != 0 && proto != UDP)
    ensures msg.addRm == WithoutVia(WithClen(old(msg.addRm), clen, unparsed, number), via)
  {
    hide Insert, Place, Sorted, WithClen;
    number := AdjustClen(msg, bodyLen, delta, proto, clen, unparsed);
    if via.Some? {
      assert via.value.off + via.value.len < UINT_RANGE;
      var r := msg.DelLump(via.value.off, via.value.len);
      assert r.InHeaders?;
    }
  }

  /** build_res_buf_from_sip_res, as far as edits and sizes go: the buffer that is
      allocated is filled exactly, and a Content-Length that is written counts the
      bytes after the blank line exactly under the condition of `ClenRight`.  A
      header that is left in place gave the received body's length, `v.len`, and
      counts them under the same condition. */
  method Build(msg: SipMsg, v: View, body: Option<Body>, c: Context,
               proto: Proto, clen: Option<Header>, unparsed: nat, via: Option<Header>)
    returns (out: array<char>, number: Option<int>)
    requires msg.Valid() && msg.len == |v.buf|
    requires Ready(v, msg.addRm, msg.bodyLumps, body, c) && Fits(v, msg.bodyLumps, body, c)
    requires msg.eoh.Some? && unparsed <= msg.eoh.value && unparsed <= Split(v, body)
    requires clen.Some? ==> clen.value.off <= msg.eoh.value && clen.value.off + clen.value.len <= Split(v, body)
    requires via.Some? ==> via.value.off <= msg.eoh.value && via.value.off + via.value.len <= Split(v, body)
    modifies msg
    ensures msg.bodyLumps == old(msg.bodyLumps)
    ensures Ready(v, msg.addRm, msg.bodyLumps, body, c)
    ensures msg.addRm == WithoutVia(WithClen(old(msg.addRm), clen, unparsed, number), via)
    ensures out[..] == NewHeaders(v, msg.addRm, msg.bodyLumps, body, c)
                       + NewBody(v, msg.addRm, msg.bodyLumps, body, c)
    ensures number.Some? <==> WritesClen(proto, clen, BodyDelta(v, msg.addRm, msg.bodyLumps, body, c))
    ensures number.Some? ==> number.value == v.len + BodyDelta(v, msg.addRm, msg.bodyLumps, body, c)
    ensures clen.Some? ==> (number.None? <==> BodyDelta(v, msg.addRm, msg.bodyLumps, body, c) == 0)
    ensures number.None? && proto in {TCP, TLS, WS, WSS} ==> clen.Some?
    ensures (number.Some? || clen.Some?) && Separated(v, msg.addRm, body) ==>
              ((if number.Some? then number.value else v.len) == out.Length - |Render(v.buf, msg.addRm, c, 0, v.start)|
               <==> v.len > 0 || v.start == |v.buf|)
    ensures fresh(out)
  {
    hide ValidBody, BodyText, WellFormed, Rest, Consistent, Active, Insert, Place, Sorted, Skew, TailGain, Uncrossed,
      WithClen, WithoutVia;
    var h := Split(v, body);
    var delta := CalculateBodyDiff(v, msg.addRm, msg.bodyLumps, body, c);
    ghost var hdr0 := msg.addRm;
    number := EditHeaders(msg, v.len, delta, proto, clen, unparsed, via);
    EditsStay(hdr0, clen, unparsed, number, via, h);
    ActiveAll(msg.addRm, 0, h);
    var n := LumpsLen(msg.addRm, c, UINT_MAX, v.buf, 0, h);
    NoSkew(msg.addRm, c, 0);
    var newLen := v.Useful() + delta + n;
    SizesAgree(v, msg.addRm, msg.bodyLumps, body, c);
    out := new char[newLen];
    var offset := ApplyChanges(v, msg.addRm, msg.bodyLumps, body, c, out);
    // the abort of the source
    assert offset == newLen;
    assert out[..] == out[..offset];
    if Separated(v, msg.addRm, body) {
      ClenRight(v, msg.addRm, msg.bodyLumps, body, c);
    }
  }

  lemma EditsStay(ls: seq<Lump>, clen: Option<Header>, unparsed: nat, number: Option<int>, via: Option<Header>, e: nat)
    requires WellFormed(ls, 0, e) && unparsed <= e
    requires clen.Some? ==> clen.value.off + clen.value.len <= e
    requires via.Some? ==> via.value.off + via.value.len <= e
    ensures WellFormed(WithoutVia(WithClen(ls, clen, unparsed, number), via), 0, e)
  {
    hide WellFormed, Insert;
    var ls1 := WithClen(ls, clen, unparsed, number);
    if number.Some? {
      InsertKeepsOrder(ls, ClenLump(clen, unparsed, number.value), 0, e);
    }
    if via.Some? {
      InsertKeepsOrder(ls1, Lump(via.value.off, true, via.value.len, [], []), 0, e);
    }
  }
}
