/**
  What a rebuilt body is, apart from how it is put together (msg_translator.c): a
  body left alone is sent as received, an added or removed part changes nothing
  else, and new framing reads back under section 5.1.1 of RFC 2046.
*/
module BodyLaws {
  import opened Wrappers
  import opened SubstContext
  import opened Lumps
  import opened LumpLaws
  import opened MsgTranslator
  import opened BodyParts
  import Multipart

  // ----- the edits of a part -----

  lemma SortedTail(ls: seq<Lump>)
    requires Sorted(ls) && ls != []
    ensures Sorted(ls[1..])
  {
  }

  lemma LeastFirst(ls: seq<Lump>)
    requires Sorted(ls) && ls != []
    ensures forall x :: x in ls ==> ls[0].offset <= x.offset
  {
    forall x | x in ls ensures ls[0].offset <= x.offset {
      var i :| 0 <= i < |ls| && ls[i] == x;
    }
  }

  lemma {:induction false} FromAre(ls: seq<Lump>, off: nat)
    requires Sorted(ls)
    ensures Sorted(From(ls, off)) && forall x :: x in From(ls, off) <==> x in ls && off <= x.offset
  {
    if ls != [] {
      if ls[0].offset < off {
        SortedTail(ls);
        FromAre(ls[1..], off);
        hide Sorted;
        assert ls == [ls[0]] + ls[1..];
      } else {
        LeastFirst(ls);
      }
    }
  }

  lemma ActiveAre(ls: seq<Lump>, max: nat)
    requires Sorted(ls)
    ensures Sorted(Active(ls, max)) && forall x :: x in Active(ls, max) <==> x in ls && x.offset < max
  {
    hide Active;
    var r := Active(ls, max);
    forall i | |r| <= i < |ls| ensures ls[i].offset >= max {
      assert ls[|r|].offset <= ls[i].offset;
    }
    forall x | x in ls && x.offset < max ensures x in r {
      var i :| 0 <= i < |ls| && ls[i] == x;
      assert r[i] == x;
    }
  }

  /** A received part is edited by exactly the lumps that lie in it. */
  lemma PartEdits(env: Env, p: Part)
    requires Sorted(env.lumps) && p.content.Received?
    ensures Sorted(PartLumps(env, p))
    ensures forall x :: x in PartLumps(env, p) <==> x in env.lumps && p.content.off <= x.offset < p.End()
  {
    hide Sorted, From, Active;
    FromAre(env.lumps, p.content.off);
    ActiveAre(From(env.lumps, p.content.off), p.End());
  }

  // ----- a body reduced to one part -----

  /** `k` is the first part that is not deleted. */
  ghost predicate Only(b: Body, k: nat) {
    k < |b.parts| && !b.parts[k].deleted && forall i :: 0 <= i < k ==> b.parts[i].deleted
  }

  lemma OnlyIsKept(b: Body, k: nat)
    requires Only(b, k)
    ensures Kept(b.parts, 0) == k
  {
    var r := Kept(b.parts, 0);
    assert r <= k;
  }

  /** No edit lies in the part and no function rewrites it. */
  ghost predicate Unedited(env: Env, p: Part) {
    p.HasLumps() && PartLumps(env, p) == []
  }

  /** An added part is the whole body; so is the text of a part that is rewritten,
      unless the received wrapping is kept around it. */
  lemma SinglePart(env: Env, b: Body, k: nat)
    requires ValidBody(env, b) && b.updatedCount == 1 && Only(b, k)
    ensures var p := b.parts[k];
      && (p.content.New? && p.dump.NoFunction? ==> BodyText(env, b) == p.content.text)
      && (p.dump.Dumped? && (p.content.New? || b.partCount != 1 || !b.rcvMultipart) ==> BodyText(env, b) == p.dump.text)
      && (p.dump.Failed? && (p.content.New? || b.partCount != 1 || !b.rcvMultipart) ==> BodyText(env, b) == "")
  {
    hide WellFormed, PartLumps, Rest;
    OnlyIsKept(b, k);
  }

  /** A received part that is left alone is sent as it came, and so is its wrapping. */
  lemma SingleUnedited(env: Env, b: Body, k: nat)
    requires ValidBody(env, b) && b.updatedCount == 1 && Only(b, k) && Unedited(env, b.parts[k])
    ensures var p := b.parts[k];
      BodyText(env, b) == if b.rcvMultipart && b.partCount == 1 then env.buf[b.start..b.start + b.len]
                          else env.buf[p.content.off..p.End()]
  {
    hide WellFormed, PartLumps, Rest;
    OnlyIsKept(b, k);
    var p := b.parts[k];
    RenderEmpty(env.buf, env.c, p.content.off, p.End());
    if b.rcvMultipart && b.partCount == 1 {
      assert env.buf[b.start..b.start + b.len] ==
             env.buf[b.start..p.content.off] + env.buf[p.content.off..p.End()] + env.buf[p.End()..b.start + b.len];
    }
  }

  /** An edited part is sent with its edits, inside its wrapping if that is kept. */
  lemma SingleEdited(env: Env, b: Body, k: nat)
    requires ValidBody(env, b) && b.updatedCount == 1 && Only(b, k) && b.parts[k].HasLumps()
    ensures var p := b.parts[k];
      var text := Render(env.buf, PartLumps(env, p), env.c, p.content.off, p.End());
      BodyText(env, b) == if b.rcvMultipart && b.partCount == 1
                          then env.buf[b.start..p.content.off] + text + env.buf[p.End()..b.start + b.len] else text
  {
    hide WellFormed, PartLumps, Rest;
    OnlyIsKept(b, k);
  }

  /** A rewritten part inside kept wrapping. */
  lemma SingleWrapped(env: Env, b: Body, k: nat)
    requires ValidBody(env, b) && b.updatedCount == 1 && Only(b, k) && b.rcvMultipart && b.partCount == 1
    requires b.parts[k].content.Received? && b.parts[k].dump.Dumped?
    ensures var p := b.parts[k];
      BodyText(env, b) == env.buf[b.start..p.content.off] + p.dump.text + env.buf[p.End()..b.start + b.len]
  {
    hide WellFormed, PartLumps, Rest;
    OnlyIsKept(b, k);
  }

  /** Without any part left, or with none to send, there is no body. */
  lemma NoPart(env: Env, b: Body)
    requires ValidBody(env, b)
    requires b.updatedCount == 0 || (b.updatedCount == 1 && forall i :: 0 <= i < |b.parts| ==> b.parts[i].deleted)
    ensures BodyText(env, b) == ""
  {
    hide WellFormed, PartLumps, Rest;
  }

  // ----- retained framing -----

  ghost predicate AllUnedited(env: Env, parts: seq<Part>, k: nat) {
    forall i :: k <= i < |parts| ==> !parts[i].deleted && Unedited(env, parts[i])
  }

  lemma OldUnedited(env: Env, p: Part, orig: nat)
    requires Unedited(env, p) && orig <= p.content.off && p.Past(orig) <= |env.buf|
    ensures OldPart(env, p, orig) == env.buf[orig..p.Past(orig)]
  {
    hide PartLumps, Rest;
    RenderEmpty(env.buf, env.c, orig, p.End());
    assert env.buf[orig..p.Past(orig)] == env.buf[orig..p.End()] + env.buf[p.End()..p.Past(orig)];
  }

  /** The source position after the first parts. */
  function PosAt(parts: seq<Part>, k: nat, orig: nat, i: nat): nat
    requires k <= i <= |parts|
    decreases i - k
  {
    if k == i then orig else PosAt(parts, k + 1, parts[k].Past(orig), i)
  }

  /** What is left alone is sent as received, up to the part at `i`. */
  lemma {:induction false} ReframedSame(env: Env, boundary: string, parts: seq<Part>, k: nat, orig: nat, i: nat)
    requires k <= i <= |parts| && Layout(env, parts, k, orig) && Tail(env, parts, k, orig)
    requires forall j :: k <= j < i ==> !parts[j].deleted && Unedited(env, parts[j])
    ensures orig <= PosAt(parts, k, orig, i) <= |env.buf|
    ensures Layout(env, parts, i, PosAt(parts, k, orig, i)) && Tail(env, parts, i, PosAt(parts, k, orig, i))
    ensures Reframed(env, boundary, parts, k, orig)
         == env.buf[orig..PosAt(parts, k, orig, i)] + Reframed(env, boundary, parts, i, PosAt(parts, k, orig, i))
    decreases i - k
  {
    hide OldPart, FreshPart, Unedited, WellFormed, PartLumps;
    if k < i {
      var p := parts[k];
      assert p.content.Received? by { ReceivedPart(env, p); }
      var past, pos := p.Past(orig), PosAt(parts, k, orig, i);
      ReframedSame(env, boundary, parts, k + 1, past, i);
      OldUnedited(env, p, orig);
      assert env.buf[orig..past] + env.buf[past..pos] == env.buf[orig..pos];
      Assoc(env.buf[orig..past], env.buf[past..pos], Reframed(env, boundary, parts, i, pos));
    } else {
      assert env.buf[orig..orig] == "";
    }
  }

  lemma ReceivedPart(env: Env, p: Part)
    requires Unedited(env, p)
    ensures p.content.Received?
  {
    hide PartLumps;
  }

  /** A multipart body whose parts are all left alone is sent as received. */
  lemma ReframedIdentity(env: Env, boundary: string, parts: seq<Part>, start: nat)
    requires Layout(env, parts, 0, start) && Tail(env, parts, 0, start) && AllUnedited(env, parts, 0)
    ensures Reframed(env, boundary, parts, 0, start) == env.buf[start..]
  {
    hide Unedited, Layout, Tail, Reframed;
    ReframedTail(env, boundary, parts, 0, start);
  }

  /** Deleting one part cuts it out with its framing. */
  lemma ReframedWithout(env: Env, boundary: string, parts: seq<Part>, start: nat, d: nat)
    requires Layout(env, parts, 0, start) && Tail(env, parts, 0, start) && d < |parts|
    requires parts[d].deleted && parts[d].content.Received?
    requires forall j :: 0 <= j < |parts| && j != d ==> !parts[j].deleted && Unedited(env, parts[j])
    ensures var pos := PosAt(parts, 0, start, d);
      start <= pos <= parts[d].Past(pos) <= |env.buf| &&
      Reframed(env, boundary, parts, 0, start) == env.buf[start..pos] + env.buf[parts[d].Past(pos)..]
  {
    hide Unedited, OldPart, FreshPart, WellFormed, PartLumps;
    ReframedSame(env, boundary, parts, 0, start, d);
    var pos := PosAt(parts, 0, start, d);
    var past := parts[d].Past(pos);
    ReframedTail(env, boundary, parts, d + 1, past);
  }

  /** A part that a function rewrites keeps its framing; only its text changes. */
  lemma ReframedDumped(env: Env, boundary: string, parts: seq<Part>, start: nat, d: nat)
    requires Layout(env, parts, 0, start) && Tail(env, parts, 0, start) && d < |parts|
    requires !parts[d].deleted && parts[d].content.Received? && parts[d].dump.Dumped?
    requires forall j :: 0 <= j < |parts| && j != d ==> !parts[j].deleted && Unedited(env, parts[j])
    ensures var p := parts[d];
      start <= p.content.off && p.End() + 2 <= |env.buf| &&
      Reframed(env, boundary, parts, 0, start) ==
      env.buf[start..p.content.off] + (p.dump.text + ("\r\n" + env.buf[p.End() + 2..]))
  {
    hide Unedited, WellFormed, PartLumps, OldPart, FreshPart, Layout, Tail, PosAt, Reframed;
    ReframedSame(env, boundary, parts, 0, start, d);
    var p, pos := parts[d], PosAt(parts, 0, start, d);
    var past := p.Past(pos);
    NextPart(env, boundary, parts, d, pos);
    ReframedTail(env, boundary, parts, d + 1, past);
    OldDumped(env, p, pos);
    Slices(env.buf, start, pos, p.content.off);
    Spliced(env.buf[start..pos], env.buf[pos..p.content.off], p.dump.text, env.buf[past..]);
  }

  lemma Slices(s: string, i: nat, j: nat, k: nat)
    requires i <= j <= k <= |s|
    ensures s[i..j] + s[j..k] == s[i..k]
  {
  }

  lemma NextPart(env: Env, boundary: string, parts: seq<Part>, k: nat, orig: nat)
    requires k < |parts| && Layout(env, parts, k, orig) && Tail(env, parts, k, orig)
    requires !parts[k].deleted && parts[k].content.Received?
    ensures Layout(env, parts, k + 1, parts[k].Past(orig)) && Tail(env, parts, k + 1, parts[k].Past(orig))
    ensures orig <= parts[k].content.off && parts[k].Past(orig) <= |env.buf|
    ensures Reframed(env, boundary, parts, k, orig)
         == OldPart(env, parts[k], orig) + Reframed(env, boundary, parts, k + 1, parts[k].Past(orig))
  {
    hide WellFormed, PartLumps, OldPart, FreshPart;
  }

  lemma OldDumped(env: Env, p: Part, orig: nat)
    requires p.content.Received? && p.dump.Dumped? && orig <= p.content.off && p.Past(orig) <= |env.buf|
    ensures OldPart(env, p, orig) == env.buf[orig..p.content.off] + (p.dump.text + "\r\n")
  {
  }

  lemma Spliced(a: string, b: string, t: string, r: string)
    ensures a + ((b + (t + "\r\n")) + r) == (a + b) + (t + ("\r\n" + r))
  {
  }

  /** Parts left alone to the end are sent as received. */
  lemma ReframedTail(env: Env, boundary: string, parts: seq<Part>, k: nat, orig: nat)
    requires k <= |parts| && Layout(env, parts, k, orig) && Tail(env, parts, k, orig)
    requires forall j :: k <= j < |parts| ==> !parts[j].deleted && Unedited(env, parts[j])
    ensures orig <= |env.buf| && Reframed(env, boundary, parts, k, orig) == env.buf[orig..]
  {
    hide Unedited, OldPart, FreshPart, Layout, Tail, PosAt;
    ReframedSame(env, boundary, parts, k, orig, |parts|);
    var pos := PosAt(parts, k, orig, |parts|);
    assert Reframed(env, boundary, parts, |parts|, pos) == env.buf[pos..];
    assert env.buf[orig..pos] + env.buf[pos..] == env.buf[orig..];
  }

  /** A part as an entity: its type, its headers, a blank line and its text. */
  function Entity(p: Part, text: string): string {
    "Content-Type: " + p.mime + "\r\n" + p.headers + "\r\n" + text
  }

  lemma FreshIs(env: Env, boundary: string, p: Part, orig: nat)
    requires p.HasLumps() ==> orig <= p.End() <= |env.buf|
    ensures FreshPart(env, boundary, p, orig) == Multipart.Encapsulated(boundary, Entity(p, PartText(env, p, orig)))
  {
    hide PartText;
  }

  /** A part added behind parts that are left alone goes in front of the closing delimiter. */
  lemma ReframedAdded(env: Env, boundary: string, parts: seq<Part>, start: nat)
    requires Layout(env, parts, 0, start) && Tail(env, parts, 0, start) && parts != []
    requires var p := parts[|parts| - 1]; p.content.New? && p.dump.NoFunction? && !p.deleted
    requires forall j :: 0 <= j < |parts| - 1 ==> !parts[j].deleted && Unedited(env, parts[j])
    ensures var p := parts[|parts| - 1];
      var pos := PosAt(parts, 0, start, |parts| - 1);
      start <= pos <= |env.buf| &&
      Reframed(env, boundary, parts, 0, start) ==
      env.buf[start..pos] + (Multipart.Encapsulated(boundary, Entity(p, p.content.text)) + env.buf[pos..])
  {
    hide Unedited, OldPart, FreshPart, WellFormed, PartLumps, Entity, PartText;
    var d := |parts| - 1;
    var p := parts[d];
    ReframedSame(env, boundary, parts, 0, start, d);
    var pos := PosAt(parts, 0, start, d);
    assert Reframed(env, boundary, parts, d + 1, p.Past(pos)) == env.buf[pos..];
    PlainText(env, p, pos);
    FreshIs(env, boundary, p, pos);
  }

  // ----- framing of our own -----

  /** The parts that are kept, as entities, in order. */
  ghost function Entities(env: Env, parts: seq<Part>, k: nat, orig: nat): seq<string>
    requires k <= |parts| && Layout(env, parts, k, orig)
    decreases |parts| - k
  {
    if k == |parts| then [] else
    var p := parts[k];
    (if p.deleted then [] else [Entity(p, PartText(env, p, orig))]) + Entities(env, parts, k + 1, p.Past(orig))
  }

  lemma {:induction false} FramedIs(env: Env, parts: seq<Part>, k: nat, orig: nat)
    requires k <= |parts| && Layout(env, parts, k, orig)
    ensures Framed(env, parts, k, orig) == Multipart.Framing(OSS_BOUNDARY, Entities(env, parts, k, orig))
    decreases |parts| - k
  {
    hide FreshPart, Entity, PartText, WellFormed, PartLumps;
    if k < |parts| {
      var p := parts[k];
      var rest := Entities(env, parts, k + 1, p.Past(orig));
      FramedIs(env, parts, k + 1, p.Past(orig));
      if p.deleted {
        assert [] + rest == rest;
        assert "" + Framed(env, parts, k + 1, p.Past(orig)) == Framed(env, parts, k + 1, p.Past(orig));
      } else {
        FreshIs(env, OSS_BOUNDARY, p, orig);
        FramingFirst(OSS_BOUNDARY, Entity(p, PartText(env, p, orig)), rest);
      }
    }
  }

  lemma FramingFirst(boundary: string, e: string, rest: seq<string>)
    ensures Multipart.Framing(boundary, [e] + rest)
         == Multipart.Encapsulated(boundary, e) + Multipart.Framing(boundary, rest)
  {
    hide Multipart.Encapsulated;
    assert ([e] + rest)[1..] == rest;
  }

  /** A body that gets new framing reads back as its kept parts, in order, exactly if
      none of them contains the delimiter. */
  lemma FramedReads(env: Env, b: Body)
    requires ValidBody(env, b) && b.updatedCount > 1 && b.partCount < 2
    ensures var es := Entities(env, b.parts, 0, b.start);
      Multipart.Read(OSS_BOUNDARY, BodyText(env, b)) == Some(es) <==> Multipart.Clear(OSS_BOUNDARY, es)
  {
    hide Framed, Entities, Layout, Multipart.Read, Multipart.Clear;
    FramedIs(env, b.parts, 0, b.start);
    Multipart.ReadsBack(OSS_BOUNDARY, Entities(env, b.parts, 0, b.start));
  }

  /** The entities are those of the kept parts, each with its own type, headers and
      text, as many as are kept. */
  lemma {:induction false} EntityAt(env: Env, parts: seq<Part>, k: nat, orig: nat, i: nat)
    requires k <= i < |parts| && Layout(env, parts, k, orig) && !parts[i].deleted
    ensures var n, p, pos := KeptCount(parts, k, i), parts[i], PosAt(parts, k, orig, i);
      && n < |Entities(env, parts, k, orig)| && (p.HasLumps() ==> pos <= p.End() <= |env.buf|)
      && Entities(env, parts, k, orig)[n] == Entity(p, PartText(env, p, pos))
    decreases i - k
  {
    hide Entity, PartText, WellFormed, PartLumps;
    if k < i {
      EntityAt(env, parts, k + 1, parts[k].Past(orig), i);
    }
  }

  lemma {:induction false} EntityCount(env: Env, parts: seq<Part>, k: nat, orig: nat)
    requires k <= |parts| && Layout(env, parts, k, orig)
    ensures |Entities(env, parts, k, orig)| == KeptCount(parts, k, |parts|)
    decreases |parts| - k
  {
    hide Entity, PartText, WellFormed, PartLumps;
    if k < |parts| {
      EntityCount(env, parts, k + 1, parts[k].Past(orig));
    }
  }

  /** How many parts from `k` up to `i` are kept. */
  function KeptCount(parts: seq<Part>, k: nat, i: nat): nat
    requires k <= i <= |parts|
    decreases i - k
  {
    if k == i then 0 else (if parts[k].deleted then 0 else 1) + KeptCount(parts, k + 1, i)
  }
}
