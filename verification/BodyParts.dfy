/**
  Rebuilding a body part by part (msg_translator.c): `Prepare` predicts the size
  (prep_reassemble_body_parts), `Reassemble` writes the bytes
  (reassemble_body_parts).  Both are proved against `BodyText`, which states the
  result in the framing of section 5.1.1 of RFC 2046.
*/
module BodyParts {
  import opened SubstContext
  import opened Lumps
  import opened MsgTranslator

  const CRLF: string := "\r\n"
  const OSS_BOUNDARY: string := "OSS-unique-boundary-42"
  const CONTENT_TYPE: string := "Content-Type: "

  /** A received part points into the message; a new one carries its text. */
  datatype Content = Received(off: nat, len: nat) | New(text: string)

  /** Outcome of a part's dump function; a failed one inserts nothing. */
  datatype Dump = NoFunction | Failed | Dumped(text: string) {
    function Text(): string {
      if Dumped? then text else ""
    }
  }

  datatype Part = Part(deleted: bool, mime: string, headers: string, content: Content, dump: Dump) {
    function End(): nat
      requires content.Received?
    {
      content.off + content.len
    }

    /** Where the source cursor goes once the part is dealt with. */
    function Past(orig: nat): nat {
      if content.Received? then End() + |CRLF| else orig
    }

    predicate HasLumps() {
      content.Received? && dump.NoFunction?
    }
  }

  datatype Body = Body(partCount: nat, updatedCount: nat, rcvMultipart: bool,
                       start: nat, len: nat, boundary: string, parts: seq<Part>)

  /** The message a body belongs to. */
  datatype Env = Env(buf: string, lumps: seq<Lump>, c: Context)

  // ----- what is to be emitted -----

  /** The lumps from the first one at or past `off`. */
  function From(ls: seq<Lump>, off: nat): seq<Lump> {
    if ls == [] || ls[0].offset >= off then ls else From(ls[1..], off)
  }

  /** The lumps that apply to a received part. */
  function PartLumps(env: Env, p: Part): seq<Lump>
    requires p.content.Received?
  {
    Active(From(env.lumps, p.content.off), p.End())
  }

  /** A part's own text; a received part starts at source position `orig`. */
  ghost function PartText(env: Env, p: Part, orig: nat): string
    requires p.HasLumps() ==> orig <= p.End() <= |env.buf|
  {
    if !p.dump.NoFunction? then p.dump.Text()
    else if p.content.New? then p.content.text
    else Render(env.buf, PartLumps(env, p), env.c, orig, p.End())
  }

  function Heading(boundary: string, p: Part): string {
    "--" + boundary + CRLF + CONTENT_TYPE + p.mime + CRLF + p.headers + CRLF
  }

  /** A part in framing of our own. */
  ghost function FreshPart(env: Env, boundary: string, p: Part, orig: nat): string
    requires p.HasLumps() ==> orig <= p.End() <= |env.buf|
  {
    Heading(boundary, p) + (PartText(env, p, orig) + CRLF)
  }

  /** A received part with the framing it came in, which starts at `orig`. */
  ghost function OldPart(env: Env, p: Part, orig: nat): string
    requires p.content.Received? && orig <= p.content.off && p.Past(orig) <= |env.buf|
  {
    if !p.dump.NoFunction? then env.buf[orig..p.content.off] + (p.dump.Text() + CRLF)
    else PartText(env, p, orig) + env.buf[p.End()..p.Past(orig)]
  }

  /** Received parts lie in order in the message and their edits stay inside. */
  ghost predicate Layout(env: Env, parts: seq<Part>, k: nat, orig: nat)
    requires k <= |parts|
    decreases |parts| - k
  {
    k == |parts| ||
    var p := parts[k];
    && (p.content.Received? ==>
          && orig <= p.content.off && p.End() <= |env.buf|
          && (!p.deleted && p.HasLumps() ==> WellFormed(PartLumps(env, p), p.content.off, p.End())))
    && Layout(env, parts, k + 1, p.Past(orig))
  }

  /** From none or one part to several: every kept part is framed afresh. */
  ghost function Framed(env: Env, parts: seq<Part>, k: nat, orig: nat): string
    requires k <= |parts| && Layout(env, parts, k, orig)
    decreases |parts| - k
  {
    if k == |parts| then "--" + OSS_BOUNDARY + "--" + CRLF else
    var p := parts[k];
    (if p.deleted then "" else FreshPart(env, OSS_BOUNDARY, p, orig)) + Framed(env, parts, k + 1, p.Past(orig))
  }

  /** Several parts to several: kept ones retain their received framing. */
  ghost function Reframed(env: Env, boundary: string, parts: seq<Part>, k: nat, orig: nat): string
    requires k <= |parts| && Layout(env, parts, k, orig) && Tail(env, parts, k, orig)
    decreases |parts| - k
  {
    if k == |parts| then env.buf[orig..] else
    var p := parts[k];
    (if p.deleted then ""
     else if p.content.New? then FreshPart(env, boundary, p, orig)
     else OldPart(env, p, orig))
    + Reframed(env, boundary, parts, k + 1, p.Past(orig))
  }

  /** Every received part is followed by a line end, and something may follow. */
  ghost predicate Tail(env: Env, parts: seq<Part>, k: nat, orig: nat)
    requires k <= |parts|
    decreases |parts| - k
  {
    orig <= |env.buf| &&
    (k < |parts| ==> parts[k].Past(orig) <= |env.buf| && Tail(env, parts, k + 1, parts[k].Past(orig)))
  }

  /** First part that is not deleted. */
  function Kept(parts: seq<Part>, k: nat): (r: nat)
    requires k <= |parts|
    ensures k <= r <= |parts|
    ensures r < |parts| ==> !parts[r].deleted
    ensures forall i :: k <= i < r ==> parts[i].deleted
    decreases |parts| - k
  {
    if k == |parts| || !parts[k].deleted then k else Kept(parts, k + 1)
  }

  /** A single received part keeps the multipart wrapping it came in. */
  predicate KeepsWrapping(b: Body, p: Part) {
    b.rcvMultipart && b.partCount == 1 && p.content.Received?
  }

  ghost predicate ValidBody(env: Env, b: Body) {
    && b.start + b.len <= |env.buf|
    && (if b.updatedCount == 0 then true
        else if b.updatedCount == 1 then
          var k := Kept(b.parts, 0);
          k < |b.parts| ==>
            var p := b.parts[k];
            && (p.content.Received? ==>
                  && b.start <= p.content.off && p.End() <= b.start + b.len
                  && (p.HasLumps() ==> WellFormed(PartLumps(env, p), p.content.off, p.End())))
        else Layout(env, b.parts, 0, b.start) && (b.partCount < 2 || Tail(env, b.parts, 0, b.start)))
  }

  /** The text of a body reduced to one part. */
  ghost function SingleText(env: Env, b: Body, p: Part): string
    requires b.start + b.len <= |env.buf|
    requires p.content.Received? ==> b.start <= p.content.off && p.End() <= b.start + b.len
  {
    var t := PartText(env, p, if p.content.Received? then p.content.off else 0);
    if KeepsWrapping(b, p)
    then env.buf[b.start..p.content.off] + t + env.buf[p.End()..b.start + b.len]
    else t
  }

  ghost function BodyText(env: Env, b: Body): string
    requires ValidBody(env, b)
  {
    if b.updatedCount == 0 then ""
    else if b.updatedCount == 1 then
      var k := Kept(b.parts, 0);
      if k == |b.parts| then "" else SingleText(env, b, b.parts[k])
    else if b.partCount < 2 then Framed(env, b.parts, 0, b.start)
    else Reframed(env, b.boundary, b.parts, 0, b.start)
  }

  // ----- lumps of a part -----

  lemma FromIs(ls: seq<Lump>, off: nat, i: nat)
    requires i <= |ls|
    requires forall j :: 0 <= j < i ==> ls[j].offset < off
    requires i < |ls| ==> ls[i].offset >= off
    ensures From(ls, off) == ls[i..]
  {
    if i > 0 {
      FromIs(ls[1..], off, i - 1);
      assert ls[1..][i - 1..] == ls[i..];
    }
  }

  /** Starting earlier only adds the source bytes in between. */
  lemma RenderFrom(env: Env, ls: seq<Lump>, s: nat, off: nat, e: nat)
    requires s <= off <= e <= |env.buf| && WellFormed(ls, off, e)
    ensures WellFormed(ls, s, e)
    ensures Render(env.buf, ls, env.c, s, e) == env.buf[s..off] + Render(env.buf, ls, env.c, off, e)
  {
    hide Live, Rest, Quiet, LiveDel;
    Start(ls, s, s, e);
    QuietGap(ls, env.c, 0, s, s, 0, off);
    Gap(env.buf, ls, env.c, 0, s, s, off, e);
  }

  lemma RenderEmpty(buf: string, c: Context, s: nat, e: nat)
    requires s <= e <= |buf|
    ensures Render(buf, [], c, s, e) == buf[s..e]
  {
    EndText(buf, [], c, s, s, 0, e);
  }

  lemma WiderWellFormed(ls: seq<Lump>, s: nat, off: nat, e: nat)
    requires s <= off && WellFormed(ls, off, e)
    ensures WellFormed(ls, s, e)
  {
  }

  /** Moves the lump pointer to the first lump inside the part. */
  method FindLump(ls: seq<Lump>, lump: nat, off: nat) returns (l: nat)
    requires lump <= |ls| && forall j :: 0 <= j < lump ==> ls[j].offset < off
    ensures lump <= l <= |ls| && From(ls, off) == ls[l..]
    ensures forall j :: 0 <= j < l ==> ls[j].offset < off
  {
    hide From;
    l := lump;
    while l < |ls| && ls[l].offset < off
      invariant lump <= l <= |ls|
      invariant forall j :: 0 <= j < l ==> ls[j].offset < off
    {
      l := l + 1;
    }
    FromIs(ls, off, l);
  }

  // ----- the size -----

  /** Size of a received part with its edits, from source position `orig`. */
  method EditedLen(env: Env, p: Part, l: nat, orig: nat) returns (n: int)
    requires p.HasLumps() && orig <= p.content.off && p.End() <= |env.buf| && Consistent(env.c)
    requires WellFormed(PartLumps(env, p), p.content.off, p.End())
    requires l <= |env.lumps| && From(env.lumps, p.content.off) == env.lumps[l..]
    ensures n == |PartText(env, p, orig)|
  {
    hide WellFormed, Rest, Consistent, Skew;
    n := 0;
    WiderWellFormed(PartLumps(env, p), orig, p.content.off, p.End());
    if l < |env.lumps| {
      var m := LumpsLen(env.lumps[l..], env.c, p.End(), env.buf, orig, p.End());
      NoSkew(PartLumps(env, p), env.c, 0);
      n := n + m;
    } else {
      assert PartLumps(env, p) == [];
      RenderEmpty(env.buf, env.c, orig, p.End());
    }
    n := n + (p.End() - orig);
  }

  /** The heading's length as the size pass adds it up. */
  function HeadingLen(boundary: string, p: Part): nat {
    2 + |boundary| + |CRLF| + 14 + |p.mime| + |CRLF| + |p.headers| + |CRLF|
  }

  lemma HeadingLenIs(boundary: string, p: Part)
    ensures HeadingLen(boundary, p) == |Heading(boundary, p)|
  {
  }

  lemma PlainText(env: Env, p: Part, orig: nat)
    requires !p.HasLumps()
    ensures PartText(env, p, orig) == if p.dump.NoFunction? then p.content.text else p.dump.Text()
  {
  }

  /** Size of a part in framing of our own; returns the new lump pointer too. */
  method FreshLen(env: Env, boundary: string, p: Part, lump: nat, orig: nat) returns (n: int, l: nat)
    requires Consistent(env.c)
    requires p.content.Received? ==> orig <= p.content.off && p.End() <= |env.buf|
    requires p.HasLumps() ==> WellFormed(PartLumps(env, p), p.content.off, p.End())
    requires lump <= |env.lumps| && forall j :: 0 <= j < lump ==> env.lumps[j].offset < orig
    ensures l <= |env.lumps| && forall j :: 0 <= j < l ==> env.lumps[j].offset < p.Past(orig)
    ensures n == |FreshPart(env, boundary, p, orig)|
  {
    hide PartText, WellFormed, PartLumps, From, Consistent, Heading, HeadingLen;
    l := lump;
    HeadingLenIs(boundary, p);
    n := HeadingLen(boundary, p);
    if p.HasLumps() {
      l := FindLump(env.lumps, lump, p.content.off);
      var m := EditedLen(env, p, l, orig);
      n := n + m + |CRLF|;
    } else {
      PlainText(env, p, orig);
      n := n + (if p.dump.NoFunction? then |p.content.text| else |p.dump.Text()|) + |CRLF|;
    }
  }

  /** Size of a received part with the framing it came in. */
  method OldLen(env: Env, p: Part, lump: nat, orig: nat) returns (n: int, l: nat)
    requires Consistent(env.c)
    requires p.content.Received? && orig <= p.content.off && p.Past(orig) <= |env.buf|
    requires p.HasLumps() ==> WellFormed(PartLumps(env, p), p.content.off, p.End())
    requires lump <= |env.lumps| && forall j :: 0 <= j < lump ==> env.lumps[j].offset < orig
    ensures l <= |env.lumps| && forall j :: 0 <= j < l ==> env.lumps[j].offset < p.Past(orig)
    ensures n == |OldPart(env, p, orig)|
  {
    hide PartText, WellFormed, PartLumps, From, Consistent;
    l := lump;
    if !p.dump.NoFunction? {
      PlainText(env, p, orig);
      n := (p.content.off - orig) + |p.dump.Text()| + |CRLF|;
    } else {
      l := FindLump(env.lumps, lump, p.content.off);
      n := EditedLen(env, p, l, orig);
      n := n + |CRLF|;
    }
  }

  method FramedLen(env: Env, parts: seq<Part>, start: nat) returns (len: int)
    requires Layout(env, parts, 0, start) && Consistent(env.c)
    ensures len == |Framed(env, parts, 0, start)|
  {
    hide FreshPart, WellFormed, PartLumps, Consistent;
    var orig: nat, lump: nat := start, 0;
    len := 0;
    for k := 0 to |parts|
      invariant lump <= |env.lumps| && forall j :: 0 <= j < lump ==> env.lumps[j].offset < orig
      invariant Layout(env, parts, k, orig)
      invariant len + |Framed(env, parts, k, orig)| == |Framed(env, parts, 0, start)|
    {
      var p := parts[k];
      if !p.deleted {
        var n;
        n, lump := FreshLen(env, OSS_BOUNDARY, p, lump, orig);
        len := len + n;
      }
      orig := p.Past(orig);
    }
    len := len + 2 + |OSS_BOUNDARY| + 2 + |CRLF|;
  }

  method ReframedLen(env: Env, boundary: string, parts: seq<Part>, start: nat) returns (len: int)
    requires Layout(env, parts, 0, start) && Tail(env, parts, 0, start) && Consistent(env.c)
    ensures len == |Reframed(env, boundary, parts, 0, start)|
  {
    hide FreshPart, OldPart, WellFormed, PartLumps, Consistent;
    var orig: nat, lump: nat := start, 0;
    len := 0;
    for k := 0 to |parts|
      invariant lump <= |env.lumps| && forall j :: 0 <= j < lump ==> env.lumps[j].offset < orig
      invariant Layout(env, parts, k, orig) && Tail(env, parts, k, orig)
      invariant len + |Reframed(env, boundary, parts, k, orig)| == |Reframed(env, boundary, parts, 0, start)|
    {
      var p := parts[k];
      if !p.deleted {
        var n;
        if p.content.New? {
          n, lump := FreshLen(env, boundary, p, lump, orig);
        } else {
          n, lump := OldLen(env, p, lump, orig);
        }
        len := len + n;
      }
      orig := p.Past(orig);
    }
    len := len + (|env.buf| - orig);
  }

  /** prep_reassemble_body_parts: the size of the rebuilt body. */
  method Prepare(env: Env, b: Body) returns (len: int)
    requires ValidBody(env, b) && Consistent(env.c)
    ensures len == |BodyText(env, b)|
  {
    hide PartText, WellFormed, PartLumps, From, Consistent, Framed, Reframed, Layout, Tail, Kept;
    len := 0;
    if b.updatedCount == 0 {
    } else if b.updatedCount == 1 {
      var k := FindKept(b.parts);
      if k < |b.parts| {
        var p := b.parts[k];
        if p.HasLumps() {
          var lump := FindLump(env.lumps, 0, p.content.off);
          len := EditedLen(env, p, lump, p.content.off);
        } else {
          PlainText(env, p, if p.content.Received? then p.content.off else 0);
          len := if p.dump.NoFunction? then |p.content.text| else |p.dump.Text()|;
        }
        if !(p.content.New? || b.partCount > 1) && b.partCount == 1 && b.rcvMultipart {
          len := len + (b.len - p.content.len);
        }
      }
    } else if b.partCount < 2 {
      len := FramedLen(env, b.parts, b.start);
    } else {
      len := ReframedLen(env, b.boundary, b.parts, b.start);
    }
  }

  method FindKept(parts: seq<Part>) returns (k: nat)
    ensures k == Kept(parts, 0)
  {
    k := 0;
    while k < |parts| && parts[k].deleted
      invariant k <= |parts| && Kept(parts, k) == Kept(parts, 0)
    {
      k := k + 1;
    }
  }

  // ----- the bytes -----

  /** Writes a received part with its edits, from source position `orig`. */
  method WriteEdited(env: Env, p: Part, l: nat, orig: nat, dst: array<char>, o: nat,
                     ghost rest: string, ghost goal: string) returns (o': nat)
    requires p.HasLumps() && orig <= p.content.off && p.End() <= |env.buf|
    requires WellFormed(PartLumps(env, p), p.content.off, p.End())
    requires l <= |env.lumps| && From(env.lumps, p.content.off) == env.lumps[l..]
    requires o + |PartText(env, p, orig)| + |rest| == |goal| <= dst.Length
    requires dst[..o] + (PartText(env, p, orig) + rest) == goal
    modifies dst
    ensures o' == o + |PartText(env, p, orig)|
    ensures dst[..o'] + rest == goal && dst[|goal|..] == old(dst[|goal|..])
  {
    hide WellFormed, Rest;
    ghost var text, head := PartText(env, p, orig), dst[..o];
    WiderWellFormed(PartLumps(env, p), orig, p.content.off, p.End());
    o' := o;
    var from := orig;
    if l < |env.lumps| {
      o', from := ProcessLumps(env.buf, env.lumps[l..], env.c, dst, o, orig, p.End(), p.End());
      assert o' + (p.End() - from) == o + |text|;
      assert dst[|goal|..] == old(dst[|goal|..]) by {
        TailUnchanged(dst[..], old(dst[..]), o + |text|, |goal|);
      }
    } else {
      assert PartLumps(env, p) == [];
      RenderEmpty(env.buf, env.c, orig, p.End());
      assert text == env.buf[from..p.End()];
    }
    assert dst[..o'] + env.buf[from..p.End()] == head + text;
    Regroup(goal, head, text + rest, text, rest);
    assert goal == dst[..o'] + (env.buf[from..p.End()] + rest);
    o' := Append(dst, o', env.buf[from..p.End()], rest, goal);
  }

  lemma TailUnchanged(a: string, b: string, i: nat, j: nat)
    requires i <= j <= |a| == |b| && a[i..] == b[i..]
    ensures a[j..] == b[j..]
  {
    assert a[j..] == a[i..][j - i..];
    assert b[j..] == b[i..][j - i..];
  }

  /** Separator, Content-Type and further headers of a freshly framed part. */
  method WriteHeading(boundary: string, p: Part, dst: array<char>, o: nat, ghost rest: string, ghost goal: string)
    returns (o': nat)
    requires o + |Heading(boundary, p)| + |rest| == |goal| <= dst.Length
    requires dst[..o] + (Heading(boundary, p) + rest) == goal
    modifies dst
    ensures o' == o + |Heading(boundary, p)|
    ensures dst[..o'] + rest == goal && dst[|goal|..] == old(dst[|goal|..])
  {
    ghost var h3 := if p.headers == "" then CRLF + CRLF + rest else CRLF + (p.headers + (CRLF + rest));
    ghost var h2 := p.mime + h3;
    ghost var h1 := CRLF + CONTENT_TYPE + h2;
    assert Heading(boundary, p) + rest == "--" + (boundary + h1);
    o' := Append(dst, o, "--", boundary + h1, goal);
    o' := Append(dst, o', boundary, h1, goal);
    o' := Append(dst, o', CRLF + CONTENT_TYPE, h2, goal);
    o' := Append(dst, o', p.mime, h3, goal);
    if p.headers == "" {
      o' := Append(dst, o', CRLF + CRLF, rest, goal);
    } else {
      o' := Append(dst, o', CRLF, p.headers + (CRLF + rest), goal);
      o' := Append(dst, o', p.headers, CRLF + rest, goal);
      o' := Append(dst, o', CRLF, rest, goal);
    }
  }

  /** A part in framing of our own; returns the new lump pointer too. */
  method WriteFresh(env: Env, boundary: string, p: Part, lump: nat, orig: nat, dst: array<char>, at: nat,
                    ghost next: string, ghost goal: string) returns (o: nat, l: nat)
    requires p.content.Received? ==> orig <= p.content.off && p.End() <= |env.buf|
    requires p.HasLumps() ==> WellFormed(PartLumps(env, p), p.content.off, p.End())
    requires lump <= |env.lumps| && forall j :: 0 <= j < lump ==> env.lumps[j].offset < orig
    requires at + |FreshPart(env, boundary, p, orig)| + |next| == |goal| <= dst.Length
    requires dst[..at] + (FreshPart(env, boundary, p, orig) + next) == goal
    modifies dst
    ensures l <= |env.lumps| && forall j :: 0 <= j < l ==> env.lumps[j].offset < p.Past(orig)
    ensures o == at + |FreshPart(env, boundary, p, orig)| && dst[..o] + next == goal
  {
    hide PartText, WellFormed, PartLumps, From, Heading;
    l := lump;
    ghost var text := PartText(env, p, orig);
    Assoc(Heading(boundary, p), text + CRLF, next);
    o := WriteHeading(boundary, p, dst, at, text + CRLF + next, goal);
    Assoc(text, CRLF, next);
    if p.HasLumps() {
      l := FindLump(env.lumps, lump, p.content.off);
      o := WriteEdited(env, p, l, orig, dst, o, CRLF + next, goal);
    } else {
      PlainText(env, p, orig);
      o := Append(dst, o, if p.dump.NoFunction? then p.content.text else p.dump.Text(), CRLF + next, goal);
    }
    o := Append(dst, o, CRLF, next, goal);
  }

  lemma Assoc(a: string, b: string, d: string)
    ensures (a + b) + d == a + (b + d)
  {
  }

  /** A received part with the framing it came in. */
  method WriteOld(env: Env, p: Part, lump: nat, orig: nat, dst: array<char>, at: nat,
                  ghost next: string, ghost goal: string) returns (o: nat, l: nat)
    requires p.content.Received? && orig <= p.content.off && p.Past(orig) <= |env.buf|
    requires p.HasLumps() ==> WellFormed(PartLumps(env, p), p.content.off, p.End())
    requires lump <= |env.lumps| && forall j :: 0 <= j < lump ==> env.lumps[j].offset < orig
    requires at + |OldPart(env, p, orig)| + |next| == |goal| <= dst.Length
    requires dst[..at] + (OldPart(env, p, orig) + next) == goal
    modifies dst
    ensures l <= |env.lumps| && forall j :: 0 <= j < l ==> env.lumps[j].offset < p.Past(orig)
    ensures o == at + |OldPart(env, p, orig)| && dst[..o] + next == goal
  {
    hide PartText, WellFormed, PartLumps, From;
    l := lump;
    if !p.dump.NoFunction? {
      Assoc(env.buf[orig..p.content.off], p.dump.Text() + CRLF, next);
      o := Append(dst, at, env.buf[orig..p.content.off], p.dump.Text() + CRLF + next, goal);
      Assoc(p.dump.Text(), CRLF, next);
      o := Append(dst, o, p.dump.Text(), CRLF + next, goal);
      o := Append(dst, o, CRLF, next, goal);
    } else {
      l := FindLump(env.lumps, lump, p.content.off);
      ghost var sep := env.buf[p.End()..p.Past(orig)];
      Assoc(PartText(env, p, orig), sep, next);
      o := WriteEdited(env, p, l, orig, dst, at, sep + next, goal);
      o := Append(dst, o, env.buf[p.End()..p.Past(orig)], next, goal);
    }
  }

  method FramedWrite(env: Env, parts: seq<Part>, start: nat, dst: array<char>, at: nat) returns (o: nat)
    requires Layout(env, parts, 0, start)
    requires at + |Framed(env, parts, 0, start)| <= dst.Length
    modifies dst
    ensures o == at + |Framed(env, parts, 0, start)|
    ensures dst[..o] == old(dst[..at]) + Framed(env, parts, 0, start)
  {
    hide FreshPart, WellFormed, PartLumps;
    var orig: nat, lump: nat := start, 0;
    o := at;
    ghost var goal := old(dst[..at]) + Framed(env, parts, 0, start);
    for k := 0 to |parts|
      invariant lump <= |env.lumps| && forall j :: 0 <= j < lump ==> env.lumps[j].offset < orig
      invariant Layout(env, parts, k, orig)
      invariant o + |Framed(env, parts, k, orig)| == |goal| <= dst.Length
      invariant dst[..o] + Framed(env, parts, k, orig) == goal
    {
      var p := parts[k];
      if !p.deleted {
        o, lump := WriteFresh(env, OSS_BOUNDARY, p, lump, orig, dst, o,
                              Framed(env, parts, k + 1, p.Past(orig)), goal);
      }
      orig := p.Past(orig);
    }
    o := Append(dst, o, "--" + OSS_BOUNDARY + "--" + CRLF, "", goal);
  }

  method ReframedWrite(env: Env, boundary: string, parts: seq<Part>, start: nat, dst: array<char>, at: nat)
    returns (o: nat)
    requires Layout(env, parts, 0, start) && Tail(env, parts, 0, start)
    requires at + |Reframed(env, boundary, parts, 0, start)| <= dst.Length
    modifies dst
    ensures o == at + |Reframed(env, boundary, parts, 0, start)|
    ensures dst[..o] == old(dst[..at]) + Reframed(env, boundary, parts, 0, start)
  {
    hide FreshPart, OldPart, WellFormed, PartLumps;
    var orig: nat, lump: nat := start, 0;
    o := at;
    ghost var goal := old(dst[..at]) + Reframed(env, boundary, parts, 0, start);
    for k := 0 to |parts|
      invariant lump <= |env.lumps| && forall j :: 0 <= j < lump ==> env.lumps[j].offset < orig
      invariant Layout(env, parts, k, orig) && Tail(env, parts, k, orig)
      invariant o + |Reframed(env, boundary, parts, k, orig)| == |goal| <= dst.Length
      invariant dst[..o] + Reframed(env, boundary, parts, k, orig) == goal
    {
      var p := parts[k];
      if !p.deleted {
        ghost var next := Reframed(env, boundary, parts, k + 1, p.Past(orig));
        if p.content.New? {
          o, lump := WriteFresh(env, boundary, p, lump, orig, dst, o, next, goal);
        } else {
          o, lump := WriteOld(env, p, lump, orig, dst, o, next, goal);
        }
      }
      orig := p.Past(orig);
    }
    o := Append(dst, o, env.buf[orig..], "", goal);
  }

  /** reassemble_body_parts: writes the rebuilt body at `at`. */
  method Reassemble(env: Env, b: Body, dst: array<char>, at: nat) returns (o: nat)
    requires ValidBody(env, b)
    requires at + |BodyText(env, b)| <= dst.Length
    modifies dst
    ensures o == at + |BodyText(env, b)|
    ensures dst[..o] == old(dst[..at]) + BodyText(env, b)
  {
    hide PartText, WellFormed, PartLumps, From, Framed, Reframed, Layout, Tail, Kept;
    o := at;
    if b.updatedCount == 0 {
    } else if b.updatedCount == 1 {
      var k := FindKept(b.parts);
      if k < |b.parts| {
        o := WriteSingle(env, b, b.parts[k], dst, at);
      }
    } else if b.partCount < 2 {
      o := FramedWrite(env, b.parts, b.start, dst, at);
    } else {
      o := ReframedWrite(env, b.boundary, b.parts, b.start, dst, at);
    }
  }

  method WriteSingle(env: Env, b: Body, p: Part, dst: array<char>, at: nat) returns (o: nat)
    requires b.start + b.len <= |env.buf|
    requires p.content.Received? ==> b.start <= p.content.off && p.End() <= b.start + b.len
    requires p.HasLumps() ==> WellFormed(PartLumps(env, p), p.content.off, p.End())
    requires at + |SingleText(env, b, p)| <= dst.Length
    modifies dst
    ensures o == at + |SingleText(env, b, p)|
    ensures dst[..o] == old(dst[..at]) + SingleText(env, b, p)
  {
    hide PartText, WellFormed, PartLumps, From;
    o := at;
    ghost var goal := old(dst[..at]) + SingleText(env, b, p);
    ghost var orig := if p.content.Received? then p.content.off else 0;
    ghost var text := PartText(env, p, orig);
    if KeepsWrapping(b, p) {
      ghost var rest := env.buf[p.End()..b.start + b.len];
      Assoc(env.buf[b.start..p.content.off], text, rest);
      o := Append(dst, o, env.buf[b.start..p.content.off], text + rest, goal);
      o := WriteOwn(env, p, orig, dst, o, rest, goal);
      o := Append(dst, o, env.buf[p.End()..b.start + b.len], "", goal);
    } else {
      assert text + "" == text;
      o := WriteOwn(env, p, orig, dst, o, "", goal);
    }
  }

  method WriteOwn(env: Env, p: Part, ghost orig: nat, dst: array<char>, at: nat, ghost rest: string, ghost goal: string)
    returns (o: nat)
    requires p.content.Received? ==> p.content.off == orig && p.End() <= |env.buf|
    requires p.HasLumps() ==> WellFormed(PartLumps(env, p), p.content.off, p.End())
    requires at + |PartText(env, p, orig)| + |rest| == |goal| <= dst.Length
    requires dst[..at] + (PartText(env, p, orig) + rest) == goal
    modifies dst
    ensures o == at + |PartText(env, p, orig)| && dst[..o] + rest == goal
  {
    hide PartText, WellFormed, PartLumps, From;
    if p.HasLumps() {
      var lump := FindLump(env.lumps, 0, p.content.off);
      o := WriteEdited(env, p, lump, p.content.off, dst, at, rest, goal);
    } else {
      PlainText(env, p, orig);
      o := Append(dst, at, if p.dump.NoFunction? then p.content.text else p.dump.Text(), rest, goal);
    }
  }
}
