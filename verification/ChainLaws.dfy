/**
  Laws of the texts that hang on a lump (msg_translator.c, data_lump.c), and what
  they make of the conditional Record-Route headers of modules/rr/record.c.
*/
module ChainLaws {
  import opened SubstContext
  import opened Lumps
  import opened LumpLaws
  import opened DataLump
  import opened MsgTranslator

  // ----- chains -----

  lemma NoText(c: Context)
    ensures ChainText([], 0, c) == ""
  {
  }

  lemma OneText(t: string, c: Context)
    ensures ChainText([Add(t)], 0, c) == t
  {
    hide ChainText;
    assert [Add(t)] + [] == [Add(t)];
    TextFirst(t, [], c);
    NoText(c);
  }

  /** A text put first stands first. */
  lemma TextFirst(t: string, ch: seq<Piece>, c: Context)
    ensures ChainText([Add(t)] + ch, 0, c) == t + ChainText(ch, 0, c)
  {
    PushPiece(Add(t), ch, 0, c);
  }

  lemma SubstFirst(k: Subst, ch: seq<Piece>, c: Context)
    ensures ChainText([AddSubst(k)] + ch, 0, c) == SubstText(k, c) + ChainText(ch, 0, c)
  {
    PushPiece(AddSubst(k), ch, 0, c);
  }

  /** A condition guards everything after it. */
  lemma Guarded(k: Cond, ch: seq<Piece>, c: Context)
    ensures ChainText([AddOpt(k)] + ch, 0, c) == if CheckOpt(k, c) then ChainText(ch, 0, c) else ""
  {
    hide CheckOpt;
    PushPiece(AddOpt(k), ch, 0, c);
  }

  /** A skip goes on with the last piece, whatever is in between. */
  lemma SkipToLast(mid: seq<Piece>, last: Piece, c: Context)
    ensures ChainText([Skip] + mid + [last], 0, c) == ChainText([last], 0, c)
  {
    hide SubstText, CheckOpt;
    var ch := [Skip] + mid + [last];
    assert ch[|mid| + 1] == last;
    LastPiece(ch, c);
  }

  lemma LastPiece(ch: seq<Piece>, c: Context)
    requires |ch| > 0
    ensures ChainText(ch, |ch| - 1, c) == ChainText([ch[|ch| - 1]], 0, c)
  {
    hide SubstText, CheckOpt;
    assert ChainText(ch, |ch|, c) == "" && ChainText([ch[|ch| - 1]], 1, c) == "";
  }

  lemma PlainFirst(p: Piece, t: string, ch: seq<Piece>, c: Context)
    requires p == Add(t) || (p.AddSubst? && t == SubstText(p.subst, c))
    ensures ChainText([p] + ch, 0, c) == t + ChainText(ch, 0, c)
  {
    hide ChainText, SubstText;
    if p.Add? {
      TextFirst(t, ch, c);
    } else {
      SubstFirst(p.subst, ch, c);
    }
  }

  /** Chains without conditions and skips are written piece by piece. */
  lemma {:induction false} PlainChain(a: seq<Piece>, b: seq<Piece>, c: Context)
    requires forall i :: 0 <= i < |a| ==> a[i].Add? || a[i].AddSubst?
    ensures ChainText(a + b, 0, c) == ChainText(a, 0, c) + ChainText(b, 0, c)
    decreases |a|
  {
    hide ChainText;
    if a == [] {
      assert a + b == b;
      NoText(c);
    } else {
      assert a + b == [a[0]] + (a[1..] + b) && a == [a[0]] + a[1..];
      PlainChain(a[1..], b, c);
      var t := if a[0].Add? then a[0].text else SubstText(a[0].subst, c);
      PlainFirst(a[0], t, a[1..] + b, c);
      PlainFirst(a[0], t, a[1..], c);
    }
  }

  /** A lump's before texts stand before its after texts; a new after text stands
      right behind the before texts. */
  lemma BeforeThenAfter(l: Lump, x: string, y: string, c: Context)
    ensures LumpText(l.(before := [Add(x)], after := [Add(y)]), c) == x + y
    ensures LumpText(l.(after := [Add(y)] + l.after), c) == ChainText(l.before, 0, c) + (y + ChainText(l.after, 0, c))
  {
    hide ChainText;
    OneText(x, c);
    OneText(y, c);
    TextFirst(y, l.after, c);
  }

  // ----- one replacement -----

  /** A single deletion with texts replaces its bytes by them. */
  lemma Replacement(buf: string, l: Lump, c: Context, s: nat, e: nat)
    requires s <= l.offset && l.offset + l.len <= e <= |buf| && l.del
    ensures Render(buf, [l], c, s, e) == buf[s..l.offset] + (LumpText(l, c) + buf[l.offset + l.len..e])
  {
    hide Rest, LumpText;
    var ls := [l];
    LumpShown(buf, ls, c, 0, s, e);
    assert ls[..0] == [] && Live(ls, 0);
    BeyondEdits(buf, [], c, s, l.offset);
    assert LiveDel(ls, 0);
    EndText(buf, ls, c, l.offset, l.offset + l.len, l.offset, e);
  }

  /** A single anchor adds its texts. */
  lemma Addition(buf: string, l: Lump, c: Context, s: nat, e: nat)
    requires s <= l.offset <= e <= |buf| && !l.del
    ensures Render(buf, [l], c, s, e) == buf[s..l.offset] + (LumpText(l, c) + buf[l.offset..e])
  {
    hide Rest, LumpText;
    var ls := [l];
    LumpShown(buf, ls, c, 0, s, e);
    assert ls[..0] == [] && Live(ls, 0);
    BeyondEdits(buf, [], c, s, l.offset);
    BeyondEdits(buf, ls, c, l.offset, e);
  }

  // ----- several anchors at one place -----

  function InsertAll(ls: seq<Lump>, anchors: seq<Lump>): seq<Lump>
    decreases |anchors|
  {
    if anchors == [] then ls else InsertAll(Insert(ls, anchors[0]), anchors[1..])
  }

  function Texts(anchors: seq<Lump>, c: Context): string {
    if anchors == [] then "" else LumpText(anchors[0], c) + Texts(anchors[1..], c)
  }

  /** What stands behind the texts at `q`. */
  ghost function Behind(buf: string, ls: seq<Lump>, c: Context, q: nat, e: nat): string
    requires q <= e <= |buf|
  {
    if q == e then "" else ByteAt(buf, ls, q) + Render(buf, ls, c, q + 1, e)
  }

  lemma BehindKept(buf: string, ls: seq<Lump>, a: Lump, c: Context, e: nat)
    requires Sorted(ls) && !a.del && a.offset <= e <= |buf|
    ensures Behind(buf, Insert(ls, a), c, a.offset, e) == Behind(buf, ls, c, a.offset, e)
  {
    hide ByteAt, Rest, Insert;
    if a.offset < e {
      SameByte(buf, ls, a, a.offset);
      RestShift(buf, ls, a, c, a.offset + 1, e);
    }
  }

  lemma OpenKept(ls: seq<Lump>, a: Lump, q: nat)
    requires !a.del
    ensures Open(Insert(ls, a), q) <==> Open(ls, q)
  {
    hide Live, Place;
    var k := Place(ls, a.offset);
    var ls' := Insert(ls, a);
    forall j | 0 <= j < |ls| ensures Live(ls', Up(k, j)) == Live(ls, j) && ls'[Up(k, j)] == ls[j] {
      LiveShift(ls, k, a, j);
    }
    if !Open(ls, q) {
      var j :| 0 <= j < |ls| && LiveDel(ls, j) && ls[j].Covers(q);
      assert LiveDel(ls', Up(k, j));
    }
    if !Open(ls', q) {
      var j' :| 0 <= j' < |ls'| && LiveDel(ls', j') && ls'[j'].Covers(q);
      var j := if j' < k then j' else j' - 1;
      assert j' != k && Up(k, j) == j' && LiveDel(ls, j);
    }
  }

  /** Anchors added at one place outside of deletions show their texts there, in
      the order they were added and behind what was there. */
  lemma {:induction false} AnchorsMeaning(buf: string, ls: seq<Lump>, anchors: seq<Lump>, q: nat, c: Context,
                                          s: nat, e: nat)
    requires Sorted(ls) && Open(ls, q) && s <= q <= e <= |buf|
    requires forall i :: 0 <= i < |anchors| ==> !anchors[i].del && anchors[i].offset == q
    ensures Render(buf, InsertAll(ls, anchors), c, s, e)
         == Render(buf, ls, c, s, q) + Texts(anchors, c) + Behind(buf, ls, c, q, e)
    decreases |anchors|
  {
    hide ByteAt, Rest, Insert, Open, LumpText, Sorted, Behind;
    if anchors == [] {
      Nothing(buf, ls, c, q, s, e);
    } else {
      var a := anchors[0];
      var ls' := Insert(ls, a);
      InsertSorted(ls, a);
      OpenKept(ls, a, q);
      AnchorsMeaning(buf, ls', anchors[1..], q, c, s, e);
      AnchorMeaning(buf, ls, a, c, s, q);
      BehindKept(buf, ls, a, c, e);
      Grouped(Render(buf, ls, c, s, q), LumpText(a, c), Texts(anchors[1..], c), Behind(buf, ls, c, q, e));
    }
  }

  lemma Nothing(buf: string, ls: seq<Lump>, c: Context, q: nat, s: nat, e: nat)
    requires s <= q <= e <= |buf|
    ensures Render(buf, ls, c, s, e) == Render(buf, ls, c, s, q) + Texts([], c) + Behind(buf, ls, c, q, e)
  {
    hide ByteAt, Rest;
    if q < e {
      RestSplit(buf, ls, c, 0, s, q, e);
    }
  }

  lemma Grouped(a: string, b: string, t: string, r: string)
    ensures (a + b + "") + t + r == a + (b + t) + r
    ensures (a + b) + t + r == a + (b + t) + r
  {
    assert a + b + "" == a + b;
  }

  // ----- record_route -----

  /** The pieces build_rr hangs on its two anchors: `first` after the one, then
      `last` before the other. */
  function RouteFirst(prefix: string, k: Subst): seq<Piece> {
    [Add(prefix), AddSubst(k), AddOpt(IfDiffRealms), Add(";r2=on")]
  }

  function RouteLast(suffix: string, term: string): seq<Piece> {
    [Add(suffix), Add(term)]
  }

  /** The four anchors of a double Record-Route at one offset. */
  function RouteLumps(q: nat, prefix: string, suffix: string, term: string): seq<Lump> {
    [Lump(q, false, 0, [], RouteFirst(prefix, SndAll)),
     Lump(q, false, 0, RouteLast(suffix, term), []),
     Lump(q, false, 0, [], [AddOpt(IfDiffRealms)] + RouteFirst(prefix, RcvAll)),
     Lump(q, false, 0, [AddOpt(IfDiffRealms)] + RouteLast(suffix, term), [])]
  }

  lemma RouteText(prefix: string, k: Subst, suffix: string, term: string, c: Context)
    ensures ChainText(RouteFirst(prefix, k), 0, c)
         == prefix + SubstText(k, c) + (if CheckOpt(IfDiffRealms, c) then ";r2=on" else "")
    ensures ChainText(RouteLast(suffix, term), 0, c) == suffix + term
  {
    hide SubstText, CheckOpt, ChainText;
    var r2 := [Add(";r2=on")];
    var mark := if CheckOpt(IfDiffRealms, c) then ";r2=on" else "";
    OneText(";r2=on", c);
    Guarded(IfDiffRealms, r2, c);
    assert ChainText([AddOpt(IfDiffRealms)] + r2, 0, c) == mark;
    SubstFirst(k, [AddOpt(IfDiffRealms)] + r2, c);
    TextFirst(prefix, [AddSubst(k)] + ([AddOpt(IfDiffRealms)] + r2), c);
    assert RouteFirst(prefix, k) == [Add(prefix)] + ([AddSubst(k)] + ([AddOpt(IfDiffRealms)] + r2));
    assert prefix + (SubstText(k, c) + mark) == prefix + SubstText(k, c) + mark;
    OneText(term, c);
    TextFirst(suffix, [Add(term)], c);
    assert RouteLast(suffix, term) == [Add(suffix)] + [Add(term)];
  }

  /** What is to be written: one header or two. */
  function Routes(prefix: string, suffix: string, term: string, c: Context): string
    requires c.send.Some?
  {
    if Arrival(c) == (c.send.value.address, c.send.value.portNo, c.send.value.proto) then
      prefix + SubstText(SndAll, c) + suffix + term
    else
      prefix + SubstText(SndAll, c) + ";r2=on" + suffix + term
      + (prefix + SubstText(RcvAll, c) + ";r2=on" + suffix + term)
  }

  lemma RouteTexts(q: nat, prefix: string, suffix: string, term: string, c: Context)
    requires c.send.Some?
    ensures Texts(RouteLumps(q, prefix, suffix, term), c) == Routes(prefix, suffix, term, c)
  {
    hide SubstText, CheckOpt, Arrival, Texts, ChainText, RouteFirst, RouteLast;
    RealmsDiffer(c);
    RouteText(prefix, SndAll, suffix, term, c);
    RouteText(prefix, RcvAll, suffix, term, c);
    Guarded(IfDiffRealms, RouteFirst(prefix, RcvAll), c);
    Guarded(IfDiffRealms, RouteLast(suffix, term), c);
    NoText(c);
    FourTexts(RouteLumps(q, prefix, suffix, term), c);
    OneHeader(prefix, SubstText(SndAll, c), suffix, term);
    TwoHeaders(prefix, SubstText(SndAll, c), SubstText(RcvAll, c), ";r2=on", suffix, term);
  }

  lemma OneHeader(prefix: string, addr: string, suffix: string, term: string)
    ensures ("" + (prefix + addr + "")) + ((suffix + term) + "") + ("" + "") + ("" + "")
         == prefix + addr + suffix + term
  {
  }

  lemma TwoHeaders(prefix: string, snd: string, rcv: string, mark: string, suffix: string, term: string)
    ensures ("" + (prefix + snd + mark)) + ((suffix + term) + "")
            + ("" + (prefix + rcv + mark)) + ((suffix + term) + "")
         == prefix + snd + mark + suffix + term + (prefix + rcv + mark + suffix + term)
  {
  }

  lemma FourTexts(ls: seq<Lump>, c: Context)
    requires |ls| == 4
    ensures Texts(ls, c) == LumpText(ls[0], c) + LumpText(ls[1], c) + LumpText(ls[2], c) + LumpText(ls[3], c)
  {
    hide LumpText;
    assert ls[1..][0] == ls[1] && ls[1..][1..] == ls[2..];
    assert ls[2..][0] == ls[2] && ls[2..][1..] == ls[3..];
    assert ls[3..][0] == ls[3] && ls[3..][1..] == [];
    assert Texts(ls[3..], c) == LumpText(ls[3], c);
    assert Texts(ls[2..], c) == LumpText(ls[2], c) + LumpText(ls[3], c);
  }

  /**
    record_route with double routing, on any message and edits: one that leaves
    the way it came gets one header with the sending address; otherwise two, the
    sending address first, both marked.
  */
  lemma DoubleRoute(buf: string, ls: seq<Lump>, q: nat, prefix: string, suffix: string, term: string, c: Context,
                    s: nat, e: nat)
    requires Sorted(ls) && Open(ls, q) && s <= q <= e <= |buf| && c.send.Some?
    ensures Render(buf, InsertAll(ls, RouteLumps(q, prefix, suffix, term)), c, s, e)
         == Render(buf, ls, c, s, q) + Routes(prefix, suffix, term, c) + Behind(buf, ls, c, q, e)
  {
    hide Rest, Open, Sorted, Behind, Routes, Texts, InsertAll;
    AnchorsMeaning(buf, ls, RouteLumps(q, prefix, suffix, term), q, c, s, e);
    RouteTexts(q, prefix, suffix, term, c);
  }

  /** A guarded text is written exactly if its condition holds and no deletion
      covers its place. */
  lemma GuardedAnchor(buf: string, ls: seq<Lump>, q: nat, k: Cond, t: string, c: Context, s: nat, e: nat)
    requires Sorted(ls) && s <= q <= e <= |buf|
    ensures Render(buf, Insert(ls, Lump(q, false, 0, [], [AddOpt(k), Add(t)])), c, s, e)
         == Render(buf, ls, c, s, q) + (if Open(ls, q) && CheckOpt(k, c) then t else "") + Behind(buf, ls, c, q, e)
  {
    hide Rest, Open, Sorted, CheckOpt, ByteAt, Insert, ChainText;
    var a := Lump(q, false, 0, [], [AddOpt(k), Add(t)]);
    OneText(t, c);
    NoText(c);
    assert a.after == [AddOpt(k)] + [Add(t)];
    Guarded(k, [Add(t)], c);
    AnchorMeaning(buf, ls, a, c, s, e);
  }
}
