/**
  Building the edit list (data_lump.c) and what each call does to the meaning of
  the list.
*/
module DataLump {
  import opened Wrappers
  import opened SubstContext
  import opened Lumps
  import opened LumpLaws

  const UINT_RANGE: nat := 0x1_0000_0000

  // ----- sorted insertion -----

  /** Index after all lumps with an offset not above `offset`. */
  function Place(ls: seq<Lump>, offset: nat): (k: nat)
    ensures k <= |ls|
    ensures forall i :: 0 <= i < k ==> ls[i].offset <= offset
    ensures k < |ls| ==> ls[k].offset > offset
  {
    if ls == [] || ls[0].offset > offset then 0 else 1 + Place(ls[1..], offset)
  }

  function Insert(ls: seq<Lump>, l: Lump): seq<Lump> {
    var k := Place(ls, l.offset);
    ls[..k] + [l] + ls[k..]
  }

  /** Insertion keeps the list sorted and well formed; the new lump comes after
      those at the same offset. */
  lemma InsertKeepsOrder(ls: seq<Lump>, l: Lump, s: nat, e: nat)
    requires WellFormed(ls, s, e) && s <= l.offset <= e && l.End() <= e
    ensures WellFormed(Insert(ls, l), s, e)
    ensures multiset(Insert(ls, l)) == multiset(ls) + multiset{l}
  {
    hide Place;
    InsertSorted(ls, l);
    InsertElements(ls, l);
    var r := Insert(ls, l);
    hide Insert;
    forall i | 0 <= i < |r| ensures s <= r[i].offset <= e && r[i].End() <= e {
      assert r[i] in r;
    }
  }

  lemma InsertSorted(ls: seq<Lump>, l: Lump)
    requires Sorted(ls)
    ensures Sorted(Insert(ls, l))
  {
    hide Place;
  }

  lemma InsertElements(ls: seq<Lump>, l: Lump)
    ensures forall x :: x in Insert(ls, l) <==> x == l || x in ls
    ensures multiset(Insert(ls, l)) == multiset(ls) + multiset{l}
  {
    hide Place;
    var k := Place(ls, l.offset);
    assert ls == ls[..k] + ls[k..];
  }

  /** The insertion loop of del_lump and anchor_lump. */
  method FindPlace(list: seq<Lump>, offset: nat) returns (t: nat)
    ensures t == Place(list, offset)
  {
    hide Place;
    t := 0;
    while t < |list| && !(list[t].offset > offset)
      invariant 0 <= t <= |list|
      invariant forall i :: 0 <= i < t ==> list[i].offset <= offset
    {
      t := t + 1;
    }
    PlaceIs(list, offset, t);
  }

  /** The list with `p` first in the after chain of its lump `k`. */
  function Attach(ls: seq<Lump>, k: nat, p: Piece): (r: seq<Lump>)
    requires k < |ls|
    ensures |r| == |ls| && forall i :: 0 <= i < |r| ==> r[i].offset == ls[i].offset && r[i].End() == ls[i].End()
  {
    ls[k := ls[k].(after := [p] + ls[k].after)]
  }

  /** Where a new lump went, or the abort of the argument checks. */
  datatype Placed = Aborted | InHeaders(index: nat) | InBody(index: nat)

  /** The parts of a message that lump creation uses. */
  class SipMsg {
    const len: nat
    const eoh: Option<nat>
    var addRm: seq<Lump>
    var bodyLumps: seq<Lump>

    ghost predicate Valid()
      reads this
    {
      && Sorted(addRm) && Sorted(bodyLumps)
      && (forall x :: x in addRm ==> x.offset <= len && (eoh.Some? ==> x.offset <= eoh.value))
      && (forall x :: x in bodyLumps ==> x.offset <= len && eoh.Some? && x.offset > eoh.value)
    }

    constructor (len: nat, eoh: Option<nat>)
      ensures Valid() && addRm == [] && bodyLumps == []
      ensures this.len == len && this.eoh == eoh
    {
      this.len, this.eoh := len, eoh;
      addRm, bodyLumps := [], [];
    }

    /** Both lists, headers first. */
    ghost function All(): seq<Lump>
      reads this
    {
      addRm + bodyLumps
    }

    /** del_lump; the size check is done in 32-bit unsigned arithmetic. */
    method DelLump(offset: nat, n: nat) returns (r: Placed)
      requires Valid() && len < UINT_RANGE && offset < UINT_RANGE && n < UINT_RANGE
      modifies this
      ensures Valid()
      ensures r.Aborted? <==> offset > len || (offset + n) % UINT_RANGE > len
      ensures Landed(r, Lump(offset, true, n, [], []), old(addRm), old(bodyLumps))
      ensures !r.Aborted? ==> (offset + n <= len <==> offset + n < UINT_RANGE)
      ensures !r.Aborted? ==> All() == Insert(old(All()), Lump(offset, true, n, [], []))
    {
      if offset > len || (offset + n) % UINT_RANGE > len {
        return Aborted;
      }
      SizeCheck(offset, n, len);
      r := Link(Lump(offset, true, n, [], []));
    }

    /** insert_new_lump_after: puts a piece first in the after chain of a lump. */
    method InsertAfter(r: Placed, p: Piece)
      requires Valid() && !r.Aborted?
      requires if r.InHeaders? then r.index < |addRm| else r.index < |bodyLumps|
      modifies this
      ensures Valid()
      ensures addRm == if r.InHeaders? then Attach(old(addRm), r.index, p) else old(addRm)
      ensures bodyLumps == if r.InBody? then Attach(old(bodyLumps), r.index, p) else old(bodyLumps)
    {
      if r.InHeaders? {
        addRm := Attach(addRm, r.index, p);
      } else {
        bodyLumps := Attach(bodyLumps, r.index, p);
      }
    }

    /** anchor_lump */
    method AnchorLump(offset: nat) returns (r: Placed)
      requires Valid() && len < UINT_RANGE && offset < UINT_RANGE
      modifies this
      ensures Valid()
      ensures r.Aborted? <==> offset > len
      ensures Landed(r, Lump(offset, false, 0, [], []), old(addRm), old(bodyLumps))
      ensures !r.Aborted? ==> All() == Insert(old(All()), Lump(offset, false, 0, [], []))
    {
      if offset > len {
        return Aborted;
      }
      r := Link(Lump(offset, false, 0, [], []));
    }

    /** Only the list named by `r` changed, and it has `l` at that index. */
    ghost predicate Landed(r: Placed, l: Lump, addRm0: seq<Lump>, body0: seq<Lump>)
      reads this
    {
      match r
      case Aborted => addRm == addRm0 && bodyLumps == body0
      case InHeaders(k) =>
        && (eoh.Some? ==> l.offset <= eoh.value)
        && addRm == Insert(addRm0, l) && bodyLumps == body0 && k == Place(addRm0, l.offset)
      case InBody(k) =>
        && eoh.Some? && l.offset > eoh.value
        && addRm == addRm0 && bodyLumps == Insert(body0, l) && k == Place(body0, l.offset)
    }

    method Link(l: Lump) returns (r: Placed)
      requires Valid() && l.offset <= len
      modifies this
      ensures Valid() && !r.Aborted?
      ensures Landed(r, l, old(addRm), old(bodyLumps))
      ensures All() == Insert(old(All()), l)
    {
      hide Insert, Place, Sorted;
      var body := eoh.Some? && l.offset > eoh.value;
      var list := if body then bodyLumps else addRm;
      var t := FindPlace(list, l.offset);
      InsertIs(list, l, t);
      InsertSorted(list, l);
      InsertElements(list, l);
      if body {
        PlaceRight(addRm, bodyLumps, l);
        bodyLumps := list[..t] + [l] + list[t..];
        r := InBody(t);
      } else {
        PlaceLeft(addRm, bodyLumps, l);
        addRm := list[..t] + [l] + list[t..];
        r := InHeaders(t);
      }
    }
  }

  /** The size check lets a deletion past the end through only by wrapping. */
  lemma SizeCheck(offset: nat, n: nat, len: nat)
    requires offset <= len < UINT_RANGE && n < UINT_RANGE && (offset + n) % UINT_RANGE <= len
    ensures offset + n <= len <==> offset + n < UINT_RANGE
  {
  }

  lemma PlaceRight(a: seq<Lump>, b: seq<Lump>, l: Lump)
    requires forall x :: x in a ==> x.offset <= l.offset
    ensures Insert(a + b, l) == a + Insert(b, l)
  {
    hide Place;
    PlaceIs(a + b, l.offset, |a| + Place(b, l.offset));
  }

  lemma PlaceLeft(a: seq<Lump>, b: seq<Lump>, l: Lump)
    requires forall x :: x in b ==> l.offset < x.offset
    ensures Insert(a + b, l) == Insert(a, l) + b
  {
    hide Place;
    PlaceIs(a + b, l.offset, Place(a, l.offset));
  }

  lemma InsertIs(ls: seq<Lump>, l: Lump, k: nat)
    requires k == Place(ls, l.offset)
    ensures Insert(ls, l) == ls[..k] + [l] + ls[k..]
  {
  }

  lemma PlaceIs(ls: seq<Lump>, offset: nat, k: nat)
    requires k <= |ls|
    requires forall i :: 0 <= i < k ==> ls[i].offset <= offset
    requires k < |ls| ==> ls[k].offset > offset
    ensures Place(ls, offset) == k
  {
  }

  // ----- chains grow at the front -----

  /** insert_*_lump_before/after put the new piece first in its chain. */
  lemma {:induction false} PushPiece(p: Piece, ch: seq<Piece>, i: nat, c: Context)
    requires i <= |ch|
    ensures ChainText([p] + ch, i + 1, c) == ChainText(ch, i, c)
    ensures ChainLen([p] + ch, i + 1, c) == ChainLen(ch, i, c)
    decreases |ch| - i
  {
    hide SubstText, SubstLen, CheckOpt;
    if i < |ch| {
      PushPiece(p, ch, i + 1, c);
      PushPiece(p, ch, AfterSkip(ch, i), c);
    }
  }

  // ----- deletions that are disjoint or nested -----

  /** Two deletions never overlap partly. */
  ghost predicate Nested(ls: seq<Lump>) {
    forall i, j :: 0 <= i < j < |ls| && ls[i].del && ls[j].del ==>
      ls[i].End() <= ls[j].offset || ls[j].End() <= ls[i].End()
  }

  /** Then a lump counts exactly if no deletion at all strictly covers its anchor. */
  lemma NestedLive(ls: seq<Lump>, i: nat)
    requires Sorted(ls) && Nested(ls) && i < |ls|
    ensures Live(ls, i) <==> forall j :: 0 <= j < |ls| ==> !ls[j].Covers(ls[i].offset)
  {
    hide Live;
    if Live(ls, i) {
      forall j | 0 <= j < |ls| ensures !ls[j].Covers(ls[i].offset) {
        if ls[j].Covers(ls[i].offset) {
          InOrder(ls, i, j);
          var k := OuterLive(ls, j, ls[i].offset);
          LiveIsUncovered(ls, i, k);
        }
      }
    } else {
      var j := DeadIsCovered(ls, i);
    }
  }

  /** A covering deletion can be replaced by a live one. */
  lemma {:induction false} OuterLive(ls: seq<Lump>, j: nat, p: nat) returns (k: nat)
    requires Sorted(ls) && Nested(ls) && j < |ls| && ls[j].del && ls[j].offset <= p < ls[j].End()
    ensures k <= j && LiveDel(ls, k) && ls[k].offset <= p < ls[k].End()
    ensures ls[k].offset <= ls[j].offset
    decreases j
  {
    hide Live;
    if Live(ls, j) {
      k := j;
    } else {
      var m := DeadIsCovered(ls, j);
      k := OuterLive(ls, m, p);
    }
  }

  /** And the bytes removed are exactly the union of all deletions. */
  lemma NestedDeleted(ls: seq<Lump>, p: nat)
    requires Sorted(ls) && Nested(ls)
    ensures Deleted(ls, p) <==> exists j :: 0 <= j < |ls| && ls[j].del && ls[j].Deletes(p)
  {
    hide Live;
    if j :| 0 <= j < |ls| && ls[j].del && ls[j].Deletes(p) {
      var k := OuterLive(ls, j, p);
    }
  }

  /** With partly overlapping deletions the second one is ignored altogether:
      its bytes past the first one stay. */
  lemma OverlapIgnored(a: nat, b: nat, m: nat, n: nat)
    requires a < b < a + m < b + n
    ensures var ls := [Lump(a, true, m, [], []), Lump(b, true, n, [], [])];
            !Live(ls, 1) && (forall p :: a + m <= p ==> !Deleted(ls, p))
  {
    var ls := [Lump(a, true, m, [], []), Lump(b, true, n, [], [])];
    assert Live(ls, 0);
    assert ls[0].Covers(ls[1].offset);
  }

  // ----- what adding text at an anchor means -----

  /** Where index `i` ends up after an insertion at `k`. */
  function Up(k: nat, i: nat): nat {
    if i < k then i else i + 1
  }

  /** An anchor does not change which of the other lumps count. */
  lemma {:induction false} LiveShift(ls: seq<Lump>, k: nat, a: Lump, i: nat)
    requires k <= |ls| && i < |ls| && !a.del
    ensures Live(ls[..k] + [a] + ls[k..], Up(k, i)) == Live(ls, i)
    decreases i
  {
    hide Live;
    var ls' := ls[..k] + [a] + ls[k..];
    forall j | 0 <= j < i ensures Live(ls', Up(k, j)) == Live(ls, j) {
      LiveShift(ls, k, a, j);
    }
    if !Live(ls, i) {
      var j := DeadIsCovered(ls, i);
      if Live(ls', Up(k, i)) {
        LiveIsUncovered(ls', Up(k, i), Up(k, j));
      }
    } else if !Live(ls', Up(k, i)) {
      var j' := DeadIsCovered(ls', Up(k, i));
      var j := if j' < k then j' else j' - 1;
      assert j' != k && Up(k, j) == j';
      LiveIsUncovered(ls, i, j);
    }
  }

  lemma DeletedShift(ls: seq<Lump>, k: nat, a: Lump, p: nat)
    requires k <= |ls| && !a.del
    ensures Deleted(ls[..k] + [a] + ls[k..], p) == Deleted(ls, p)
  {
    hide Live;
    var ls' := ls[..k] + [a] + ls[k..];
    forall j | 0 <= j < |ls| ensures Live(ls', Up(k, j)) == Live(ls, j) && ls'[Up(k, j)] == ls[j] {
      LiveShift(ls, k, a, j);
    }
    if j :| 0 <= j < |ls| && LiveDel(ls, j) && ls[j].Deletes(p) {
      assert LiveDel(ls', Up(k, j));
    }
    if j' :| 0 <= j' < |ls'| && LiveDel(ls', j') && ls'[j'].Deletes(p) {
      var j := if j' < k then j' else j' - 1;
      assert j' != k && Up(k, j) == j' && LiveDel(ls, j);
    }
  }

  /** Texts of the lumps after the new one. */
  lemma {:induction false} TextShiftAbove(ls: seq<Lump>, k: nat, a: Lump, c: Context, j: nat, p: nat)
    requires k <= j <= |ls| && !a.del
    ensures TextAt(ls[..k] + [a] + ls[k..], c, j + 1, p) == TextAt(ls, c, j, p)
    decreases |ls| - j
  {
    hide Live, LumpText;
    if j < |ls| {
      LiveShift(ls, k, a, j);
      TextShiftAbove(ls, k, a, c, j + 1, p);
    }
  }

  ghost function NewText(ls: seq<Lump>, a: Lump, c: Context, p: nat): string {
    var k := Place(ls, a.offset);
    var ls' := Insert(ls, a);
    if p == a.offset && Live(ls', k) then LumpText(a, c) else ""
  }

  /** Texts at `p`: the old ones, then the new one. */
  lemma {:induction false} TextShift(ls: seq<Lump>, a: Lump, c: Context, j: nat, p: nat)
    requires Sorted(ls) && !a.del && j <= Place(ls, a.offset)
    ensures TextAt(Insert(ls, a), c, j, p) == TextAt(ls, c, j, p) + NewText(ls, a, c, p)
    decreases Place(ls, a.offset) - j
  {
    hide Live, LumpText, Place;
    var k := Place(ls, a.offset);
    var ls' := Insert(ls, a);
    if j == k {
      TextShiftAbove(ls, k, a, c, k, p);
      if p == a.offset {
        NoTextBelow(ls, c, k, p);
      }
    } else {
      LiveShift(ls, k, a, j);
      TextShift(ls, a, c, j + 1, p);
      assert ls'[j] == ls[j];
    }
  }

  /** What stands at position `q` itself. */
  ghost function ByteAt(buf: string, ls: seq<Lump>, q: nat): string
    requires q < |buf|
  {
    if Deleted(ls, q) then "" else [buf[q]]
  }

  lemma {:induction false} RestSplit(buf: string, ls: seq<Lump>, c: Context, i: nat, p: nat, q: nat, e: nat)
    requires i <= |ls| && p <= q < e <= |buf|
    ensures Rest(buf, ls, c, i, p, e) ==
            Rest(buf, ls, c, i, p, q) + (ByteAt(buf, ls, q) + Rest(buf, ls, c, i, q + 1, e))
    decreases q - p
  {
    hide TextAt, Deleted;
    Unfold(buf, ls, c, i, p, e);
    if p == q {
      RestEnd(buf, ls, c, i, q);
      Regroup3(TextAt(ls, c, i, q), ByteAt(buf, ls, q), Rest(buf, ls, c, i, q + 1, e));
    } else {
      Unfold(buf, ls, c, i, p, q);
      RestSplit(buf, ls, c, i, p + 1, q, e);
      Regroup4(TextAt(ls, c, i, p), ByteAt(buf, ls, p),
               Rest(buf, ls, c, i, p + 1, q), ByteAt(buf, ls, q) + Rest(buf, ls, c, i, q + 1, e));
    }
  }

  lemma Regroup3(x: string, b: string, r: string)
    ensures (x + b) + r == x + (b + r)
  {
  }

  /** Away from its anchor the new lump changes nothing. */
  lemma {:induction false} RestShift(buf: string, ls: seq<Lump>, a: Lump, c: Context, p: nat, e: nat)
    requires Sorted(ls) && !a.del && p <= e <= |buf| && (a.offset < p || e < a.offset)
    ensures Rest(buf, Insert(ls, a), c, 0, p, e) == Rest(buf, ls, c, 0, p, e)
    decreases e - p
  {
    hide TextAt, Deleted, Live, Insert, Place;
    TextShift(ls, a, c, 0, p) by { assert 0 <= Place(ls, a.offset); }
    AwayFromAnchor(ls, a, c, p);
    if p < e {
      RestShift(buf, ls, a, c, p + 1, e);
      DeletedInsert(ls, a, p);
    }
  }

  /** Up to its anchor the new lump adds its text at the end. */
  lemma {:induction false} RestUpTo(buf: string, ls: seq<Lump>, a: Lump, c: Context, p: nat)
    requires Sorted(ls) && !a.del && p <= a.offset <= |buf|
    ensures Rest(buf, Insert(ls, a), c, 0, p, a.offset)
         == Rest(buf, ls, c, 0, p, a.offset) + NewText(ls, a, c, a.offset)
    decreases a.offset - p
  {
    hide TextAt, Deleted, Live, Insert, Place, NewText;
    var q, ls' := a.offset, Insert(ls, a);
    TextShift(ls, a, c, 0, p) by { assert 0 <= Place(ls, a.offset); }
    if p == q {
      RestEnd(buf, ls, c, 0, q);
      RestEnd(buf, ls', c, 0, q);
    } else {
      AwayFromAnchor(ls, a, c, p);
      RestUpTo(buf, ls, a, c, p + 1);
      DeletedInsert(ls, a, p);
      Unfold(buf, ls, c, 0, p, q);
      Unfold(buf, ls', c, 0, p, q);
      Regroup4(TextAt(ls, c, 0, p), ByteAt(buf, ls, p), Rest(buf, ls, c, 0, p + 1, q), NewText(ls, a, c, q));
    }
  }

  lemma AwayFromAnchor(ls: seq<Lump>, a: Lump, c: Context, p: nat)
    requires p != a.offset
    ensures NewText(ls, a, c, p) == ""
  {
  }

  lemma DeletedInsert(ls: seq<Lump>, a: Lump, p: nat)
    requires !a.del
    ensures Deleted(Insert(ls, a), p) == Deleted(ls, p)
  {
    hide Live, Deleted;
    DeletedShift(ls, Place(ls, a.offset), a, p);
  }

  /** Whether a new lump at `p` would count. */
  ghost predicate Open(ls: seq<Lump>, p: nat) {
    forall j :: 0 <= j < |ls| && LiveDel(ls, j) ==> !ls[j].Covers(p)
  }

  /** A new lump is live exactly if no live deletion covers its anchor. */
  lemma NewLive(ls: seq<Lump>, l: Lump)
    requires Sorted(ls)
    ensures Live(Insert(ls, l), Place(ls, l.offset)) <==> Open(ls, l.offset)
  {
    hide Live, Place;
    var k := Place(ls, l.offset);
    var ls' := Insert(ls, l);
    assert ls'[..k] == ls[..k];
    forall j | 0 <= j < k ensures Live(ls', j) == Live(ls, j) && ls'[j] == ls[j] {
      PrefixLive(ls, k, j);
      PrefixLive(ls', k, j);
    }
    if !Live(ls', k) {
      var j := DeadIsCovered(ls', k);
      assert LiveDel(ls, j) && ls[j].Covers(l.offset);
    } else if !Open(ls, l.offset) {
      var j :| 0 <= j < |ls| && LiveDel(ls, j) && ls[j].Covers(l.offset);
      LiveIsUncovered(ls', k, j);
    }
  }

  /** Adding an anchor with its texts at `q`: the message is unchanged except that
      the texts appear at `q`, after those already there and before the source
      byte; inside a deleted range they do not appear at all. */
  lemma AnchorMeaning(buf: string, ls: seq<Lump>, a: Lump, c: Context, s: nat, e: nat)
    requires Sorted(ls) && !a.del && s <= a.offset <= e <= |buf|
    ensures var q := a.offset;
            Render(buf, Insert(ls, a), c, s, e) ==
            Render(buf, ls, c, s, q) + (if Open(ls, q) then LumpText(a, c) else "")
            + (if q == e then "" else ByteAt(buf, ls, q) + Render(buf, ls, c, q + 1, e))
  {
    hide TextAt, Deleted, Live, Insert, Rest, Open, LumpText, Place, ByteAt;
    var q, ls' := a.offset, Insert(ls, a);
    NewIs(ls, a, c);
    RestUpTo(buf, ls, a, c, s);
    if q < e {
      RestSplit(buf, ls', c, 0, s, q, e);
      RestShift(buf, ls, a, c, q + 1, e);
      SameByte(buf, ls, a, q);
    }
  }

  lemma NewIs(ls: seq<Lump>, a: Lump, c: Context)
    requires Sorted(ls) && !a.del
    ensures NewText(ls, a, c, a.offset) == if Open(ls, a.offset) then LumpText(a, c) else ""
  {
    hide Live, Insert, Open, Place;
    NewLive(ls, a);
  }

  lemma SameByte(buf: string, ls: seq<Lump>, a: Lump, q: nat)
    requires !a.del && q < |buf|
    ensures ByteAt(buf, Insert(ls, a), q) == ByteAt(buf, ls, q)
  {
    hide Deleted, Insert;
    DeletedInsert(ls, a, q);
  }

  /** A bare anchor changes nothing. */
  lemma BareAnchor(buf: string, ls: seq<Lump>, q: nat, c: Context, s: nat, e: nat)
    requires Sorted(ls) && s <= q <= e <= |buf|
    ensures Render(buf, Insert(ls, Lump(q, false, 0, [], [])), c, s, e) == Render(buf, ls, c, s, e)
  {
    hide TextAt, Deleted, Live, Insert, Rest, Open, Place, ByteAt;
    AnchorMeaning(buf, ls, Lump(q, false, 0, [], []), c, s, e);
    if q < e {
      RestSplit(buf, ls, c, 0, s, q, e);
    }
  }
}
