/**
  The edit list ("lumps") over a received message and what it means.

  `Render` is the reference: it walks the source positions one by one and knows
  nothing about the cursors the two passes of msg_translator.c keep.  The lemmas
  below relate those cursors to it.
*/
module Lumps {
  import opened Arithmetic
  import opened SubstContext

  /** An element of a before/after chain. `Stray` is any operation that is not
      allowed there; the passes report it and write nothing. */
  datatype Piece = Add(text: string) | AddSubst(subst: Subst) | AddOpt(cond: Cond) | Skip | Stray

  /** A main-chain lump: a deletion of `len` bytes or, with `del` false, an anchor. */
  datatype Lump = Lump(offset: nat, del: bool, len: nat, before: seq<Piece>, after: seq<Piece>) {
    function End(): nat {
      offset + if del then len else 0
    }

    /** `p` lies strictly inside the deleted range. */
    predicate Covers(p: nat) {
      offset < p < End()
    }

    predicate Deletes(p: nat) {
      offset <= p < End()
    }
  }

  // ----- chains -----

  /** A skip lump jumps to the last element of its chain. */
  function AfterSkip(ch: seq<Piece>, i: nat): (j: nat)
    requires i < |ch|
    ensures i < j <= |ch|
  {
    if i + 2 < |ch| then |ch| - 1 else i + 1
  }

  /** What a chain expands to from element `i` on. */
  function ChainText(ch: seq<Piece>, i: nat, c: Context): string
    requires i <= |ch|
    decreases |ch| - i
  {
    if i == |ch| then "" else
    match ch[i]
    case Add(t) => t + ChainText(ch, i + 1, c)
    case AddSubst(k) => SubstText(k, c) + ChainText(ch, i + 1, c)
    case AddOpt(cond) => if CheckOpt(cond, c) then ChainText(ch, i + 1, c) else ""
    case Skip => ChainText(ch, AfterSkip(ch, i), c)
    case Stray => ChainText(ch, i + 1, c)
  }

  /** The same expansion, counted with the length pass's idea of substitutions. */
  function ChainLen(ch: seq<Piece>, i: nat, c: Context): nat
    requires i <= |ch|
    decreases |ch| - i
  {
    if i == |ch| then 0 else
    match ch[i]
    case Add(t) => |t| + ChainLen(ch, i + 1, c)
    case AddSubst(k) => SubstLen(k, c) + ChainLen(ch, i + 1, c)
    case AddOpt(cond) => if CheckOpt(cond, c) then ChainLen(ch, i + 1, c) else 0
    case Skip => ChainLen(ch, AfterSkip(ch, i), c)
    case Stray => ChainLen(ch, i + 1, c)
  }

  lemma {:induction false} ChainLenMatches(ch: seq<Piece>, i: nat, c: Context)
    requires i <= |ch| && Consistent(c)
    ensures ChainLen(ch, i, c) == |ChainText(ch, i, c)|
    decreases |ch| - i
  {
    hide SubstLen, SubstText, CheckOpt, Consistent;
    if i < |ch| {
      ChainLenMatches(ch, i + 1, c);
      ChainLenMatches(ch, AfterSkip(ch, i), c);
      if ch[i].AddSubst? { SubstAgrees(ch[i].subst, c); }
    }
  }

  function LumpText(l: Lump, c: Context): string {
    ChainText(l.before, 0, c) + ChainText(l.after, 0, c)
  }

  /** How much the length pass over-counts a lump's texts. */
  function LumpSkew(l: Lump, c: Context): int {
    ChainLen(l.before, 0, c) + ChainLen(l.after, 0, c) - |LumpText(l, c)|
  }

  // ----- the reference meaning -----

  ghost predicate Sorted(ls: seq<Lump>) {
    forall i, j :: 0 <= i < j < |ls| ==> ls[i].offset <= ls[j].offset
  }

  /** A lump counts unless it is anchored strictly inside the range of an
      earlier deletion that counts. */
  ghost predicate Live(ls: seq<Lump>, i: nat)
    requires i < |ls|
  {
    forall j :: 0 <= j < i && Live(ls, j) ==> !ls[j].Covers(ls[i].offset)
  }

  ghost predicate LiveDel(ls: seq<Lump>, i: nat) {
    i < |ls| && ls[i].del && Live(ls, i)
  }

  ghost predicate Deleted(ls: seq<Lump>, p: nat) {
    exists j :: 0 <= j < |ls| && LiveDel(ls, j) && ls[j].Deletes(p)
  }

  /** Texts of the live lumps from index `i` on that are anchored at `p`, in list order. */
  ghost function TextAt(ls: seq<Lump>, c: Context, i: nat, p: nat): string
    requires i <= |ls|
    decreases |ls| - i
  {
    if i == |ls| then "" else
    (if Live(ls, i) && ls[i].offset == p then LumpText(ls[i], c) else "") + TextAt(ls, c, i + 1, p)
  }

  /** The rewritten bytes of positions `p..e` and the texts at `e`, with the texts of lumps `i..` only. */
  ghost function Rest(buf: string, ls: seq<Lump>, c: Context, i: nat, p: nat, e: nat): string
    requires i <= |ls| && p <= e <= |buf|
    decreases e - p
  {
    if p == e then TextAt(ls, c, i, e) else
    TextAt(ls, c, i, p) + (if Deleted(ls, p) then "" else [buf[p]]) + Rest(buf, ls, c, i, p + 1, e)
  }

  /** The meaning of an edit list over `buf[s..e]`; texts anchored at the end belong to it. */
  ghost function Render(buf: string, ls: seq<Lump>, c: Context, s: nat, e: nat): string
    requires s <= e <= |buf|
  {
    Rest(buf, ls, c, 0, s, e)
  }

  /** The over-count of all live lumps from `i` on. */
  ghost function Skew(ls: seq<Lump>, c: Context, i: nat): int
    requires i <= |ls|
    decreases |ls| - i
  {
    if i == |ls| then 0 else
    (if Live(ls, i) then LumpSkew(ls[i], c) else 0) + Skew(ls, c, i + 1)
  }

  lemma {:induction false} NoSkew(ls: seq<Lump>, c: Context, i: nat)
    requires i <= |ls| && Consistent(c)
    ensures Skew(ls, c, i) == 0
    decreases |ls| - i
  {
    if i < |ls| {
      ChainLenMatches(ls[i].before, 0, c);
      ChainLenMatches(ls[i].after, 0, c);
      NoSkew(ls, c, i + 1);
    }
  }

  /** Sorted, anchored in `s..e`, deletions ending by `e`. */
  ghost predicate WellFormed(ls: seq<Lump>, s: nat, e: nat) {
    && Sorted(ls)
    && forall i :: 0 <= i < |ls| ==> s <= ls[i].offset <= e && ls[i].End() <= e
  }

  /** The lumps a pass considers: those before the first one at or past `max`. */
  function Active(ls: seq<Lump>, max: nat): (r: seq<Lump>)
    ensures r <= ls
    ensures forall i :: 0 <= i < |r| ==> r[i].offset < max
    ensures |r| < |ls| ==> ls[|r|].offset >= max
  {
    if ls == [] || ls[0].offset >= max then [] else
    var r := Active(ls[1..], max);
    assert ls == [ls[0]] + ls[1..];
    [ls[0]] + r
  }

  // ----- cursors of a pass -----

  /** What the cursors of a pass say after `i` lumps: `low` is the furthest
      offset met, `s` the source cursor and `last` the last deletion's offset. */
  ghost predicate Cursors(ls: seq<Lump>, i: nat, low: nat, s: nat, last: nat) {
    && i <= |ls|
    && (forall j :: i <= j < |ls| ==> low <= ls[j].offset)
    && (forall j :: 0 <= j < i ==> ls[j].offset <= low)
    && (forall j :: 0 <= j < i && LiveDel(ls, j) ==> ls[j].End() <= s && ls[j].offset <= last)
    && (s <= low || exists j :: 0 <= j < i && LiveDel(ls, j) && ls[j].End() == s)
    && (last == 0 || exists j :: 0 <= j < i && LiveDel(ls, j) && ls[j].offset == last)
  }

  /** The test both passes use to skip a lump is exactly "not live". */
  lemma SkipTest(ls: seq<Lump>, i: nat, low: nat, s: nat, last: nat)
    requires Sorted(ls) && i < |ls| && Cursors(ls, i, low, s, last)
    ensures Live(ls, i) <==> !(ls[i].offset < s && ls[i].offset != last)
  {
    hide Live;
    if !Live(ls, i) {
      DeadIsSkipped(ls, i, low, s, last);
    } else if ls[i].offset < s {
      var j :| 0 <= j < i && LiveDel(ls, j) && ls[j].End() == s;
      LiveIsUncovered(ls, i, j);
    }
  }

  lemma LiveIsUncovered(ls: seq<Lump>, i: nat, j: nat)
    requires j < i < |ls| && Live(ls, i) && Live(ls, j)
    ensures !ls[j].Covers(ls[i].offset)
  {
  }

  lemma DeadIsCovered(ls: seq<Lump>, i: nat) returns (j: nat)
    requires i < |ls| && !Live(ls, i)
    ensures j < i && LiveDel(ls, j) && ls[j].Covers(ls[i].offset)
  {
    j :| 0 <= j < i && Live(ls, j) && ls[j].Covers(ls[i].offset);
  }

  lemma DeadIsSkipped(ls: seq<Lump>, i: nat, low: nat, s: nat, last: nat)
    requires Sorted(ls) && i < |ls| && Cursors(ls, i, low, s, last) && !Live(ls, i)
    ensures ls[i].offset < s && ls[i].offset != last
  {
    hide Live, Cursors, Sorted;
    var j := DeadIsCovered(ls, i);
    CursorPast(ls, i, low, s, last, j);
    if ls[i].offset == last {
      var k := LastDeletion(ls, i, low, s, last);
      InOrder(ls, k, j);
      LiveIsUncovered(ls, k, j);
      assert false;
    }
  }

  lemma InOrder(ls: seq<Lump>, k: nat, j: nat)
    requires Sorted(ls) && k < |ls| && j < |ls| && ls[j].offset < ls[k].offset
    ensures j < k
  {
  }

  lemma CursorPast(ls: seq<Lump>, i: nat, low: nat, s: nat, last: nat, j: nat)
    requires Cursors(ls, i, low, s, last) && j < i && LiveDel(ls, j)
    ensures ls[j].End() <= s && ls[j].offset <= last
  {
    hide Live;
  }

  lemma LastDeletion(ls: seq<Lump>, i: nat, low: nat, s: nat, last: nat) returns (k: nat)
    requires Cursors(ls, i, low, s, last) && last != 0
    ensures k < i && LiveDel(ls, k) && ls[k].offset == last
  {
    hide Live;
    k :| 0 <= k < i && LiveDel(ls, k) && ls[k].offset == last;
  }

  /** The source bytes a pass still has to copy before it is at `q`. */
  function Copied(buf: string, s: nat, q: nat): string
    requires q <= |buf|
  {
    if s < q then buf[s..q] else ""
  }

  /** Nothing is anchored at `p`, and it is deleted exactly if `s` is past it. */
  ghost predicate Quiet(ls: seq<Lump>, c: Context, i: nat, s: nat, p: nat)
    requires i <= |ls|
  {
    TextAt(ls, c, i, p) == "" && (Deleted(ls, p) <==> p < s)
  }

  /** A quiet stretch contributes the bytes from the source cursor on. */
  lemma {:induction false} Gap(buf: string, ls: seq<Lump>, c: Context, i: nat, s: nat, p: nat, q: nat, e: nat)
    requires i <= |ls| && p <= q <= e <= |buf|
    requires forall x :: p <= x < q ==> Quiet(ls, c, i, s, x)
    ensures Rest(buf, ls, c, i, p, e) == Copied(buf, Max(s, p), q) + Rest(buf, ls, c, i, q, e)
    decreases q - p
  {
    hide Quiet, Deleted, Live, TextAt, Rest;
    if p == q {
      assert Copied(buf, Max(s, p), q) == "";
    } else {
      Gap(buf, ls, c, i, s, p + 1, q, e);
      CopiedStep(buf, s, p, q);
      QuietStep(buf, ls, c, i, s, p, e);
      var x := if p < s then "" else [buf[p]];
      Regroup(Rest(buf, ls, c, i, p, e), x, Rest(buf, ls, c, i, p + 1, e),
              Copied(buf, Max(s, p + 1), q), Rest(buf, ls, c, i, q, e));
    }
  }

  lemma QuietStep(buf: string, ls: seq<Lump>, c: Context, i: nat, s: nat, p: nat, e: nat)
    requires i <= |ls| && p < e <= |buf| && Quiet(ls, c, i, s, p)
    ensures Rest(buf, ls, c, i, p, e) == (if p < s then "" else [buf[p]]) + Rest(buf, ls, c, i, p + 1, e)
  {
  }

  lemma Regroup(r: string, x: string, r1: string, y: string, r2: string)
    requires r == x + r1 && r1 == y + r2
    ensures r == (x + y) + r2
  {
  }

  /** The stretch from the cursor to the next offset is quiet. */
  lemma QuietGap(ls: seq<Lump>, c: Context, i: nat, low: nat, s: nat, last: nat, q: nat)
    requires Cursors(ls, i, low, s, last)
    requires forall j :: i <= j < |ls| ==> q <= ls[j].offset
    ensures forall x :: low <= x < q ==> Quiet(ls, c, i, s, x)
  {
    forall x | low <= x < q ensures Quiet(ls, c, i, s, x) {
      NoTextBelow(ls, c, i, x);
      DeletedBelow(ls, i, low, s, last, x);
    }
  }

  lemma CopiedStep(buf: string, s: nat, p: nat, q: nat)
    requires p < q <= |buf|
    ensures Copied(buf, Max(s, p), q) == (if p < s then "" else [buf[p]]) + Copied(buf, Max(s, p + 1), q)
  {
  }

  lemma {:induction false} NoTextBelow(ls: seq<Lump>, c: Context, i: nat, p: nat)
    requires i <= |ls|
    requires forall j :: i <= j < |ls| ==> p < ls[j].offset
    ensures TextAt(ls, c, i, p) == ""
    decreases |ls| - i
  {
    if i < |ls| {
      NoTextBelow(ls, c, i + 1, p);
    }
  }

  lemma DeletedBelow(ls: seq<Lump>, i: nat, low: nat, s: nat, last: nat, p: nat)
    requires Cursors(ls, i, low, s, last) && low <= p
    requires forall j :: i <= j < |ls| ==> p < ls[j].offset
    ensures Deleted(ls, p) <==> p < s
  {
    if p < s {
      var j :| 0 <= j < i && LiveDel(ls, j) && ls[j].End() == s;
      assert ls[j].Deletes(p);
    }
  }

  /** Taking lump `i`, with the walk already at its offset, peels off its text. */
  lemma {:induction false} TakeLump(buf: string, ls: seq<Lump>, c: Context, i: nat, e: nat)
    requires Sorted(ls) && i < |ls| && ls[i].offset <= e <= |buf|
    ensures Rest(buf, ls, c, i, ls[i].offset, e) ==
            (if Live(ls, i) then LumpText(ls[i], c) else "") + Rest(buf, ls, c, i + 1, ls[i].offset, e)
  {
    hide Live, Deleted, LumpText, Rest, Sorted, TextAt;
    var p := ls[i].offset;
    TextSplits(ls, c, i);
    if p == e {
      RestEnd(buf, ls, c, i, e);
      RestEnd(buf, ls, c, i + 1, e);
    } else {
      RestForgets(buf, ls, c, i, p + 1, e);
      Unfold(buf, ls, c, i, p, e);
      Unfold(buf, ls, c, i + 1, p, e);
      var x := if Live(ls, i) then LumpText(ls[i], c) else "";
      var b := if Deleted(ls, p) then "" else [buf[p]];
      Regroup4(x, TextAt(ls, c, i + 1, p), b, Rest(buf, ls, c, i + 1, p + 1, e));
    }
  }

  lemma RestEnd(buf: string, ls: seq<Lump>, c: Context, i: nat, e: nat)
    requires i <= |ls| && e <= |buf|
    ensures Rest(buf, ls, c, i, e, e) == TextAt(ls, c, i, e)
  {
  }

  lemma Unfold(buf: string, ls: seq<Lump>, c: Context, i: nat, p: nat, e: nat)
    requires i <= |ls| && p < e <= |buf|
    ensures Rest(buf, ls, c, i, p, e) ==
            TextAt(ls, c, i, p) + (if Deleted(ls, p) then "" else [buf[p]]) + Rest(buf, ls, c, i, p + 1, e)
  {
  }

  lemma TextSplits(ls: seq<Lump>, c: Context, i: nat)
    requires i < |ls|
    ensures TextAt(ls, c, i, ls[i].offset) ==
            (if Live(ls, i) then LumpText(ls[i], c) else "") + TextAt(ls, c, i + 1, ls[i].offset)
  {
    hide Live, LumpText;
  }

  lemma Regroup4(x: string, t: string, b: string, r: string)
    ensures (x + t) + b + r == x + (t + b + r)
  {
  }

  lemma {:induction false} RestForgets(buf: string, ls: seq<Lump>, c: Context, i: nat, p: nat, e: nat)
    requires i < |ls| && ls[i].offset < p <= e <= |buf|
    ensures Rest(buf, ls, c, i, p, e) == Rest(buf, ls, c, i + 1, p, e)
    decreases e - p
  {
    hide Live, Deleted, LumpText;
    assert TextAt(ls, c, i, p) == TextAt(ls, c, i + 1, p);
    if p < e {
      RestForgets(buf, ls, c, i, p + 1, e);
    }
  }

  /** Cursors after lump `i`: `s'` and `last'` are what a pass assigns. */
  lemma Advance(ls: seq<Lump>, i: nat, low: nat, s: nat, last: nat, s': nat, last': nat)
    requires Sorted(ls) && i < |ls| && Cursors(ls, i, low, s, last)
    requires !LiveDel(ls, i) ==> s <= s' <= Max(s, ls[i].offset) && (s' == s || s' == ls[i].offset) && last' == last
    requires LiveDel(ls, i) ==> s' == Max(s, ls[i].End()) && last' == ls[i].offset
    ensures Cursors(ls, i + 1, ls[i].offset, s', last')
  {
    if LiveDel(ls, i) {
      if ls[i].End() < s' {
        assert s' == s > ls[i].offset;
      }
    }
    if s' > ls[i].offset && s' == s {
      var j :| 0 <= j < i && LiveDel(ls, j) && ls[j].End() == s;
    }
    if last' == last != 0 {
      var j :| 0 <= j < i && LiveDel(ls, j) && ls[j].offset == last;
    }
  }
}
