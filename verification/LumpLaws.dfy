/**
  Laws of `Lumps.Render`: a sorted edit list can be cut at a position, and each
  live lump shows its text at its anchor.
*/
module LumpLaws {
  import opened SubstContext
  import opened Lumps

  // ----- a prefix of the list -----

  lemma {:induction false} PrefixLive(ls: seq<Lump>, k: nat, i: nat)
    requires i < k <= |ls|
    ensures Live(ls[..k], i) <==> Live(ls, i)
    decreases i
  {
    var a := ls[..k];
    forall j | 0 <= j < i ensures Live(a, j) <==> Live(ls, j) {
      PrefixLive(ls, k, j);
    }
    forall j | 0 <= j <= i ensures a[j] == ls[j] {
    }
  }

  /** Positions before the other lumps are deleted by the prefix or not at all. */
  lemma PrefixDeleted(ls: seq<Lump>, k: nat, p: nat)
    requires k <= |ls| && forall j :: k <= j < |ls| ==> p < ls[j].offset
    ensures Deleted(ls[..k], p) <==> Deleted(ls, p)
  {
    hide Live;
    forall j | 0 <= j < k ensures LiveDel(ls[..k], j) <==> LiveDel(ls, j) {
      PrefixLive(ls, k, j);
    }
    if Deleted(ls, p) {
      var j :| 0 <= j < |ls| && LiveDel(ls, j) && ls[j].Deletes(p);
      assert LiveDel(ls[..k], j);
    }
  }

  lemma {:induction false} PrefixText(ls: seq<Lump>, c: Context, k: nat, i: nat, p: nat)
    requires i <= k <= |ls|
    ensures TextAt(ls, c, i, p) == TextAt(ls[..k], c, i, p) + TextAt(ls, c, k, p)
    decreases k - i
  {
    hide Live, LumpText;
    if i < k {
      PrefixText(ls, c, k, i + 1, p);
      PrefixLive(ls, k, i);
    }
  }

  /** Past their anchors the first `k` lumps show no text. */
  lemma {:induction false} PrefixForgotten(buf: string, ls: seq<Lump>, c: Context, k: nat, i: nat, p: nat, e: nat)
    requires i <= k <= |ls| && p <= e <= |buf| && forall j :: 0 <= j < k ==> ls[j].offset < p
    ensures Rest(buf, ls, c, i, p, e) == Rest(buf, ls, c, k, p, e)
    decreases k - i
  {
    hide Rest;
    if i < k {
      RestForgets(buf, ls, c, i, p, e);
      PrefixForgotten(buf, ls, c, k, i + 1, p, e);
    }
  }

  /** Up to `q` only the lumps before `k` show; from there on, with their
      deletions still in force, the others. */
  lemma {:induction false} Cut(buf: string, ls: seq<Lump>, c: Context, k: nat, p: nat, q: nat, e: nat)
    requires k <= |ls| && p <= q <= e <= |buf|
    requires forall j :: 0 <= j < k ==> ls[j].offset <= q
    requires forall j :: k <= j < |ls| ==> q <= ls[j].offset
    ensures Rest(buf, ls, c, 0, p, e) == Rest(buf, ls[..k], c, 0, p, q) + Rest(buf, ls, c, k, q, e)
    decreases q - p
  {
    hide Live, Deleted, TextAt, Rest;
    var a := ls[..k];
    PrefixText(ls, c, k, 0, p);
    if p == q {
      RestEnd(buf, a, c, 0, q);
      if q == e {
        RestEnd(buf, ls, c, 0, q);
        RestEnd(buf, ls, c, k, q);
      } else {
        PrefixForgotten(buf, ls, c, k, 0, q + 1, e);
        Unfold(buf, ls, c, 0, q, e);
        Unfold(buf, ls, c, k, q, e);
        Regroup4(TextAt(a, c, 0, q), TextAt(ls, c, k, q), if Deleted(ls, q) then "" else [buf[q]],
                 Rest(buf, ls, c, k, q + 1, e));
      }
    } else {
      Cut(buf, ls, c, k, p + 1, q, e);
      NoTextBelow(ls, c, k, p);
      PrefixDeleted(ls, k, p);
      Unfold(buf, ls, c, 0, p, e);
      Unfold(buf, a, c, 0, p, q);
      Regroup4(TextAt(a, c, 0, p), if Deleted(a, p) then "" else [buf[p]],
               Rest(buf, a, c, 0, p + 1, q), Rest(buf, ls, c, k, q, e));
    }
  }

  /** What lump `k` shows and where: after everything up to its anchor from the
      lumps before it, and exactly if it is live. */
  lemma LumpShown(buf: string, ls: seq<Lump>, c: Context, k: nat, s: nat, e: nat)
    requires Sorted(ls) && k < |ls| && s <= ls[k].offset <= e <= |buf|
    ensures Render(buf, ls, c, s, e) ==
            Render(buf, ls[..k], c, s, ls[k].offset)
            + ((if Live(ls, k) then LumpText(ls[k], c) else "")
               + Rest(buf, ls, c, k + 1, ls[k].offset, e))
  {
    hide Live, LumpText, Rest;
    Cut(buf, ls, c, k, s, ls[k].offset, e);
    TakeLump(buf, ls, c, k, e);
  }

  // ----- the other lumps on their own -----

  /** No deletion before lump `k` reaches past `u`. */
  ghost predicate EndsBy(ls: seq<Lump>, k: nat, u: nat) {
    && k <= |ls|
    && (forall j :: 0 <= j < k ==> ls[j].End() <= u)
    && (forall j :: k <= j < |ls| ==> u <= ls[j].offset)
  }

  lemma {:induction false} SuffixLive(ls: seq<Lump>, k: nat, u: nat, i: nat)
    requires EndsBy(ls, k, u) && k + i < |ls|
    ensures Live(ls[k..], i) <==> Live(ls, k + i)
    decreases i
  {
    var b := ls[k..];
    forall j | 0 <= j < i ensures Live(b, j) <==> Live(ls, k + j) {
      SuffixLive(ls, k, u, j);
    }
    forall j | 0 <= j <= i ensures b[j] == ls[k + j] {
    }
    if Live(b, i) {
      forall j | 0 <= j < k + i && Live(ls, j) ensures !ls[j].Covers(ls[k + i].offset) {
        if k <= j {
          assert Live(b, j - k);
        }
      }
    }
  }

  lemma SuffixDeleted(ls: seq<Lump>, k: nat, u: nat, p: nat)
    requires EndsBy(ls, k, u) && u <= p
    ensures Deleted(ls[k..], p) <==> Deleted(ls, p)
  {
    hide Live;
    var b := ls[k..];
    if Deleted(b, p) {
      var j :| 0 <= j < |b| && LiveDel(b, j) && b[j].Deletes(p);
      SuffixLive(ls, k, u, j);
      assert LiveDel(ls, k + j);
    }
    if Deleted(ls, p) {
      var j :| 0 <= j < |ls| && LiveDel(ls, j) && ls[j].Deletes(p);
      SuffixLive(ls, k, u, j - k);
      assert LiveDel(b, j - k);
    }
  }

  lemma {:induction false} SuffixText(ls: seq<Lump>, c: Context, k: nat, u: nat, i: nat, p: nat)
    requires EndsBy(ls, k, u) && k + i <= |ls|
    ensures TextAt(ls[k..], c, i, p) == TextAt(ls, c, k + i, p)
    decreases |ls| - i
  {
    hide Live, LumpText;
    if k + i < |ls| {
      SuffixText(ls, c, k, u, i + 1, p);
      SuffixLive(ls, k, u, i);
    }
  }

  lemma {:induction false} SuffixRest(buf: string, ls: seq<Lump>, c: Context, k: nat, u: nat, p: nat, e: nat)
    requires EndsBy(ls, k, u) && u <= p <= e <= |buf|
    ensures Render(buf, ls[k..], c, p, e) == Rest(buf, ls, c, k, p, e)
    decreases e - p
  {
    hide Live, Deleted, TextAt;
    SuffixText(ls, c, k, u, 0, p);
    if p < e {
      SuffixRest(buf, ls, c, k, u, p + 1, e);
      SuffixDeleted(ls, k, u, p);
    }
  }

  /** Cutting where no deletion crosses: the two parts mean what they mean alone. */
  lemma CutClean(buf: string, ls: seq<Lump>, c: Context, s: nat, u: nat, e: nat)
    requires s <= u <= e <= |buf| && WellFormed(ls, s, e) && Uncrossed(ls, u)
    ensures WellFormed(Active(ls, u), s, u)
    ensures Render(buf, ls, c, s, e)
         == Render(buf, Active(ls, u), c, s, u) + Render(buf, ls[|Active(ls, u)|..], c, u, e)
  {
    hide Rest, Active;
    var k := |Active(ls, u)|;
    assert Active(ls, u) == ls[..k];
    Cut(buf, ls, c, k, s, u, e);
    SuffixRest(buf, ls, c, k, u, u, e);
  }

  /** No deletion that starts before `u` reaches past it. */
  ghost predicate Uncrossed(ls: seq<Lump>, u: nat) {
    forall i :: 0 <= i < |ls| && ls[i].offset < u ==> ls[i].End() <= u
  }

  // ----- nothing after the last edit -----

  lemma {:induction false} BeyondEdits(buf: string, ls: seq<Lump>, c: Context, p: nat, e: nat)
    requires p <= e <= |buf| && forall i :: 0 <= i < |ls| ==> ls[i].End() <= p
    ensures Rest(buf, ls, c, |ls|, p, e) == buf[p..e]
    decreases e - p
  {
    hide Live;
    if p < e {
      BeyondEdits(buf, ls, c, p + 1, e);
      assert !Deleted(ls, p);
    }
  }

  /** Source bytes past the range of the edits are taken over as they are. */
  lemma RenderTo(buf: string, ls: seq<Lump>, c: Context, s: nat, m: nat, e: nat)
    requires s <= m <= e <= |buf| && WellFormed(ls, s, m)
    ensures Render(buf, ls, c, s, e) == Render(buf, ls, c, s, m) + buf[m..e]
  {
    hide Rest;
    assert ls[..|ls|] == ls;
    Cut(buf, ls, c, |ls|, s, m, e);
    BeyondEdits(buf, ls, c, m, e);
  }
}
