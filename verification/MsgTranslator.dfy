/**
  The two passes over an edit list: `LumpsLen` predicts how long the result is,
  `ProcessLumps` writes it into a buffer of that size (msg_translator.c).
  Both are proved against `Lumps.Render`.
*/
module MsgTranslator {
  import opened Arithmetic
  import opened SubstContext
  import opened Lumps

  /** memcpy into the output buffer. */
  method MemCpy(dst: array<char>, at: nat, src: string)
    requires at + |src| <= dst.Length
    modifies dst
    ensures dst[..at + |src|] == old(dst[..at]) + src
    ensures dst[at + |src|..] == old(dst[at + |src|..])
  {
    for k := 0 to |src|
      invariant dst[..at] == old(dst[..at])
      invariant forall x :: 0 <= x < k ==> dst[at + x] == src[x]
      invariant dst[at + k..] == old(dst[at + k..])
    {
      ghost var before := dst[..];
      dst[at + k] := src[k];
      assert dst[at + k + 1..] == before[at + k..][1..];
    }
  }

  // ----- chains -----

  /** Length of a before/after chain as the length pass counts it. */
  method LenChain(ch: seq<Piece>, c: Context) returns (n: nat)
    ensures n == ChainLen(ch, 0, c)
  {
    n := 0;
    var r := 0;
    while r < |ch|
      invariant 0 <= r <= |ch|
      invariant n + ChainLen(ch, r, c) == ChainLen(ch, 0, c)
    {
      match ch[r] {
        case Add(t) => n := n + |t|;
        case AddSubst(k) => n := n + SubstLen(k, c);
        case AddOpt(cond) =>
          if !CheckOpt(cond, c) {
            return;
          }
        case Skip =>
          ghost var r0 := r;
          while r + 2 < |ch|
            invariant r0 <= r < |ch| && AfterSkip(ch, r0) == AfterSkip(ch, r)
          {
            r := r + 1;
          }
        case Stray =>
      }
      r := r + 1;
    }
  }

  /** Writes a before/after chain at `at`. */
  method WriteChain(dst: array<char>, at: nat, ch: seq<Piece>, c: Context) returns (o: nat)
    requires at + |ChainText(ch, 0, c)| <= dst.Length
    modifies dst
    ensures o == at + |ChainText(ch, 0, c)|
    ensures dst[..o] == old(dst[..at]) + ChainText(ch, 0, c)
    ensures dst[o..] == old(dst[o..])
  {
    hide SubstText, CheckOpt;
    o := at;
    var r := 0;
    ghost var goal := old(dst[..at]) + ChainText(ch, 0, c);
    while r < |ch|
      invariant 0 <= r <= |ch|
      invariant o + |ChainText(ch, r, c)| == |goal| <= dst.Length
      invariant dst[..o] + ChainText(ch, r, c) == goal
      invariant dst[|goal|..] == old(dst[|goal|..])
    {
      match ch[r] {
        case Add(t) =>
          o := Append(dst, o, t, ChainText(ch, r + 1, c), goal);
        case AddSubst(k) =>
          o := Append(dst, o, SubstText(k, c), ChainText(ch, r + 1, c), goal);
        case AddOpt(cond) =>
          if !CheckOpt(cond, c) {
            return;
          }
        case Skip =>
          ghost var r0 := r;
          while r + 2 < |ch|
            invariant r0 <= r < |ch| && AfterSkip(ch, r0) == AfterSkip(ch, r)
          {
            r := r + 1;
          }
        case Stray =>
      }
      r := r + 1;
    }
  }

  /** One write on the way to `goal`: `t` now, `rest` still to come. */
  method Append(dst: array<char>, o: nat, t: string, ghost rest: string, ghost goal: string) returns (o': nat)
    requires o + |t| + |rest| == |goal| <= dst.Length
    requires dst[..o] + (t + rest) == goal
    modifies dst
    ensures o' == o + |t|
    ensures dst[..o'] + rest == goal
    ensures dst[o'..] == old(dst[o'..])
    ensures dst[|goal|..] == old(dst[|goal|..])
  {
    ghost var head := dst[..o];
    MemCpy(dst, o, t);
    o' := o + |t|;
    Regroup(goal, head, t + rest, t, rest);
    assert dst[|goal|..] == dst[o'..][|goal| - o'..];
    assert old(dst[|goal|..]) == old(dst[o'..])[|goal| - o'..];
  }

  // ----- the length pass -----

  /** What is still to be counted once a pass stands after `i` lumps. */
  ghost function Residual(buf: string, ls: seq<Lump>, c: Context, i: nat, low: nat, s: nat, e: nat): int
    requires i <= |ls| && low <= e <= |buf|
  {
    |Rest(buf, ls, c, i, low, e)| - (e - Max(s, low))
  }

  lemma StepText(buf: string, ls: seq<Lump>, c: Context, i: nat, low: nat, s: nat, last: nat, e: nat)
    requires Sorted(ls) && i < |ls| && Cursors(ls, i, low, s, last)
    requires low <= ls[i].offset <= e <= |buf|
    ensures Rest(buf, ls, c, i, low, e) ==
            Copied(buf, Max(s, low), ls[i].offset)
            + ((if Live(ls, i) then LumpText(ls[i], c) else "")
               + Rest(buf, ls, c, i + 1, ls[i].offset, e))
  {
    hide Live, Rest, LumpText, Quiet;
    QuietGap(ls, c, i, low, s, last, ls[i].offset);
    Gap(buf, ls, c, i, s, low, ls[i].offset, e);
    TakeLump(buf, ls, c, i, e);
  }

  lemma EndText(buf: string, ls: seq<Lump>, c: Context, low: nat, s: nat, last: nat, e: nat)
    requires Cursors(ls, |ls|, low, s, last) && low <= e <= |buf| && s <= e
    ensures Rest(buf, ls, c, |ls|, low, e) == buf[Max(s, low)..e]
  {
    hide Live, Rest, Quiet;
    QuietGap(ls, c, |ls|, low, s, last, e);
    Gap(buf, ls, c, |ls|, s, low, e, e);
    RestEnd(buf, ls, c, |ls|, e);
  }

  /** What a pass assigns to its cursors at lump `i`. */
  ghost predicate Moves(ls: seq<Lump>, i: nat, s: nat, last: nat, s': nat, last': nat)
    requires i < |ls|
  {
    if LiveDel(ls, i) then s' == Max(s, ls[i].End()) && last' == ls[i].offset
    else s <= s' <= Max(s, ls[i].offset) && (s' == s || s' == ls[i].offset) && last' == last
  }

  lemma Start(ls: seq<Lump>, s0: nat, s: nat, e: nat)
    requires WellFormed(ls, s0, e) && s <= s0
    ensures Cursors(ls, 0, s0, s, 0)
  {
  }

  /** One step of the count. */
  lemma CountStep(buf: string, ls: seq<Lump>, c: Context, s0: nat, e: nat,
                  i: nat, low: nat, s: nat, last: nat, s': nat, last': nat)
    requires WellFormed(ls, s0, e) && i < |ls| && Cursors(ls, i, low, s, last)
    requires low <= e <= |buf| && s <= e && Moves(ls, i, s, last, s', last')
    ensures ls[i].offset <= e && s' <= e && Cursors(ls, i + 1, ls[i].offset, s', last')
    ensures Residual(buf, ls, c, i, low, s, e) + Skew(ls, c, i)
         == (if Live(ls, i) then ChainLen(ls[i].before, 0, c) + ChainLen(ls[i].after, 0, c) else 0)
            - (Max(s', ls[i].offset) - Max(s, ls[i].offset))
            + Residual(buf, ls, c, i + 1, ls[i].offset, s', e) + Skew(ls, c, i + 1)
  {
    hide Live, LiveDel, Rest, Skew, LumpText, ChainLen, Cursors;
    assert low <= ls[i].offset <= e by { Bounds(ls, s0, e, i, low, s, last); }
    StepText(buf, ls, c, i, low, s, last, e);
    SkewStep(ls, c, i);
    Advance(ls, i, low, s, last, s', last');
  }

  lemma Bounds(ls: seq<Lump>, s0: nat, e: nat, i: nat, low: nat, s: nat, last: nat)
    requires WellFormed(ls, s0, e) && i < |ls| && Cursors(ls, i, low, s, last)
    ensures low <= ls[i].offset <= e && ls[i].End() <= e
  {
  }

  lemma CountEnd(buf: string, ls: seq<Lump>, c: Context, low: nat, s: nat, last: nat, e: nat)
    requires Cursors(ls, |ls|, low, s, last) && low <= e <= |buf| && s <= e
    ensures Residual(buf, ls, c, |ls|, low, s, e) + Skew(ls, c, |ls|) == 0
  {
    EndText(buf, ls, c, low, s, last, e);
  }

  /** lumps_len: the change in length, up to the over-count of substitutions. */
  method LumpsLen(ls: seq<Lump>, c: Context, max: nat, ghost buf: string, ghost s0: nat, ghost e: nat)
    returns (newLen: int)
    requires s0 <= e <= |buf| && WellFormed(Active(ls, max), s0, e)
    ensures newLen == |Render(buf, Active(ls, max), c, s0, e)| - (e - s0) + Skew(Active(ls, max), c, 0)
  {
    hide Live, LiveDel, Rest, Skew, Cursors, ChainLen, Sorted, WellFormed, Active;
    ghost var act := Active(ls, max);
    var s: nat, last: nat, t := 0, 0, 0;
    ghost var low: nat := s0;
    newLen := 0;
    Start(act, s0, s, e);
    while t < |ls| && ls[t].offset < max
      invariant 0 <= t <= |act| && low <= e
      invariant Cursors(act, t, low, s, last) && s <= e
      invariant newLen + Residual(buf, act, c, t, low, s, e) + Skew(act, c, t)
             == Residual(buf, act, c, 0, s0, 0, e) + Skew(act, c, 0)
    {
      var l := ls[t];
      assert l == act[t];
      SkipTest(act, t, low, s, last) by { WellFormedSorted(act, s0, e); }
      LiveDelDef(act, t);
      ghost var s1: nat, last1: nat := s, last;
      if !(l.offset < s && l.offset != last) {
        var n := LenChain(l.before, c);
        newLen := newLen + n;
        if l.del {
          last := l.offset;
          if l.offset < s {
            if l.offset + l.len > s {
              newLen := newLen - (l.len - (s - l.offset));
              s := l.offset + l.len;
            }
          } else {
            newLen := newLen - l.len;
            s := l.offset + l.len;
          }
        }
        n := LenChain(l.after, c);
        newLen := newLen + n;
      }
      CountStep(buf, act, c, s0, e, t, low, s1, last1, s, last);
      low := l.offset;
      t := t + 1;
    }
    assert t == |act|;
    CountEnd(buf, act, c, low, s, last, e);
  }

  lemma WellFormedSorted(ls: seq<Lump>, s0: nat, e: nat)
    requires WellFormed(ls, s0, e)
    ensures Sorted(ls)
  {
  }

  lemma SkewStep(ls: seq<Lump>, c: Context, i: nat)
    requires i < |ls|
    ensures Skew(ls, c, i) ==
            (if Live(ls, i) then LumpSkew(ls[i], c) else 0) + Skew(ls, c, i + 1)
  {
    hide Live, LumpSkew;
  }

  lemma LiveDelDef(ls: seq<Lump>, i: nat)
    requires i < |ls|
    ensures LiveDel(ls, i) <==> ls[i].del && Live(ls, i)
  {
    hide Live;
  }

  // ----- the write pass -----

  /** What the write pass has to do at lump `i`. */
  lemma WriteStep(buf: string, ls: seq<Lump>, c: Context, s0: nat, e: nat, i: nat, low: nat, s: nat, last: nat)
    requires WellFormed(ls, s0, e) && e <= |buf| && i < |ls| && Cursors(ls, i, low, s, last) && low <= s <= e
    ensures low <= ls[i].offset <= e && ls[i].End() <= e
    ensures if ls[i].offset < s && ls[i].offset != last
            then Rest(buf, ls, c, i, low, e) == Rest(buf, ls, c, i + 1, ls[i].offset, e)
            else Rest(buf, ls, c, i, low, e) ==
                 Copied(buf, s, ls[i].offset) + (LumpText(ls[i], c) + Rest(buf, ls, c, i + 1, ls[i].offset, e))
  {
    hide Live, LiveDel, Rest, Cursors, LumpText;
    Bounds(ls, s0, e, i, low, s, last);
    SkipTest(ls, i, low, s, last);
    StepText(buf, ls, c, i, low, s, last, e);
  }

  lemma AdvanceWrite(ls: seq<Lump>, s0: nat, e: nat, i: nat, low: nat, s: nat, last: nat, s': nat, last': nat)
    requires WellFormed(ls, s0, e) && i < |ls| && Cursors(ls, i, low, s, last) && low <= s
    requires if ls[i].offset < s && ls[i].offset != last then s' == s && last' == last
             else s' == Max(s, ls[i].End()) && last' == if ls[i].del then ls[i].offset else last
    ensures Cursors(ls, i + 1, ls[i].offset, s', last')
  {
    hide Live, LiveDel, Cursors;
    SkipTest(ls, i, low, s, last);
    LiveDelDef(ls, i);
    Advance(ls, i, low, s, last, s', last');
  }

  /** process_lumps: writes the rewritten text except for the source bytes after
      the last edit, which `origOffs'` leaves to the caller. */
  method ProcessLumps(buf: string, ls: seq<Lump>, c: Context, dst: array<char>,
                      newOffs: nat, origOffs: nat, max: nat, ghost e: nat)
    returns (newOffs': nat, origOffs': nat)
    requires origOffs <= e <= |buf| && WellFormed(Active(ls, max), origOffs, e)
    requires newOffs + |Render(buf, Active(ls, max), c, origOffs, e)| <= dst.Length
    modifies dst
    ensures origOffs <= origOffs' <= e && newOffs <= newOffs'
    ensures newOffs' + (e - origOffs') == newOffs + |Render(buf, Active(ls, max), c, origOffs, e)|
    ensures dst[..newOffs'] + buf[origOffs'..e]
         == old(dst[..newOffs]) + Render(buf, Active(ls, max), c, origOffs, e)
    ensures dst[newOffs' + (e - origOffs')..] == old(dst[newOffs' + (e - origOffs')..])
  {
    hide Live, LiveDel, Rest, Cursors, Sorted, WellFormed, LumpText, Active, Copied, Moves;
    ghost var act := Active(ls, max);
    ghost var goal := old(dst[..newOffs]) + Rest(buf, act, c, 0, origOffs, e);
    var offset: nat, s: nat, last: nat, t := newOffs, origOffs, 0, 0;
    ghost var low: nat := s;
    Start(act, origOffs, s, e);
    while t < |ls| && ls[t].offset < max
      invariant 0 <= t <= |act| && origOffs <= low <= s <= e && newOffs <= offset
      invariant Cursors(act, t, low, s, last)
      invariant offset + |Rest(buf, act, c, t, low, e)| == |goal| <= dst.Length
      invariant dst[..offset] + Rest(buf, act, c, t, low, e) == goal
      invariant dst[|goal|..] == old(dst[|goal|..])
    {
      var l := ls[t];
      assert l == act[t];
      ghost var s1: nat, last1: nat := s, last;
      WriteStep(buf, act, c, origOffs, e, t, low, s, last);
      if !(l.offset < s && l.offset != last) {
        offset, s := WriteLump(buf, l, c, dst, offset, s, Rest(buf, act, c, t + 1, l.offset, e), goal);
        if l.del {
          last := l.offset;
        }
      }
      AdvanceWrite(act, origOffs, e, t, low, s1, last1, s, last);
      low := l.offset;
      t := t + 1;
    }
    assert t == |act|;
    EndText(buf, act, c, low, s, last, e);
    newOffs', origOffs' := offset, s;
  }

  /** The body of the write loop for a lump that counts: copy up to it, write
      its before chain, skip what it deletes, write its after chain. */
  method WriteLump(buf: string, l: Lump, c: Context, dst: array<char>, offset: nat, s: nat,
                   ghost rest: string, ghost goal: string)
    returns (offset': nat, s': nat)
    requires l.offset <= |buf|
    requires offset + |Copied(buf, s, l.offset) + (LumpText(l, c) + rest)| == |goal| <= dst.Length
    requires dst[..offset] + (Copied(buf, s, l.offset) + (LumpText(l, c) + rest)) == goal
    modifies dst
    ensures s' == Max(s, l.End()) && offset <= offset'
    ensures offset' + |rest| == |goal| && dst[..offset'] + rest == goal
    ensures dst[|goal|..] == old(dst[|goal|..])
  {
    hide ChainText;
    offset', s' := offset, s;
    ghost var texts := LumpText(l, c) + rest;
    if s' < l.offset {
      offset' := Append(dst, offset', buf[s'..l.offset], texts, goal);
      s' := l.offset;
    }
    assert dst[..offset'] + texts == goal;
    ghost var b, a := ChainText(l.before, 0, c), ChainText(l.after, 0, c);
    assert texts == b + (a + rest);
    offset' := AppendChain(dst, offset', l.before, c, a + rest, goal);
    if l.del && l.offset + l.len > s' {
      s' := s' + (l.len - (s' - l.offset));
    }
    offset' := AppendChain(dst, offset', l.after, c, rest, goal);
  }

  /** `Append` for a whole chain. */
  method AppendChain(dst: array<char>, o: nat, ch: seq<Piece>, c: Context, ghost rest: string, ghost goal: string)
    returns (o': nat)
    requires o + |ChainText(ch, 0, c)| + |rest| == |goal| <= dst.Length
    requires dst[..o] + (ChainText(ch, 0, c) + rest) == goal
    modifies dst
    ensures o' == o + |ChainText(ch, 0, c)|
    ensures dst[..o'] + rest == goal
    ensures dst[|goal|..] == old(dst[|goal|..])
  {
    hide ChainText;
    ghost var head, t := dst[..o], ChainText(ch, 0, c);
    o' := WriteChain(dst, o, ch, c);
    Regroup(goal, head, t + rest, t, rest);
    assert dst[|goal|..] == dst[o'..][|goal| - o'..];
    assert old(dst[|goal|..]) == old(dst[o'..])[|goal| - o'..];
  }
}
