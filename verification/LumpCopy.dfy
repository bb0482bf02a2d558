/**
  Copying a linked lump list (dup_lump_list in data_lump.c).  Cells carry three
  links; the main list runs over `next`, the two side lists of a lump over
  `before` and over `after`.
*/
module LumpCopy {
  import opened Lumps

  /** A lump of the main list, or a piece of a side list. */
  datatype Item = Head(offset: nat, del: bool, len: nat) | Side(piece: Piece)

  class Cell {
    var item: Item
    var flags: int
    var next: Cell?
    var before: Cell?
    var after: Cell?

    constructor (item: Item, flags: int)
      ensures this.item == item && this.flags == flags && next == null && before == null && after == null
    {
      this.item, this.flags := item, flags;
      next, before, after := null, null, null;
    }
  }

  /** The cells of a side list and of a main list, in order. */
  datatype Chain = End | Link(cell: Cell, rest: Chain)
  datatype Spine = Nil | Node(cell: Cell, before: Chain, after: Chain, rest: Spine)

  datatype Direction = Before | After

  ghost function Cells(s: Chain): set<Cell> {
    match s
    case End => {}
    case Link(c, r) => {c} + Cells(r)
  }

  ghost function AllCells(m: Spine): set<Cell> {
    match m
    case Nil => {}
    case Node(c, b, a, r) => {c} + Cells(b) + Cells(a) + AllCells(r)
  }

  /** No cell occurs twice. */
  ghost predicate Apart(s: Chain) {
    match s
    case End => true
    case Link(c, r) => c !in Cells(r) && Apart(r)
  }

  ghost predicate AllApart(m: Spine) {
    match m
    case Nil => true
    case Node(c, b, a, r) =>
      && Apart(b) && Apart(a) && AllApart(r)
      && c !in Cells(b) && c !in Cells(a) && c !in AllCells(r)
      && Cells(b) !! Cells(a) && Cells(b) !! AllCells(r) && Cells(a) !! AllCells(r)
  }

  ghost predicate Flagged(cells: set<Cell>, flags: int)
    reads cells
  {
    forall x :: x in cells ==> x.flags == flags
  }

  ghost predicate IsChain(c: Cell?, s: Chain, dir: Direction)
    reads Cells(s)
  {
    match s
    case End => c == null
    case Link(x, r) => c == x && x.item.Side? && IsChain(if dir.Before? then x.before else x.after, r, dir)
  }

  ghost predicate IsSpine(c: Cell?, m: Spine)
    reads AllCells(m)
  {
    match m
    case Nil => c == null
    case Node(x, b, a, r) =>
      && c == x && x.item.Head? && IsChain(x.before, b, Before) && IsChain(x.after, a, After)
      && IsSpine(x.next, r)
  }

  ghost function Pieces(s: Chain): seq<Piece>
    reads Cells(s)
  {
    match s
    case End => []
    case Link(x, r) => (if x.item.Side? then [x.item.piece] else []) + Pieces(r)
  }

  ghost function Edits(m: Spine): seq<Lump>
    reads AllCells(m)
  {
    match m
    case Nil => []
    case Node(x, b, a, r) =>
      (if x.item.Head? then [Lump(x.item.offset, x.item.del, x.item.len, Pieces(b), Pieces(a))] else []) + Edits(r)
  }

  lemma AllocChain(c: Cell?, s: Chain, dir: Direction)
    requires IsChain(c, s, dir)
    ensures forall x :: x in Cells(s) ==> allocated(x)
  {
    if s.Link? {
      AllocChain(if dir.Before? then s.cell.before else s.cell.after, s.rest, dir);
    }
  }

  lemma AllocSpine(c: Cell?, m: Spine)
    requires IsSpine(c, m)
    ensures forall x :: x in AllCells(m) ==> allocated(x)
  {
    if m.Node? {
      AllocChain(m.cell.before, m.before, Before);
      AllocChain(m.cell.after, m.after, After);
      AllocSpine(m.cell.next, m.rest);
    }
  }

  lemma ChainCost(s: Chain)
    requires s.Link? && s.cell.item.Side?
    ensures CostAll(Pieces(s)) == Cost(s.cell.item.piece) + CostAll(Pieces(s.rest))
  {
    assert Pieces(s)[0] == s.cell.item.piece && Pieces(s)[1..] == Pieces(s.rest);
  }

  lemma SpineCost(m: Spine)
    requires m.Node? && m.cell.item.Head?
    ensures var i := m.cell.item;
            Edits(m) == [Lump(i.offset, i.del, i.len, Pieces(m.before), Pieces(m.after))] + Edits(m.rest)
    ensures CostList(Edits(m)) == 1 + CostAll(Pieces(m.before)) + CostAll(Pieces(m.after)) + CostList(Edits(m.rest))
  {
    assert Edits(m)[1..] == Edits(m.rest);
  }

  /** Allocations a copy takes: a cell each, and the text of a plain addition. */
  function Cost(p: Piece): nat {
    if p.Add? then 2 else 1
  }

  lemma CostIs(p: Piece)
    ensures Cost(p) == 1 + if p.Add? then 1 else 0
  {
  }

  function CostAll(ps: seq<Piece>): nat {
    if ps == [] then 0 else Cost(ps[0]) + CostAll(ps[1..])
  }

  function CostList(ls: seq<Lump>): nat {
    if ls == [] then 0 else 1 + CostAll(ls[0].before) + CostAll(ls[0].after) + CostList(ls[1..])
  }

  /** Copies a side list; `memory` is the number of allocations that succeed. */
  method DupChain(c: Cell?, dir: Direction, flags: int, memory: nat, ghost s: Chain)
    returns (n: Cell?, error: bool, left: nat, ghost t: Chain)
    requires IsChain(c, s, dir)
    ensures error <==> CostAll(old(Pieces(s))) > memory
    ensures !error ==>
              && left == memory - CostAll(old(Pieces(s)))
              && IsChain(n, t, dir) && fresh(Cells(t)) && Pieces(t) == old(Pieces(s))
              && Apart(t) && Flagged(Cells(t), flags)
    decreases s
  {
    hide CostAll, Cost, Apart, Flagged;
    n, error, left, t := null, false, memory, End;
    if c == null {
      NoCost(flags);
      return;
    }
    var along := if dir.Before? then c.before else c.after;
    AllocChain(along, s.rest, dir);
    ChainCost(s);
    var p := c.item.piece;
    CostIs(p);
    // the cell, then the text of a plain addition
    if left == 0 || (p.Add? && left == 1) {
      error := true;
      return;
    }
    left := left - (if p.Add? then 2 else 1);
    n := new Cell(Side(p), flags);
    var k;
    ghost var rest;
    k, error, left, rest := DupChain(along, dir, flags, left, s.rest);
    if error {
      return;
    }
    Join(n, k, dir, flags, rest);
    t := Link(n, rest);
  }

  lemma NoCost(flags: int)
    ensures CostAll([]) == 0 && Apart(End) && Flagged({}, flags)
  {
  }

  /** Links a copied piece to the copied rest. */
  method Join(n: Cell, k: Cell?, dir: Direction, flags: int, ghost rest: Chain)
    requires n.item.Side? && IsChain(k, rest, dir) && n !in Cells(rest) && Apart(rest)
    requires n.flags == flags && Flagged(Cells(rest), flags)
    modifies n`before, n`after
    ensures IsChain(n, Link(n, rest), dir) && Apart(Link(n, rest)) && Flagged(Cells(Link(n, rest)), flags)
    ensures Pieces(Link(n, rest)) == [old(n.item.piece)] + old(Pieces(rest))
  {
    AllocChain(k, rest, dir);
    if dir.Before? {
      n.before := k;
    } else {
      n.after := k;
    }
  }

  /** Copies a lump with its side lists. */
  method DupCell(c: Cell, flags: int, memory: nat, ghost b: Chain, ghost a: Chain)
    returns (n: Cell, error: bool, left: nat, ghost b': Chain, ghost a': Chain)
    requires IsChain(c.before, b, Before) && IsChain(c.after, a, After)
    ensures fresh(n) && (error <==> 1 + CostAll(old(Pieces(b))) + CostAll(old(Pieces(a))) > memory)
    ensures !error ==>
              && left == memory - 1 - CostAll(old(Pieces(b))) - CostAll(old(Pieces(a)))
              && n.item == old(c.item) && n.next == null && IsChain(n.before, b', Before) && IsChain(n.after, a', After)
              && fresh(Cells(b')) && fresh(Cells(a')) && n !in Cells(b') && n !in Cells(a')
              && Pieces(b') == old(Pieces(b)) && Pieces(a') == old(Pieces(a))
              && Apart(b') && Apart(a') && Cells(b') !! Cells(a')
              && n.flags == flags && Flagged(Cells(b'), flags) && Flagged(Cells(a'), flags)
  {
    hide CostAll, Cost, IsChain, Pieces, Cells, Apart;
    AllocChain(c.before, b, Before);
    AllocChain(c.after, a, After);
    n := new Cell(c.item, flags);
    error, left, b', a' := memory < 1, memory, End, End;
    if error {
      return;
    }
    var k;
    k, error, left, b' := DupChain(c.before, Before, flags, memory - 1, b);
    if error {
      return;
    }
    n.before := k;
    AllocChain(k, b', Before);
    k, error, left, a' := DupChain(c.after, After, flags, left, a);
    n.after := k;
  }

  /** Links a copied lump to the copied rest. */
  method Attach(n: Cell, k: Cell?, ghost flags: int, ghost b: Chain, ghost a: Chain, ghost rest: Spine)
    requires n.item.Head? && IsChain(n.before, b, Before) && IsChain(n.after, a, After) && IsSpine(k, rest)
    requires AllApart(Node(n, b, a, rest)) && n.flags == flags
    requires Flagged(Cells(b), flags) && Flagged(Cells(a), flags) && Flagged(AllCells(rest), flags)
    modifies n`next
    ensures IsSpine(n, Node(n, b, a, rest)) && Flagged(AllCells(Node(n, b, a, rest)), flags)
    ensures Edits(Node(n, b, a, rest)) ==
            [Lump(old(n.item.offset), old(n.item.del), old(n.item.len), old(Pieces(b)), old(Pieces(a)))]
            + old(Edits(rest))
  {
    hide Pieces, Cells;
    AllocChain(n.before, b, Before);
    AllocChain(n.after, a, After);
    AllocSpine(k, rest);
    n.next := k;
  }

  /**
    Copies a whole list.  If memory lasts the copy is made of new cells, no two
    of which are shared, carries the flags of a new lump and holds the same edit;
    the original is left alone.
  */
  method DupList(c: Cell?, flags: int, memory: nat, ghost m: Spine)
    returns (n: Cell?, error: bool, left: nat, ghost w: Spine)
    requires IsSpine(c, m)
    ensures error <==> CostList(old(Edits(m))) > memory
    ensures !error ==>
              && left == memory - CostList(old(Edits(m)))
              && IsSpine(n, w) && fresh(AllCells(w)) && Edits(w) == old(Edits(m))
              && AllApart(w) && Flagged(AllCells(w), flags)
    decreases m
  {
    hide CostAll, CostList, Cost, IsChain, Pieces, Cells, Apart, Flagged, AllCells, AllApart, Edits;
    n, error, left, w := null, false, memory, Nil;
    if c == null {
      NoCosts(flags);
      return;
    }
    AllocSpine(c.next, m.rest);
    SpineCost(m);
    ghost var b, a, rest;
    var copy;
    copy, error, left, b, a := DupCell(c, flags, memory, m.before, m.after);
    if error {
      return;
    }
    AllocChain(copy.before, b, Before);
    AllocChain(copy.after, a, After);
    var k;
    k, error, left, rest := DupList(c.next, flags, left, m.rest);
    if error {
      return;
    }
    Spread(copy, b, a, rest);
    Attach(copy, k, flags, b, a, rest);
    n, w := copy, Node(copy, b, a, rest);
  }

  lemma NoCosts(flags: int)
    ensures CostList([]) == 0 && Edits(Nil) == [] && AllApart(Nil) && AllCells(Nil) == {} && Flagged({}, flags)
  {
  }

  lemma Spread(n: Cell, b: Chain, a: Chain, rest: Spine)
    requires Apart(b) && Apart(a) && AllApart(rest) && n !in Cells(b) && n !in Cells(a) && n !in AllCells(rest)
    requires Cells(b) !! Cells(a) && Cells(b) !! AllCells(rest) && Cells(a) !! AllCells(rest)
    ensures AllApart(Node(n, b, a, rest))
    ensures AllCells(Node(n, b, a, rest)) == {n} + Cells(b) + Cells(a) + AllCells(rest)
  {
  }
}
