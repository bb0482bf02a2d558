/**
  Restoring the balance at one node of the AVL map (map.c).
*/
module AvlFix {
  import opened Arithmetic
  import opened AvlTree
  import opened AvlRotate

  /** Like `Rep`, but the root may be out of balance by two. */
  ghost predicate RepRoot(t: Tree, p: Node?, parent: Node?)
    reads Nodes(t)
  {
    && t.T? && p == t.node && t.node.parent == parent
    && t.node.balance == H(t.r) - H(t.l) && -2 <= t.node.balance <= 2
    && Rep(t.l, t.node.left, t.node) && Rep(t.r, t.node.right, t.node)
  }

  /** The same nodes in the same order. */
  ghost predicate Same(t: Tree, t': Tree) {
    Distinct(t') && Nodes(t') == Nodes(t) && InOrder(t') == InOrder(t)
  }

  lemma One(n: Node, l: Tree, r: Tree)
    ensures Nodes(T(n, l, r)) == {n} + Nodes(l) + Nodes(r)
    ensures InOrder(T(n, l, r)) == InOrder(l) + [n] + InOrder(r)
    ensures H(T(n, l, r)) == 1 + Max(H(l), H(r))
    ensures Distinct(T(n, l, r)) <==>
            && n !in Nodes(l) && n !in Nodes(r) && Nodes(l) !! Nodes(r) && Distinct(l) && Distinct(r)
  {
  }

  lemma SameSingle(x: Node, y: Node, a: Tree, b: Tree, c: Tree)
    ensures Distinct(T(y, a, T(x, b, c))) ==> Same(T(y, a, T(x, b, c)), T(x, T(y, a, b), c))
    ensures Distinct(T(x, T(y, a, b), c)) ==> Same(T(x, T(y, a, b), c), T(y, a, T(x, b, c)))
  {
    hide Nodes, InOrder, Distinct;
    One(x, b, c);
    One(y, a, T(x, b, c));
    One(y, a, b);
    One(x, T(y, a, b), c);
    Assoc(InOrder(a), [y], InOrder(b), [x], InOrder(c));
  }

  lemma Assoc(a: seq<Node>, b: seq<Node>, c: seq<Node>, d: seq<Node>, e: seq<Node>)
    ensures a + b + (c + d + e) == (a + b + c) + d + e
  {
  }

  lemma SameRightLeft(w: Node, x: Node, y: Node, a: Tree, b: Tree, c: Tree, d: Tree)
    requires Distinct(T(y, a, T(x, T(w, b, c), d)))
    ensures Same(T(y, a, T(x, T(w, b, c), d)), T(w, T(y, a, b), T(x, c, d)))
  {
    hide Nodes, InOrder, Distinct;
    One(w, b, c);
    One(x, T(w, b, c), d);
    One(y, a, T(x, T(w, b, c), d));
    One(y, a, b);
    One(x, c, d);
    One(w, T(y, a, b), T(x, c, d));
    AssocLong(InOrder(a), [y], InOrder(b), [w], InOrder(c), [x], InOrder(d));
  }

  lemma SameLeftRight(w: Node, x: Node, y: Node, a: Tree, b: Tree, c: Tree, d: Tree)
    requires Distinct(T(y, T(x, a, T(w, b, c)), d))
    ensures Same(T(y, T(x, a, T(w, b, c)), d), T(w, T(x, a, b), T(y, c, d)))
  {
    hide Nodes, InOrder, Distinct;
    One(w, b, c);
    One(x, a, T(w, b, c));
    One(y, T(x, a, T(w, b, c)), d);
    One(x, a, b);
    One(y, c, d);
    One(w, T(x, a, b), T(y, c, d));
    AssocLong(InOrder(a), [x], InOrder(b), [w], InOrder(c), [y], InOrder(d));
  }

  lemma AssocLong(a: seq<Node>, y: seq<Node>, b: seq<Node>, w: seq<Node>, c: seq<Node>, x: seq<Node>, d: seq<Node>)
    ensures a + y + ((b + w + c) + x + d) == (a + y + b) + w + (c + x + d)
    ensures (a + y + (b + w + c)) + x + d == (a + y + b) + w + (c + x + d)
  {
  }

  /** Balance factors after a single rotation brought `x` above `y`. */
  method Settle(x: Node, y: Node, lean: int)
    requires x != y
    modifies x`balance, y`balance
    ensures x.balance == (if old(x.balance) == 0 then lean else 0) && y.balance == -x.balance
  {
    if x.balance == 0 {
      x.balance, y.balance := lean, -lean;
    } else {
      x.balance, y.balance := 0, 0;
    }
  }

  /** A node with its right side two levels too high. */
  method FixRight(y: Node, ghost t: Tree, ghost par: Node?) returns (w: Node, ghost t': Tree)
    requires Distinct(t) && RepRoot(t, y, par) && y.balance == 2 && y.right != null
    modifies Nodes(t)`left, Nodes(t)`right, Nodes(t)`parent, Nodes(t)`balance
    ensures Rep(t', w, par) && Same(t, t')
    ensures H(t') == if old(y.right.balance) == 0 then H(t) else H(t) - 1
  {
    if y.right.balance == -1 {
      w, t' := FixRightDouble(y, t, par);
    } else {
      w, t' := FixRightSingle(y, t, par);
    }
  }

  method FixRightDouble(y: Node, ghost t: Tree, ghost par: Node?) returns (w: Node, ghost t': Tree)
    requires Distinct(t) && RepRoot(t, y, par) && y.balance == 2 && y.right != null && y.right.balance == -1
    modifies Nodes(t)`left, Nodes(t)`right, Nodes(t)`parent, Nodes(t)`balance
    ensures Rep(t', w, par) && Same(t, t') && H(t') == H(t) - 1
  {
    var x := y.right;
    ghost var a, b, c := t.l, t.r.l, t.r.r;
    Fold(x, b, c, x, y);
    w := x.left;
    Fold(w, b.l, b.r, w, x);
    t' := T(w, T(y, a, b.l), T(x, b.r, c));
    SameRightLeft(w, x, y, a, b.l, b.r, c);
    RightLeftApart(w, x, y, a, b.l, b.r, c);
    hide Rep, Distinct, Same, Apart3, InOrder;
    RotateRightLeft(y, x, w, a, b.l, b.r, c);
  }

  method FixRightSingle(y: Node, ghost t: Tree, ghost par: Node?) returns (w: Node, ghost t': Tree)
    requires Distinct(t) && RepRoot(t, y, par) && y.balance == 2 && y.right != null && y.right.balance != -1
    modifies Nodes(t)`left, Nodes(t)`right, Nodes(t)`parent, Nodes(t)`balance
    ensures Rep(t', w, par) && Same(t, t')
    ensures H(t') == if old(y.right.balance) == 0 then H(t) else H(t) - 1
  {
    var x := y.right;
    ghost var a, b, c := t.l, t.r.l, t.r.r;
    Fold(x, b, c, x, y);
    w := x;
    t' := T(x, T(y, a, b), c);
    SameSingle(x, y, a, b, c);
    RightApart(x, y, a, b, c);
    One(x, b, c); One(y, a, b); One(x, T(y, a, b), c);
    hide Rep, Distinct, Same, InOrder, Apart;
    RaiseRight(y, x, a, b, c);
  }

  /** The single rotation with its balance factors. */
  method RaiseRight(y: Node, x: Node, ghost a: Tree, ghost b: Tree, ghost c: Tree)
    requires Apart(x, y, a, b, c)
    requires y.right == x && Rep(a, y.left, y) && Rep(b, x.left, x) && Rep(c, x.right, x)
    requires x.balance == H(c) - H(b) && 0 <= x.balance <= 1 && H(c) == H(a) + 1
    modifies y`right, y`parent, y`balance, x`left, x`parent, x`balance, RootSet(b)`parent
    ensures Rep(T(x, T(y, a, b), c), x, old(y.parent))
  {
    hide Rep, Distinct, Nodes, RootSet;
    Alloc(a); Alloc(b); Alloc(c);
    One(y, a, b);
    RotateLeft(y, x, a, b, c);
    Settle(x, y, -1);
    Fold(y, a, b, y, x);
    Fold(x, T(y, a, b), c, x, x.parent);
  }

  /** A node with its left side two levels too high. */
  method FixLeft(y: Node, ghost t: Tree, ghost par: Node?) returns (w: Node, ghost t': Tree)
    requires Distinct(t) && RepRoot(t, y, par) && y.balance == -2 && y.left != null
    modifies Nodes(t)`left, Nodes(t)`right, Nodes(t)`parent, Nodes(t)`balance
    ensures Rep(t', w, par) && Same(t, t')
    ensures H(t') == if old(y.left.balance) == 0 then H(t) else H(t) - 1
  {
    if y.left.balance == 1 {
      w, t' := FixLeftDouble(y, t, par);
    } else {
      w, t' := FixLeftSingle(y, t, par);
    }
  }

  method FixLeftDouble(y: Node, ghost t: Tree, ghost par: Node?) returns (w: Node, ghost t': Tree)
    requires Distinct(t) && RepRoot(t, y, par) && y.balance == -2 && y.left != null && y.left.balance == 1
    modifies Nodes(t)`left, Nodes(t)`right, Nodes(t)`parent, Nodes(t)`balance
    ensures Rep(t', w, par) && Same(t, t') && H(t') == H(t) - 1
  {
    var x := y.left;
    ghost var a, b, c := t.l.l, t.l.r, t.r;
    Fold(x, a, b, x, y);
    w := x.right;
    Fold(w, b.l, b.r, w, x);
    t' := T(w, T(x, a, b.l), T(y, b.r, c));
    SameLeftRight(w, x, y, a, b.l, b.r, c);
    LeftRightApart(w, x, y, a, b.l, b.r, c);
    hide Rep, Distinct, Same, Apart3, InOrder;
    RotateLeftRight(y, x, w, a, b.l, b.r, c);
  }

  method FixLeftSingle(y: Node, ghost t: Tree, ghost par: Node?) returns (w: Node, ghost t': Tree)
    requires Distinct(t) && RepRoot(t, y, par) && y.balance == -2 && y.left != null && y.left.balance != 1
    modifies Nodes(t)`left, Nodes(t)`right, Nodes(t)`parent, Nodes(t)`balance
    ensures Rep(t', w, par) && Same(t, t')
    ensures H(t') == if old(y.left.balance) == 0 then H(t) else H(t) - 1
  {
    var x := y.left;
    ghost var a, b, c := t.l.l, t.l.r, t.r;
    Fold(x, a, b, x, y);
    w := x;
    t' := T(x, a, T(y, b, c));
    SameSingle(y, x, a, b, c);
    LeftApart(x, y, a, b, c);
    One(x, a, b); One(y, b, c); One(x, a, T(y, b, c));
    hide Rep, Distinct, Same, InOrder, Apart;
    RaiseLeft(y, x, a, b, c);
  }

  method RaiseLeft(y: Node, x: Node, ghost a: Tree, ghost b: Tree, ghost c: Tree)
    requires Apart(x, y, a, b, c)
    requires y.left == x && Rep(a, x.left, x) && Rep(b, x.right, x) && Rep(c, y.right, y)
    requires x.balance == H(b) - H(a) && -1 <= x.balance <= 0 && H(a) == H(c) + 1
    modifies y`left, y`parent, y`balance, x`right, x`parent, x`balance, RootSet(b)`parent
    ensures Rep(T(x, a, T(y, b, c)), x, old(y.parent))
  {
    hide Rep, Distinct, Nodes, RootSet;
    Alloc(a); Alloc(b); Alloc(c);
    One(y, b, c);
    RotateRight(y, x, a, b, c);
    Settle(x, y, 1);
    Fold(y, b, c, y, x);
    Fold(x, a, T(y, b, c), x, x.parent);
  }
}
