/**
  Pointer surgery of the AVL map (map.c): each method performs the assignments
  of one rotation and is proved to turn one represented shape into another with
  the same nodes in the same order.
*/
module AvlRotate {
  import opened Arithmetic
  import opened AvlTree

  /** Hangs a subtree under a new parent. */
  method SetParent(p: Node?, np: Node?, ghost b: Tree, ghost q: Node?)
    requires Rep(b, p, q) && Distinct(b)
    modifies RootSet(b)`parent
    ensures Rep(b, p, np)
  {
    if p != null {
      p.parent := np;
    }
  }

  /** Two nodes and some subtrees with nothing in common. */
  ghost predicate Apart(x: Node, y: Node, a: Tree, b: Tree, c: Tree) {
    && x != y && x !in Nodes(a) + Nodes(b) + Nodes(c) && y !in Nodes(a) + Nodes(b) + Nodes(c)
    && Nodes(a) !! Nodes(b) !! Nodes(c) && Distinct(a) && Distinct(b) && Distinct(c)
  }

  lemma LeftApart(x: Node, y: Node, a: Tree, b: Tree, c: Tree)
    requires Distinct(T(y, T(x, a, b), c))
    ensures Apart(x, y, a, b, c)
  {
  }

  lemma RightApart(x: Node, y: Node, a: Tree, b: Tree, c: Tree)
    requires Distinct(T(y, a, T(x, b, c)))
    ensures Apart(x, y, a, b, c)
  {
  }

  /** `y` with right child `x` becomes `x` with left child `y`. */
  method RotateLeft(y: Node, x: Node, ghost a: Tree, ghost b: Tree, ghost c: Tree)
    requires Apart(x, y, a, b, c)
    requires y.right == x && Rep(a, y.left, y) && Rep(b, x.left, x) && Rep(c, x.right, x)
    modifies y`right, y`parent, x`left, x`parent, RootSet(b)`parent
    ensures x.left == y && x.parent == old(y.parent) && y.parent == x
    ensures Rep(a, y.left, y) && Rep(b, y.right, y) && Rep(c, x.right, x)
  {
    Alloc(a); Alloc(b); Alloc(c);
    hide Rep, Nodes, Distinct, RootSet;
    y.right := x.left;
    x.left := y;
    x.parent := y.parent;
    y.parent := x;
    SetParent(y.right, y, b, x);
  }

  method RotateRight(y: Node, x: Node, ghost a: Tree, ghost b: Tree, ghost c: Tree)
    requires Apart(x, y, a, b, c)
    requires y.left == x && Rep(a, x.left, x) && Rep(b, x.right, x) && Rep(c, y.right, y)
    modifies y`left, y`parent, x`right, x`parent, RootSet(b)`parent
    ensures x.right == y && x.parent == old(y.parent) && y.parent == x
    ensures Rep(a, x.left, x) && Rep(b, y.left, y) && Rep(c, y.right, y)
  {
    Alloc(a); Alloc(b); Alloc(c);
    hide Rep, Nodes, Distinct, RootSet;
    y.left := x.right;
    x.right := y;
    x.parent := y.parent;
    y.parent := x;
    SetParent(y.left, y, b, x);
  }

  /** Three nodes and four subtrees with nothing in common. */
  ghost predicate Apart3(w: Node, x: Node, y: Node, a: Tree, b: Tree, c: Tree, d: Tree) {
    var all := Nodes(a) + Nodes(b) + Nodes(c) + Nodes(d);
    && w != x && x != y && y != w && w !in all && x !in all && y !in all
    && Nodes(a) !! Nodes(b) !! Nodes(c) !! Nodes(d)
    && Distinct(a) && Distinct(b) && Distinct(c) && Distinct(d)
  }

  lemma RightLeftApart(w: Node, x: Node, y: Node, a: Tree, b: Tree, c: Tree, d: Tree)
    requires Distinct(T(y, a, T(x, T(w, b, c), d)))
    ensures Apart3(w, x, y, a, b, c, d)
  {
    assert Distinct(T(w, b, c)) && Nodes(T(w, b, c)) == {w} + Nodes(b) + Nodes(c);
  }

  lemma LeftRightApart(w: Node, x: Node, y: Node, a: Tree, b: Tree, c: Tree, d: Tree)
    requires Distinct(T(y, T(x, a, T(w, b, c)), d))
    ensures Apart3(w, x, y, a, b, c, d)
  {
    assert Distinct(T(w, b, c)) && Nodes(T(w, b, c)) == {w} + Nodes(b) + Nodes(c);
  }

  /** Balance factors after `w` came up between `x` on its left and `y` on its right. */
  method ShareBalance(w: Node, x: Node, y: Node)
    requires w != x && x != y && y != w && -1 <= w.balance <= 1
    modifies w`balance, x`balance, y`balance
    ensures w.balance == 0
    ensures x.balance == (if old(w.balance) == 1 then -1 else 0)
    ensures y.balance == (if old(w.balance) == -1 then 1 else 0)
  {
    if w.balance == -1 {
      x.balance, y.balance := 0, 1;
    } else if w.balance == 0 {
      x.balance, y.balance := 0, 0;
    } else {
      x.balance, y.balance := -1, 0;
    }
    w.balance := 0;
  }

  /** Parent pointers after `w` came up; its old subtrees `b` and `c` moved down. */
  method Reparent(w: Node, x: Node, y: Node, top: Node?, ghost a: Tree, ghost b: Tree, ghost c: Tree, ghost d: Tree)
    requires Apart3(w, x, y, a, b, c, d)
    requires Rep(a, x.left, x) && Rep(b, x.right, w) && Rep(c, y.left, w) && Rep(d, y.right, y)
    modifies w`parent, x`parent, y`parent, RootSet(b)`parent, RootSet(c)`parent
    ensures w.parent == top && x.parent == w && y.parent == w
    ensures Rep(a, x.left, x) && Rep(b, x.right, x) && Rep(c, y.left, y) && Rep(d, y.right, y)
  {
    hide Rep, Nodes, Distinct, RootSet;
    Alloc(a); Alloc(b); Alloc(c); Alloc(d);
    w.parent := top;
    x.parent := w;
    y.parent := w;
    SetParent(x.right, x, b, w);
    SetParent(y.left, y, c, w);
  }

  /** `y` heavy on the right with `x` heavy on the left: `w` comes up between. */
  method RotateRightLeft(y: Node, x: Node, w: Node, ghost a: Tree, ghost b: Tree, ghost c: Tree, ghost d: Tree)
    requires Apart3(w, x, y, a, b, c, d)
    requires y.right == x && x.left == w && w.balance == H(c) - H(b) && -1 <= w.balance <= 1
    requires Rep(a, y.left, y) && Rep(b, w.left, w) && Rep(c, w.right, w) && Rep(d, x.right, x)
    requires H(a) == H(d) == Max(H(b), H(c))
    modifies y`right, y`parent, y`balance, x`left, x`parent, x`balance
    modifies w`left, w`right, w`parent, w`balance
    modifies RootSet(b)`parent, RootSet(c)`parent
    ensures Rep(T(w, T(y, a, b), T(x, c, d)), w, old(y.parent))
  {
    hide Rep, Nodes, Distinct, RootSet, H;
    Alloc(a); Alloc(b); Alloc(c); Alloc(d);
    x.left := w.right;
    w.right := x;
    y.right := w.left;
    w.left := y;
    ShareBalance(w, y, x);
    Reparent(w, y, x, y.parent, a, b, c, d);
    FoldThree(w, y, x, a, b, c, d, w.parent);
  }

  /** The result of a double rotation, put together. */
  lemma FoldThree(w: Node, x: Node, y: Node, a: Tree, b: Tree, c: Tree, d: Tree, parent: Node?)
    requires w.left == x && w.right == y && w.parent == parent && w.balance == 0
    requires x.parent == w && x.balance == H(b) - H(a) && -1 <= x.balance <= 1
    requires y.parent == w && y.balance == H(d) - H(c) && -1 <= y.balance <= 1
    requires Rep(a, x.left, x) && Rep(b, x.right, x) && Rep(c, y.left, y) && Rep(d, y.right, y)
    requires H(a) == H(d) == Max(H(b), H(c))
    ensures Rep(T(w, T(x, a, b), T(y, c, d)), w, parent)
  {
    Fold(x, a, b, x, w);
    Fold(y, c, d, y, w);
    Fold(w, T(x, a, b), T(y, c, d), w, parent);
  }

  method RotateLeftRight(y: Node, x: Node, w: Node, ghost a: Tree, ghost b: Tree, ghost c: Tree, ghost d: Tree)
    requires Apart3(w, x, y, a, b, c, d)
    requires y.left == x && x.right == w && w.balance == H(c) - H(b) && -1 <= w.balance <= 1
    requires Rep(a, x.left, x) && Rep(b, w.left, w) && Rep(c, w.right, w) && Rep(d, y.right, y)
    requires H(a) == H(d) == Max(H(b), H(c))
    modifies y`left, y`parent, y`balance, x`right, x`parent, x`balance
    modifies w`left, w`right, w`parent, w`balance
    modifies RootSet(b)`parent, RootSet(c)`parent
    ensures Rep(T(w, T(x, a, b), T(y, c, d)), w, old(y.parent))
  {
    hide Rep, Nodes, Distinct, RootSet, H;
    Alloc(a); Alloc(b); Alloc(c); Alloc(d);
    x.right := w.left;
    w.left := x;
    y.left := w.right;
    w.right := y;
    ShareBalance(w, x, y);
    Reparent(w, x, y, y.parent, a, b, c, d);
    FoldThree(w, x, y, a, b, c, d, w.parent);
  }
}
