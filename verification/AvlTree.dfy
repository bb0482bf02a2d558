/**
  Nodes of the AVL map (map.c) and the shapes they form.

  A `Tree` is the ghost shape of a linked subtree, a `Ctx` the rest of the tree
  around a hole.  `Rep` and `CtxRep` say that the links, parent pointers and
  balance factors in memory are those of the shape.
*/
module AvlTree {
  import opened Arithmetic
  import opened StrKey

  class Node {
    var left: Node?
    var right: Node?
    var parent: Node?
    var balance: int
    const key: string
    var val: int

    constructor (key: string, parent: Node?)
      ensures this.key == key && this.parent == parent
      ensures left == null && right == null && balance == 0 && val == 0
    {
      this.key, this.parent := key, parent;
      left, right, balance, val := null, null, 0, 0;
    }
  }

  // ----- shapes -----

  datatype Tree = Leaf | T(node: Node, l: Tree, r: Tree)

  ghost function Nodes(t: Tree): set<Node> {
    if t.Leaf? then {} else {t.node} + Nodes(t.l) + Nodes(t.r)
  }

  /** No node occurs twice. */
  ghost predicate Distinct(t: Tree) {
    t.T? ==>
      && t.node !in Nodes(t.l) && t.node !in Nodes(t.r) && Nodes(t.l) !! Nodes(t.r)
      && Distinct(t.l) && Distinct(t.r)
  }

  /** A shape at hand is made of allocated nodes. */
  lemma Alloc(t: Tree)
    ensures forall n :: n in Nodes(t) ==> allocated(n)
  {
  }

  ghost function H(t: Tree): nat {
    if t.Leaf? then 0 else 1 + Max(H(t.l), H(t.r))
  }

  ghost function InOrder(t: Tree): seq<Node> {
    if t.Leaf? then [] else InOrder(t.l) + [t.node] + InOrder(t.r)
  }

  lemma AllocOrder(t: Tree)
    ensures forall i :: 0 <= i < |InOrder(t)| ==> allocated(InOrder(t)[i])
  {
  }

  ghost function Root(t: Tree): Node? {
    if t.Leaf? then null else t.node
  }

  /** The root as a set, for frames. */
  ghost function RootSet(t: Tree): (r: set<Node>)
    ensures r <= Nodes(t)
  {
    if t.Leaf? then {} else {t.node}
  }

  /** Memory at `p` is the shape `t`, hanging off `parent`, with exact balance
      factors of at most one. */
  ghost predicate Rep(t: Tree, p: Node?, parent: Node?)
    reads Nodes(t)`left, Nodes(t)`right, Nodes(t)`parent, Nodes(t)`balance
  {
    if t.Leaf? then p == null else
    && p == t.node && t.node.parent == parent
    && t.node.balance == H(t.r) - H(t.l) && -1 <= t.node.balance <= 1
    && Rep(t.l, t.node.left, t.node) && Rep(t.r, t.node.right, t.node)
  }

  /** One level of a representation, folded and unfolded. */
  lemma Fold(n: Node, l: Tree, r: Tree, p: Node?, parent: Node?)
    ensures Rep(T(n, l, r), p, parent) <==>
            && p == n && n.parent == parent
            && n.balance == H(r) - H(l) && -1 <= n.balance <= 1
            && Rep(l, n.left, n) && Rep(r, n.right, n)
  {
  }

  // ----- contexts -----

  /** A hole in a tree: `Frame(n, true, s, up)` is node `n` with its left subtree
      missing and right subtree `s`, itself in the hole of `up`. */
  datatype Ctx = Top | Frame(node: Node, goLeft: bool, sib: Tree, up: Ctx)

  ghost function CtxNodes(c: Ctx): set<Node> {
    if c.Top? then {} else {c.node} + Nodes(c.sib) + CtxNodes(c.up)
  }

  ghost predicate CtxDistinct(c: Ctx) {
    c.Frame? ==>
      && c.node !in Nodes(c.sib) && c.node !in CtxNodes(c.up) && Nodes(c.sib) !! CtxNodes(c.up)
      && Distinct(c.sib) && CtxDistinct(c.up)
  }

  /** Height of the frame's node when its hole has height `h`. */
  ghost function Over(c: Ctx, h: nat): nat
    requires c.Frame?
  {
    1 + Max(h, H(c.sib))
  }

  ghost function CtxNode(c: Ctx, top: Node?): Node? {
    if c.Top? then top else c.node
  }

  /** The pointer stored at the hole of a frame. */
  ghost function HoleLink(c: Ctx): Node?
    requires c.Frame?
    reads c.node
  {
    if c.goLeft then c.node.left else c.node.right
  }

  ghost function SibLink(c: Ctx): Node?
    requires c.Frame?
    reads c.node
  {
    if c.goLeft then c.node.right else c.node.left
  }

  /** Memory around the hole is the context, for a hole of height `h`. */
  ghost predicate CtxRep(c: Ctx, h: nat, top: Node?)
    reads CtxNodes(c)
    decreases c
  {
    c.Top? ||
    (&& c.node.parent == CtxNode(c.up, top)
     && c.node.balance == (if c.goLeft then H(c.sib) - h else h - H(c.sib))
     && -1 <= c.node.balance <= 1
     && Rep(c.sib, SibLink(c), c.node)
     && (c.up.Frame? ==> assert c.up.node in CtxNodes(c.up); HoleLink(c.up) == c.node)
     && CtxRep(c.up, Over(c, h), top))
  }

  ghost function Plug(c: Ctx, t: Tree): Tree
    decreases c
  {
    if c.Top? then t
    else if c.goLeft then Plug(c.up, T(c.node, t, c.sib))
    else Plug(c.up, T(c.node, c.sib, t))
  }

  /** Nodes before and after the hole in key order. */
  ghost function Before(c: Ctx): seq<Node> {
    if c.Top? then []
    else if c.goLeft then Before(c.up)
    else Before(c.up) + (InOrder(c.sib) + [c.node])
  }

  ghost function After(c: Ctx): seq<Node> {
    if c.Top? then []
    else if c.goLeft then ([c.node] + InOrder(c.sib)) + After(c.up)
    else After(c.up)
  }

  lemma AllocCtx(c: Ctx)
    ensures forall n :: n in CtxNodes(c) ==> allocated(n)
  {
    if c.Frame? {
      Alloc(c.sib);
      AllocCtx(c.up);
    }
  }

  lemma {:induction false} PlugOrder(c: Ctx, t: Tree)
    ensures InOrder(Plug(c, t)) == Before(c) + InOrder(t) + After(c)
    decreases c
  {
    if c.Frame? {
      PlugOrder(c.up, if c.goLeft then T(c.node, t, c.sib) else T(c.node, c.sib, t));
      if c.goLeft {
        Assoc5(Before(c.up), InOrder(t), [c.node], InOrder(c.sib), After(c.up));
      } else {
        Assoc5(Before(c.up), InOrder(c.sib), [c.node], InOrder(t), After(c.up));
      }
    }
  }

  lemma Assoc5(a: seq<Node>, b: seq<Node>, c: seq<Node>, d: seq<Node>, e: seq<Node>)
    ensures a + (b + c + d) + e == a + b + ((c + d) + e)
    ensures a + (b + c + d) + e == (a + (b + c)) + d + e
  {
  }

  lemma {:induction false} PlugNodes(c: Ctx, t: Tree)
    ensures Nodes(Plug(c, t)) == CtxNodes(c) + Nodes(t)
    decreases c
  {
    if c.Frame? {
      PlugNodes(c.up, if c.goLeft then T(c.node, t, c.sib) else T(c.node, c.sib, t));
    }
  }

  lemma {:induction false} PlugDistinct(c: Ctx, t: Tree)
    ensures Distinct(Plug(c, t)) <==> Distinct(t) && CtxDistinct(c) && Nodes(t) !! CtxNodes(c)
    decreases c
  {
    if c.Frame? {
      PlugDistinct(c.up, if c.goLeft then T(c.node, t, c.sib) else T(c.node, c.sib, t));
    }
  }

  /** The pointer stored at the hole, given the one the whole tree hangs on. */
  ghost function Hole(c: Ctx, root: Node?): Node?
    reads CtxNodes(c)
  {
    if c.Top? then root else HoleLink(c)
  }

  /** The topmost node of a context, or the tree in the hole. */
  ghost function Head(c: Ctx, p: Node?): Node?
    decreases c
  {
    if c.Top? then p else Head(c.up, c.node)
  }

  /** A represented tree is a represented context around a represented subtree. */
  lemma {:induction false} PlugRep(c: Ctx, t: Tree, root: Node?, top: Node?)
    ensures Rep(Plug(c, t), root, top) <==>
            && Rep(t, Hole(c, root), CtxNode(c, top)) && CtxRep(c, H(t), top)
            && (c.Frame? ==> Head(c, null) == root)
    decreases c
  {
    if c.Frame? {
      hide Rep, CtxRep, Head;
      OneFrame(c, t, root, top);
      PlugRep(c.up, Fill(c, t), root, top);
    }
  }

  /** A frame with its hole filled. */
  ghost function Fill(c: Ctx, t: Tree): Tree
    requires c.Frame?
  {
    if c.goLeft then T(c.node, t, c.sib) else T(c.node, c.sib, t)
  }

  lemma OneFrame(c: Ctx, t: Tree, root: Node?, top: Node?)
    requires c.Frame?
    ensures H(Fill(c, t)) == Over(c, H(t))
    ensures Rep(t, HoleLink(c), c.node) && CtxRep(c, H(t), top) && Head(c, null) == root <==>
            && Rep(Fill(c, t), Hole(c.up, root), CtxNode(c.up, top))
            && CtxRep(c.up, H(Fill(c, t)), top) && (c.up.Frame? ==> Head(c.up, null) == root)
  {
    if c.up.Frame? {
      HeadAnyLeaf(c.up, null, c.node);
    }
  }

  lemma HeadAnyLeaf(c: Ctx, p: Node?, q: Node?)
    requires c.Frame?
    ensures Head(c, p) == Head(c, q)
  {
  }

  /** Finds a node in a shape. */
  lemma {:induction false} Locate(c: Ctx, t: Tree, p: Node) returns (c': Ctx, t': Tree)
    requires p in Nodes(t)
    ensures Plug(c', t') == Plug(c, t) && t'.T? && t'.node == p
    decreases t
  {
    if t.node == p {
      c', t' := c, t;
    } else if p in Nodes(t.l) {
      c', t' := Locate(Frame(t.node, true, t.r, c), t.l, p);
    } else {
      c', t' := Locate(Frame(t.node, false, t.l, c), t.r, p);
    }
  }

  // ----- the leftmost node of a subtree -----

  /** The way down to a leftmost node: each step has its right subtree. */
  datatype Trail = End | Step(node: Node, sib: Tree, rest: Trail)

  ghost function LeftTrail(t: Tree): Trail
    requires t.T?
  {
    if t.l.Leaf? then End else Step(t.node, t.r, LeftTrail(t.l))
  }

  /** The subtree at the end of the way. */
  ghost function Leftmost(t: Tree): (s: Tree)
    requires t.T?
    ensures s.T? && s.l.Leaf?
  {
    if t.l.Leaf? then t else Leftmost(t.l)
  }

  ghost function TrailNodes(w: Trail): set<Node> {
    if w.End? then {} else {w.node} + Nodes(w.sib) + TrailNodes(w.rest)
  }

  ghost predicate TrailDistinct(w: Trail) {
    w.Step? ==>
      && w.node !in Nodes(w.sib) && w.node !in TrailNodes(w.rest) && Nodes(w.sib) !! TrailNodes(w.rest)
      && Distinct(w.sib) && TrailDistinct(w.rest)
  }

  ghost function TrailH(w: Trail, h: nat): nat {
    if w.End? then h else 1 + Max(TrailH(w.rest, h), H(w.sib))
  }

  ghost function TrailOrder(w: Trail): seq<Node> {
    if w.End? then [] else TrailOrder(w.rest) + [w.node] + InOrder(w.sib)
  }

  /** The node above the end of the way. */
  ghost function TrailLast(w: Trail, above: Node?): Node? {
    if w.End? then above else TrailLast(w.rest, w.node)
  }

  /** Memory at `p` is the way down to `s`, with a subtree of height `h` there. */
  ghost predicate TrailRep(w: Trail, p: Node?, parent: Node?, h: nat, s: Node?)
    reads TrailNodes(w)
  {
    if w.End? then p == s else
    && p == w.node && w.node.parent == parent
    && w.node.balance == H(w.sib) - TrailH(w.rest, h) && -1 <= w.node.balance <= 1
    && Rep(w.sib, w.node.right, w.node) && TrailRep(w.rest, w.node.left, w.node, h, s)
  }

  lemma {:induction false} TrailShape(t: Tree)
    requires t.T?
    ensures Nodes(t) == TrailNodes(LeftTrail(t)) + Nodes(Leftmost(t))
    ensures InOrder(t) == InOrder(Leftmost(t)) + TrailOrder(LeftTrail(t))
    ensures TrailH(LeftTrail(t), H(Leftmost(t))) == H(t)
    ensures Distinct(t) ==>
              && TrailDistinct(LeftTrail(t)) && Distinct(Leftmost(t))
              && TrailNodes(LeftTrail(t)) !! Nodes(Leftmost(t))
  {
    if t.l.T? {
      TrailShape(t.l);
    }
  }

  lemma {:induction false} TrailIs(t: Tree, p: Node?, parent: Node?)
    requires t.T? && Rep(t, p, parent)
    ensures TrailRep(LeftTrail(t), p, parent, H(Leftmost(t)), Leftmost(t).node)
    ensures Rep(Leftmost(t), Leftmost(t).node, TrailLast(LeftTrail(t), parent))
  {
    if t.l.T? {
      TrailIs(t.l, t.node.left, t.node);
      TrailShape(t.l);
    }
  }

  lemma Assoc4(a: seq<Node>, b: seq<Node>, c: seq<Node>, d: seq<Node>)
    ensures a + ((b + c) + d) == (a + b + c) + d
  {
  }

  /** The context at the end of the way, itself below `c`. */
  ghost function Extend(c: Ctx, w: Trail): Ctx
    decreases w
  {
    if w.End? then c else Extend(Frame(w.node, true, w.sib, c), w.rest)
  }

  lemma {:induction false} ExtendShape(c: Ctx, w: Trail)
    ensures CtxNodes(Extend(c, w)) == CtxNodes(c) + TrailNodes(w)
    ensures Before(Extend(c, w)) == Before(c)
    ensures After(Extend(c, w)) == TrailOrder(w) + After(c)
    ensures CtxNode(Extend(c, w), null) == TrailLast(w, CtxNode(c, null))
    ensures w.Step? ==> Extend(c, w).Frame? && Extend(c, w).goLeft
    decreases w
  {
    if w.Step? {
      var f := Frame(w.node, true, w.sib, c);
      ExtendShape(f, w.rest);
      Assoc4(TrailOrder(w.rest), [w.node], InOrder(w.sib), After(c));
    }
  }

  lemma {:induction false} LeftmostFirst(t: Tree)
    requires t.T?
    ensures InOrder(t) != [] && InOrder(t)[0] == Leftmost(t).node
  {
    if t.l.T? {
      LeftmostFirst(t.l);
    }
  }

  /** The subtree at the end of the way right. */
  ghost function Rightmost(t: Tree): (s: Tree)
    requires t.T?
    ensures s.T? && s.r.Leaf?
  {
    if t.r.Leaf? then t else Rightmost(t.r)
  }

  lemma {:induction false} RightmostLast(t: Tree)
    requires t.T?
    ensures InOrder(t) != [] && InOrder(t)[|InOrder(t)| - 1] == Rightmost(t).node
  {
    if t.r.T? {
      RightmostLast(t.r);
    }
  }

  // ----- links alone -----

  /** Memory at `p` has the links of the shape; parents and balance may be stale. */
  ghost predicate Bare(t: Tree, p: Node?)
    reads Nodes(t)`left, Nodes(t)`right
  {
    if t.Leaf? then p == null else p == t.node && Bare(t.l, p.left) && Bare(t.r, p.right)
  }

  lemma {:induction false} RepIsBare(t: Tree, p: Node?, parent: Node?)
    requires Rep(t, p, parent)
    ensures Bare(t, p)
  {
    if t.T? {
      RepIsBare(t.l, t.node.left, t.node);
      RepIsBare(t.r, t.node.right, t.node);
    }
  }

  // ----- how high a balanced tree can get -----

  function Fib(n: nat): nat {
    if n < 2 then n else Fib(n - 1) + Fib(n - 2)
  }

  lemma {:induction false} FibMonotone(m: nat, n: nat)
    requires m <= n
    ensures Fib(m) <= Fib(n)
    decreases n - m
  {
    if m < n {
      FibMonotone(m + 1, n);
      if m >= 1 {
        assert Fib(m + 1) == Fib(m) + Fib(m - 1);
      }
    }
  }

  /** A balanced tree of height h has at least Fib(h + 2) - 1 nodes. */
  lemma {:induction false} Sparse(t: Tree, p: Node?, parent: Node?)
    requires Rep(t, p, parent)
    ensures |InOrder(t)| >= Fib(H(t) + 2) - 1
  {
    hide Fib, Rep, H, InOrder, Max;
    if t.Leaf? {
      LeafSize();
    } else {
      TreeSize(t);
      Fold(t.node, t.l, t.r, p, parent);
      Sparse(t.l, t.node.left, t.node);
      Sparse(t.r, t.node.right, t.node);
      FibSum(H(t), H(t.l), H(t.r));
    }
  }

  lemma LeafSize()
    ensures H(Leaf) == 0 && InOrder(Leaf) == [] && Fib(2) == 1
  {
  }

  lemma TreeSize(t: Tree)
    requires t.T?
    ensures H(t) == 1 + Max(H(t.l), H(t.r)) && |InOrder(t)| == |InOrder(t.l)| + 1 + |InOrder(t.r)|
  {
  }

  lemma FibSum(h: nat, a: nat, b: nat)
    requires h == 1 + Max(a, b) && -1 <= a - b <= 1
    ensures Fib(h + 2) <= Fib(a + 2) + Fib(b + 2)
  {
    FibMonotone(h, a + 2);
    FibMonotone(h, b + 2);
    assert Fib(h + 2) == Fib(h + 1) + Fib(h);
  }
}
