/**
  The AVL map (map.c): lookup, insertion, deletion, iteration and teardown on
  linked nodes with parent pointers, refining a mathematical map.
*/
module AvlMap {
  import opened Arithmetic
  import opened StrKey
  import opened AvlTree
  import opened AvlRotate
  import opened AvlFix
  import opened AvlModel

  class AvlTable {
    var root: Node?
    var count: nat
    ghost var tree: Tree

    /** The links, parents and balance factors are those of the shape, the keys are
        in order and the count is right. */
    ghost predicate Valid()
      reads this, Nodes(tree)
    {
      && Rep(tree, root, null) && Distinct(tree)
      && Ordered(InOrder(tree)) && count == |InOrder(tree)|
    }

    /** The map this table stands for. */
    ghost function Model(): map<Key, int>
      reads this, InOrder(tree)`val
    {
      Denote(InOrder(tree))
    }

    /** Memory around the hole is context `c`, with the balance factors for a
        hole of height `h`, and `p` is stored at the hole. */
    ghost predicate Above(c: Ctx, h: nat, p: Node?)
      reads this, CtxNodes(c)
    {
      && CtxRep(c, h, null) && CtxDistinct(c) && Hole(c, root) == p
      && (c.Frame? ==> Head(c, null) == root)
    }

    /** Memory is context `c` around subtree `t`. */
    ghost predicate Zip(c: Ctx, h: nat, t: Tree)
      reads this, CtxNodes(c), Nodes(t)
    {
      && Above(c, h, Root(t)) && Rep(t, Root(t), CtxNode(c, null))
      && Distinct(t) && Nodes(t) !! CtxNodes(c)
    }

    constructor ()
      ensures Valid() && count == 0 && tree == Leaf && Model() == map[]
    {
      root, count, tree := null, 0, Leaf;
    }

    // ----- lookup -----

    /** The search loop of map_find and map_remove. */
    method Search(key: string) returns (p: Node?, ghost steps: nat)
      requires Valid()
      ensures p == null <==> Canon(key) !in Model()
      ensures p != null ==> p in Nodes(tree) && Canon(p.key) == Canon(key) && Model()[Canon(key)] == p.val
      ensures steps <= H(tree) && Fib(steps + 2) - 1 <= count
    {
      hide CtxRep, Distinct, CtxDistinct, Nodes, CtxNodes, Head, Above, InOrder,
           Before, After, Ordered, Denote, Fits, StrCmp, Canon, H;
      ghost var c, t := Top, tree;
      Bounded();
      TopOrder();
      p := root;
      steps := 0;
      while p != null
        invariant Valid()
        invariant Plug(c, t) == tree && Rep(t, p, CtxNode(c, null)) && Fits(Before(c), key, After(c))
        invariant steps + H(t) <= H(tree)
        decreases t
      {
        steps := steps + 1;
        Stepping(c, t, key);
        var cmp := StrCmp(key, p.key);
        if cmp == 0 {
          Found(c, t, key);
          break;
        }
        if cmp < 0 {
          p, c, t := p.left, Frame(p, true, t.r, c), t.l;
        } else {
          p, c, t := p.right, Frame(p, false, t.l, c), t.r;
        }
      }
      if p == null {
        NotFound(c, t, key);
      }
      FibMonotone(steps + 2, H(tree) + 2);
    }

    lemma Bounded()
      requires Valid()
      ensures Fib(H(tree) + 2) - 1 <= count
    {
      Sparse(tree, root, null);
    }

    lemma TopOrder()
      requires Valid()
      ensures Plug(Top, tree) == tree && Rep(tree, root, null)
      ensures forall key :: Fits(Before(Top), key, After(Top))
    {
    }

    lemma Stepping(c: Ctx, t: Tree, key: string)
      requires Valid() && Plug(c, t) == tree && t.T? && Fits(Before(c), key, After(c))
      ensures StrCmp(key, t.node.key) < 0 ==>
                var c' := Frame(t.node, true, t.r, c); Fits(Before(c'), key, After(c'))
      ensures StrCmp(key, t.node.key) > 0 ==>
                var c' := Frame(t.node, false, t.l, c); Fits(Before(c'), key, After(c'))
      ensures Plug(Frame(t.node, true, t.r, c), t.l) == tree
      ensures Plug(Frame(t.node, false, t.l, c), t.r) == tree
      ensures H(t) == 1 + Max(H(t.l), H(t.r))
    {
      hide Rep, Distinct, InOrder, Before, After, Fits, StrCmp, Ordered;
      PlugOrder(c, t);
      SearchStep(c, t, key);
    }

    lemma Found(c: Ctx, t: Tree, key: string)
      requires Valid() && Plug(c, t) == tree && t.T? && StrCmp(key, t.node.key) == 0
      ensures t.node in Nodes(tree) && Canon(t.node.key) == Canon(key)
      ensures Canon(key) in Model() && Model()[Canon(key)] == t.node.val
    {
      hide Rep, Distinct, InOrder, Before, After, StrCmp, Ordered, Canon, Denote;
      CmpZero(key, t.node.key);
      PlugOrder(c, t);
      PlugNodes(c, t);
      SplitOrder(c, t, InOrder(tree));
      DenoteAt(InOrder(tree), |Before(c) + InOrder(t.l)|);
    }

    lemma NotFound(c: Ctx, t: Tree, key: string)
      requires Valid() && Plug(c, t) == tree && Fits(Before(c), key, After(c)) && Rep(t, null, CtxNode(c, null))
      ensures t.Leaf? && Canon(key) !in Model() && InOrder(tree) == Before(c) + After(c)
    {
      PlugOrder(c, t);
      assert t.Leaf?;
      hide Rep, Distinct, Before, After, StrCmp, Ordered, Canon, Denote, Fits, Plug;
      assert InOrder(t) == [];
      assert InOrder(tree) == Before(c) + After(c);
      FitsUnbound(Before(c), key, After(c));
    }

    /** map_find */
    method Find(key: string) returns (slot: Node?)
      requires Valid()
      ensures slot == null <==> Canon(key) !in Model()
      ensures slot != null ==> slot in Nodes(tree) && Canon(slot.key) == Canon(key) && Model()[Canon(key)] == slot.val
    {
      ghost var steps;
      slot, steps := Search(key);
    }

    /** map_remove: the value of the removed key, or nothing. */
    method Remove(key: string) returns (val: int)
      requires Valid()
      modifies this, Nodes(tree)`left, Nodes(tree)`right, Nodes(tree)`parent, Nodes(tree)`balance
      ensures Valid() && Model() == old(Model()) - {Canon(key)}
      ensures val == (if Canon(key) in old(Model()) then old(Model()[Canon(key)]) else 0)
      ensures count == old(count) - if Canon(key) in old(Model()) then 1 else 0
    {
      hide Rep, Distinct, Nodes, InOrder, Ordered, Denote, Canon, StrCmp, H;
      Alloc(tree);
      ghost var m := Model();
      var p;
      ghost var steps, i;
      AllocOrder(tree);
      p, steps := Search(key);
      assert Model() == m;
      if p == null {
        val := 0;
      } else {
        val, i := DeleteNode(p);
      }
    }

    // ----- insertion -----

    /** `y` is the lowest node above the hole that leans, or the root: below it
        the path is level. */
    ghost predicate Leaning(c: Ctx, y: Node?)
      reads CtxNodes(c)`balance
      decreases c
    {
      c.Frame? &&
      if c.node == y then c.node.balance != 0 || c.up.Top?
      else c.node.balance == 0 && Leaning(c.up, y)
    }

    /** The descent of map_get: the node with the key, or the place for it. */
    method FindPlace(key: string)
      returns (p: Node?, q: Node?, left: bool, y: Node?, ghost c: Ctx, ghost t: Tree)
      requires Valid()
      ensures Valid() && Plug(c, t) == tree && Rep(t, p, q) && q == CtxNode(c, null)
      ensures Fits(Before(c), key, After(c)) && (c.Frame? ==> left == c.goLeft)
      ensures p == null <==> Canon(key) !in Model()
      ensures p != null ==> t.T? && StrCmp(key, p.key) == 0
      ensures if c.Top? then y == root else Leaning(c, y)
    {
      hide CtxRep, Distinct, CtxDistinct, Nodes, CtxNodes, Head, Above, InOrder,
           Before, After, Ordered, Denote, Fits, StrCmp, Canon, H;
      c, t := Top, tree;
      TopOrder();
      y, q, p, left := root, null, root, true;
      while p != null
        invariant Valid()
        invariant Plug(c, t) == tree && Rep(t, p, q) && q == CtxNode(c, null)
        invariant Fits(Before(c), key, After(c)) && (c.Frame? ==> left == c.goLeft)
        invariant if c.Top? then p == root == y else Leaning(c, y)
        decreases t
      {
        Stepping(c, t, key);
        if c.Frame? {
          LeaningApart(c, t, y);
        }
        var cmp := StrCmp(key, p.key);
        if cmp == 0 {
          Found(c, t, key);
          return;
        }
        left := cmp < 0;
        if p.balance != 0 {
          y := p;
        }
        q := p;
        c, t := Frame(p, left, if left then t.r else t.l, c), if left then t.l else t.r;
        p := if left then p.left else p.right;
      }
      NotFound(c, t, key);
    }

    lemma LeaningApart(c: Ctx, t: Tree, y: Node?)
      requires Valid() && Plug(c, t) == tree && t.T? && c.Frame? && Leaning(c, y)
      ensures t.node != y
    {
      PlugDistinct(c, t);
      LeaningIn(c, y);
    }

    lemma {:induction false} LeaningIn(c: Ctx, y: Node?)
      requires Leaning(c, y)
      ensures y in CtxNodes(c)
      decreases c
    {
      if c.node != y {
        LeaningIn(c.up, y);
      }
    }

    /** State of the climb of map_get at `p`: below `y` the subtree has grown a
        level; at `y` the climb ends with a node that may be off by two. */
    ghost predicate Climbing(c: Ctx, h: nat, t: Tree, p: Node, y: Node?)
      reads this, CtxNodes(c), Nodes(t)
    {
      if p != y then
        && Zip(c, h, t) && Root(t) == p && H(t) == h + 1 && Leaning(c, y)
        && (p.balance != 0 || H(t) == 1)
      else
        Arrived(c, h, t, p)
    }

    ghost predicate Arrived(c: Ctx, h: nat, t: Tree, y: Node)
      reads this, CtxNodes(c), Nodes(t)
    {
      && Above(c, h, y) && RepRoot(t, y, CtxNode(c, null)) && Distinct(t) && Nodes(t) !! CtxNodes(c)
      && (-1 <= y.balance <= 1 ==> H(t) == h || c.Top?)
      && (y.balance == 2 ==> H(t) == h + 1 && t.r.T? && t.r.node.balance != 0)
      && (y.balance == -2 ==> H(t) == h + 1 && t.l.T? && t.l.node.balance != 0)
    }

    /** One step of the climb. */
    method Climb(p: Node, y: Node?, ghost c: Ctx, ghost h: nat, ghost t: Tree) returns (q: Node)
      requires Climbing(c, h, t, p, y) && p != y
      modifies CtxNodes(c)`balance
      ensures c.Frame? && q == c.node && Climbing(c.up, Over(c, h), Fill(c, t), q, y)
    {
      hide Rep, CtxRep, Distinct, CtxDistinct, Nodes, CtxNodes, Head, Above, H, Zip, InOrder, RepRoot;
      GrownFacts(c, h, t, y);
      q := p.parent;
      var left := q.left == p;
      SideOf(q, p, c, h);
      Alloc(t); AllocCtx(c);
      ShiftedNodes(c, t);
      Lean(q, if left then -1 else 1, c, h, t);
      FrameNodes(c, t);
      if q != y {
        Settled(c.up, Over(c, h), q, Fill(c, t));
      }
    }

    /** map_get: the existing slot of a key, or a new one with the balance restored
        by at most one rotation. */
    method Get(key: string) returns (slot: Node, ghost i: nat)
      requires Valid()
      modifies this, Nodes(tree)`left, Nodes(tree)`right, Nodes(tree)`parent, Nodes(tree)`balance
      ensures Valid() && slot in Nodes(tree) && Canon(slot.key) == Canon(key)
      ensures Canon(key) in old(Model()) ==>
                tree == old(tree) && count == old(count) && Model() == old(Model()) && slot.val == Model()[Canon(key)]
      ensures Canon(key) !in old(Model()) ==>
                && fresh(slot) && slot.key == key && slot.val == 0 && count == old(count) + 1
                && i <= |old(InOrder(tree))|
                && InOrder(tree) == old(InOrder(tree)[..i]) + [slot] + old(InOrder(tree)[i..])
                && Nodes(tree) == old(Nodes(tree)) + {slot}
                && Model() == old(Model())[Canon(key) := 0]
    {
      hide CtxRep, Distinct, CtxDistinct, Nodes, CtxNodes, Head, Above, H, Zip, InOrder, RepRoot, Rep,
           Before, After, Ordered, Denote, Fits, StrCmp, Canon, Plug;
      Alloc(tree);
      AllocOrder(tree);
      ghost var m, order, s := Model(), InOrder(tree), Nodes(tree);
      var p, q, left, y;
      ghost var c, t;
      i := 0;
      p, q, left, y, c, t := FindPlace(key);
      assert Model() == m;
      if p != null {
        RepRoots(t, p, q);
        Found(c, t, key);
        slot := p;
        return;
      }
      NotFound(c, t, key);
      TopOrder();
      Opened(c, t);
      AllocCtx(c);
      LeafNodes();
      var n := Link(key, q, left, c);
      slot := n;
      i := |Before(c)|;
      ghost var t0 := T(n, Leaf, Leaf);
      One(n, Leaf, Leaf);
      if root == n {
        ZipTop(c, 0, t0);
        ZipSame(c, 0, t0);
        tree := Plug(c, t0);
      } else {
        tree := Grown(n, y, c, t0, s + {n});
      }
      Inserted(c, n, order, tree, s);
      FitsOrdered(Before(c), n, After(c));
      DenoteInsert(Before(c), n, After(c));
      assert Denote(order) == m;
    }

    /** The new node, linked at the hole. */
    method Link(key: string, q: Node?, left: bool, ghost c: Ctx) returns (n: Node)
      requires Valid() && Plug(c, Leaf) == tree && q == CtxNode(c, null) && (c.Frame? ==> left == c.goLeft)
      modifies this`root, this`count, CtxNodes(c)`left, CtxNodes(c)`right
      ensures fresh(n) && n.key == key && n.val == 0 && n.balance == 0 && count == old(count) + 1
      ensures Zip(c, 0, T(n, Leaf, Leaf)) && (c.Top? <==> root == n)
    {
      hide CtxRep, Distinct, CtxDistinct, Nodes, CtxNodes, Head, Above, InOrder, Rep, Zip, Ordered, Plug, H;
      LinkFacts(c);
      AllocCtx(c);
      n := new Node(key, q);
      count := count + 1;
      SetHole(q, left, n, c, 0, null);
      SingleRep(n, q);
      ZipIs(c, 0, T(n, Leaf, Leaf));
      LinkRoot(c, n);
    }

    lemma LinkFacts(c: Ctx)
      requires Valid() && Plug(c, Leaf) == tree
      ensures Above(c, 0, null)
    {
      assert Plug(Top, tree) == tree;
      Opened(c, Leaf);
    }

    lemma LinkRoot(c: Ctx, n: Node)
      requires Above(c, 0, n) && n !in CtxNodes(c)
      ensures c.Top? <==> root == n
    {
      if c.Frame? {
        HeadIn(c);
      }
    }

    /** The climb and the rotation of map_get. */
    method Grown(n: Node, y: Node?, ghost c0: Ctx, ghost t0: Tree, ghost s: set<Node>) returns (ghost t': Tree)
      requires Zip(c0, 0, t0) && t0 == T(n, Leaf, Leaf) && c0.Frame? && Leaning(c0, y)
      requires CtxNodes(c0) + Nodes(t0) <= s
      modifies this`root, s`left, s`right, s`parent, s`balance
      ensures Rep(t', root, null) && Same(Plug(c0, t0), t')
    {
      hide CtxRep, Distinct, CtxDistinct, Nodes, CtxNodes, Head, Above, H, Zip, InOrder, RepRoot, Rep,
           Plug, Same, Leaning, Arrived;
      ghost var c, h, t := c0, 0, t0;
      var p: Node := n;
      StartClimb(c, t, n, y);
      while p != y
        invariant Climbing(c, h, t, p, y) && Same(Plug(c0, t0), Plug(c, t)) && CtxNodes(c) + Nodes(t) <= s
        decreases c
      {
        FrameOf(c, y, h, t, p);
        SamePlug(c0, t0, c, t, Fill(c, t), s);
        p := Climb(p, y, c, h, t);
        c, h, t := c.up, Over(c, h), Fill(c, t);
      }
      ArrivedFacts(c, h, t, p);
      var q := y.parent;
      var left := IsLeft(q, y);
      SideOf(q, y, c, h);
      ghost var lower;
      ghost var t1;
      t1, lower := Rebalance(y, q, left, c, h, t, s);
      SameWhole(c0, t0, c, t, t1);
      if c.Top? && !lower && H(t1) != h {
        ZipTop(c, h, t1);
      } else {
        ZipRep(c, t1);
      }
      t' := Plug(c, t1);
    }

    lemma StartClimb(c: Ctx, t: Tree, n: Node, y: Node?)
      requires Zip(c, 0, t) && t == T(n, Leaf, Leaf) && c.Frame? && Leaning(c, y)
      ensures Climbing(c, 0, t, n, y) && n != y && Same(Plug(c, t), Plug(c, t))
    {
      LeaningIn(c, y);
      ZipSame(c, 0, t);
    }

    lemma FrameOf(c: Ctx, y: Node?, h: nat, t: Tree, p: Node)
      requires Climbing(c, h, t, p, y) && p != y
      ensures c.Frame? && Same(Fill(c, t), Fill(c, t))
    {
      OneMore(c, t);
    }

    lemma ArrivedFacts(c: Ctx, h: nat, t: Tree, y: Node)
      requires Arrived(c, h, t, y)
      ensures Above(c, h, y) && RepRoot(t, y, CtxNode(c, null)) && Distinct(t) && Nodes(t) !! CtxNodes(c)
      ensures y.parent == CtxNode(c, null) && y !in CtxNodes(c)
      ensures -2 <= y.balance <= 2
      ensures -1 <= y.balance <= 1 ==> H(t) == h || c.Top?
      ensures y.balance == 2 ==> H(t) == h + 1 && Child(y.right) != 0
      ensures y.balance == -2 ==> H(t) == h + 1 && Child(y.left) != 0
    {
    }

    /** map_put: binds the key and returns the value it replaced, if another. */
    method Put(key: string, item: int) returns (ret: int)
      requires Valid()
      modifies this, Nodes(tree)
      ensures Valid() && Model() == old(Model())[Canon(key) := item]
      ensures var was := if Canon(key) in old(Model()) then old(Model()[Canon(key)]) else 0;
              ret == if was == item then 0 else was
      ensures count == old(count) + if Canon(key) in old(Model()) then 0 else 1
    {
      hide Rep, Distinct, Nodes, InOrder, Ordered, Denote, Canon, StrCmp, Plug, Before, After;
      ghost var m := Model();
      ghost var i;
      var p;
      p, i := Get(key);
      ret := p.val;
      ghost var k, m1 := Canon(key), Model();
      assert m1[k := item] == m[k := item];
      ghost var c, t := Locate(Top, tree, p);
      Opened(c, t);
      ghost var a, b := Before(c) + InOrder(t.l), InOrder(t.r) + After(c);
      SplitOrder(c, t, InOrder(tree));
      DenoteInsert(a, p, b);
      OnlyOnce(a, p, b);
      AllocOrder(tree);
      ghost var others := Denote(a + b);
      assert forall j :: 0 <= j < |a + b| ==>
               (a + b)[j] == InOrder(tree)[if j < |a| then j else j + 1] && (a + b)[j] != p;
      Rebind(p, item);
      assert Denote(a + b) == others;
      assert m1[k := item] == others[k := item];
      DenoteInsert(a, p, b);
      ret := if ret == item then 0 else ret;
    }

    /** Only the value of a node changes. */
    method Rebind(p: Node, item: int)
      requires Valid() && p in Nodes(tree)
      modifies p`val
      ensures Valid() && p.val == item
    {
      hide Rep, Distinct, Nodes, InOrder, Ordered;
      p.val := item;
    }

    lemma GrownFacts(c: Ctx, h: nat, t: Tree, y: Node?)
      requires Zip(c, h, t) && t.T? && Leaning(c, y)
      ensures c.Frame? && t.node.parent == c.node && Above(c, h, t.node) && t.node !in CtxNodes(c)
      ensures c.node in CtxNodes(c) && CtxNodes(c.up) <= CtxNodes(c) && c.node !in Nodes(t) && c.node !in CtxNodes(c.up)
      ensures if c.node == y then c.node.balance != 0 || c.up.Top? else c.node.balance == 0 && Leaning(c.up, y)
    {
    }

    // ----- iteration -----

    /** map_first */
    method First() returns (n: Node?)
      requires Valid()
      ensures n == if count == 0 then null else InOrder(tree)[0]
      ensures n != null ==> n in Nodes(tree) && forall x :: x in Nodes(tree) && x != n ==> Precedes(n.key, x.key)
    {
      hide Rep, Distinct, Ordered, Leftmost, InOrder, Nodes, Precedes;
      EndsOfOrder();
      RootOrNull();
      n := root;
      if n != null {
        LeftmostFirst(tree);
        n := FindLeftmost(n, tree, null);
      }
    }

    /** map_last */
    method Last() returns (n: Node?)
      requires Valid()
      ensures n == if count == 0 then null else InOrder(tree)[count - 1]
      ensures n != null ==> n in Nodes(tree) && forall x :: x in Nodes(tree) && x != n ==> Precedes(x.key, n.key)
    {
      hide Rep, Distinct, Ordered, Rightmost, InOrder, Nodes, Precedes;
      EndsOfOrder();
      RootOrNull();
      n := root;
      if n != null {
        RightmostLast(tree);
        n := FindRightmost(n, tree, null);
      }
    }

    /** The first node precedes and the last one follows all others. */
    lemma EndsOfOrder()
      requires Valid()
      ensures Ascending(InOrder(tree)) && forall x :: x in InOrder(tree) <==> x in Nodes(tree)
      ensures count > 0 ==>
                var n := InOrder(tree)[0];
                n in Nodes(tree) && forall x :: x in Nodes(tree) && x != n ==> Precedes(n.key, x.key)
      ensures count > 0 ==>
                var n := InOrder(tree)[count - 1];
                n in Nodes(tree) && forall x :: x in Nodes(tree) && x != n ==> Precedes(x.key, n.key)
    {
      hide Rep, Distinct, Ordered, InOrder, Nodes, Precedes;
      Alloc(tree);
      AllocOrder(tree);
      var order := InOrder(tree);
      OrderedAscends(order);
      OrderNodes(tree);
      if count > 0 {
        assert order[0] in order && order[count - 1] in order;
        forall x | x in Nodes(tree)
          ensures x != order[0] ==> Precedes(order[0].key, x.key)
          ensures x != order[count - 1] ==> Precedes(x.key, order[count - 1].key)
        {
          var i :| 0 <= i < |order| && order[i] == x;
        }
      }
    }

    lemma RootOrNull()
      requires Valid()
      ensures root == null <==> count == 0
      ensures root == null <==> tree.Leaf?
    {
    }

    /** iterator_next: the node after `n` in key order, or null at the end. */
    method Next(n: Node, ghost i: nat) returns (r: Node?)
      requires Valid() && i < count && InOrder(tree)[i] == n
      ensures r == if i + 1 < count then InOrder(tree)[i + 1] else null
    {
      hide CtxRep, Distinct, CtxDistinct, Nodes, CtxNodes, Head, Above, InOrder, Rep, Zip,
           Before, After, Ordered, Plug, Leftmost, H;
      ghost var c, t := Cursor(n, i);
      Target(c, t);
      RepRoots(t.r, n.right, n);
      if n.right != null {
        LeftmostFirst(t.r);
        r := FindLeftmost(n.right, t.r, n);
      } else {
        LeafNodes();
        r := n.parent;
        var p: Node := n;
        ghost var h := H(t);
        while r != null && p != r.left
          invariant Valid() && Above(c, h, p) && p !in CtxNodes(c) && r == CtxNode(c, null)
          invariant InOrder(tree)[i + 1..] == After(c)
          decreases c
        {
          SideOf(r, p, c, h);
          ClimbFacts(c, h, p);
          p := r;
          r := r.parent;
          c, h := c.up, Over(c, h);
        }
        if r != null {
          SideOf(r, p, c, h);
        }
        AfterHead(c);
      }
    }

    /** iterator_prev */
    method Prev(n: Node, ghost i: nat) returns (r: Node?)
      requires Valid() && i < count && InOrder(tree)[i] == n
      ensures r == if i > 0 then InOrder(tree)[i - 1] else null
    {
      hide CtxRep, Distinct, CtxDistinct, Nodes, CtxNodes, Head, Above, InOrder, Rep, Zip,
           Before, After, Ordered, Plug, Rightmost, H;
      ghost var c, t := Cursor(n, i);
      Target(c, t);
      RepRoots(t.l, n.left, n);
      if n.left != null {
        RightmostLast(t.l);
        r := FindRightmost(n.left, t.l, n);
      } else {
        LeafNodes();
        r := n.parent;
        var p: Node := n;
        ghost var h := H(t);
        while r != null && p != r.right
          invariant Valid() && Above(c, h, p) && p !in CtxNodes(c) && r == CtxNode(c, null)
          invariant InOrder(tree)[..i] == Before(c)
          decreases c
        {
          RightSide(r, p, c, h);
          ClimbFacts(c, h, p);
          p := r;
          r := r.parent;
          c, h := c.up, Over(c, h);
        }
        if r != null {
          RightSide(r, p, c, h);
        }
        BeforeLast(c);
      }
    }

    /** A node's place in the shape. */
    lemma Cursor(n: Node, i: nat) returns (c: Ctx, t: Tree)
      requires Valid() && i < count && InOrder(tree)[i] == n
      ensures t.T? && t.node == n && Zip(c, H(t), t)
      ensures InOrder(tree)[..i] == Before(c) + InOrder(t.l)
      ensures InOrder(tree)[i + 1..] == InOrder(t.r) + After(c)
    {
      OrderNodes(tree);
      hide Rep, Distinct, Ordered, Plug, Before, After, InOrder, H;
      c, t := Locate(Top, tree, n);
      Opened(c, t);
      SplitOrder(c, t, InOrder(tree));
      OrderedDistinct(InOrder(tree), i, |Before(c) + InOrder(t.l)|);
    }

    lemma ClimbFacts(c: Ctx, h: nat, p: Node)
      requires Above(c, h, p) && c.Frame?
      ensures c.node.parent == CtxNode(c.up, null) && Above(c.up, Over(c, h), c.node) && c.node !in CtxNodes(c.up)
      ensures !c.goLeft ==> After(c.up) == After(c)
      ensures c.goLeft ==> Before(c.up) == Before(c)
    {
      Ascend(c, h, p);
    }

    lemma RightSide(q: Node, p: Node, c: Ctx, h: nat)
      requires Above(c, h, p) && q == CtxNode(c, null) && p !in CtxNodes(c)
      ensures c.Frame? && ((q.right == p) <==> !c.goLeft)
    {
    }

    method FindRightmost(n: Node, ghost t: Tree, ghost parent: Node?) returns (s: Node)
      requires t.T? && Rep(t, n, parent)
      ensures s == Rightmost(t).node
    {
      s := n;
      ghost var cur, above := t, parent;
      while s.right != null
        invariant cur.T? && Rep(cur, s, above) && Rightmost(cur) == Rightmost(t)
        decreases cur
      {
        above := s;
        s := s.right;
        cur := cur.r;
      }
    }

    /** From map_first on, iterator_next visits every node once, in key order. */
    method Walk() returns (visited: seq<Node>)
      requires Valid()
      ensures visited == InOrder(tree) && Ascending(visited)
      ensures |visited| == count && forall x :: x in visited <==> x in Nodes(tree)
    {
      hide Rep, Distinct, Ordered, Nodes, InOrder, Ascending;
      visited := [];
      Alloc(tree);
      var n := First();
      ghost var order := InOrder(tree);
      while n != null
        invariant Valid() && InOrder(tree) == order
        invariant |visited| <= count && visited == order[..|visited|]
        invariant n == if |visited| < count then order[|visited|] else null
        decreases count - |visited|
      {
        Alloc(tree);
        var next := Next(n, |visited|);
        visited := visited + [n];
        n := next;
      }
      assert visited == InOrder(tree);
      EndsOfOrder();
    }

    /** From map_last on, iterator_prev visits them in the opposite order. */
    method WalkBack() returns (visited: seq<Node>)
      requires Valid()
      ensures |visited| == count && forall j :: 0 <= j < count ==> visited[j] == InOrder(tree)[count - 1 - j]
      ensures forall i, j :: 0 <= i < j < count ==> Precedes(visited[j].key, visited[i].key)
    {
      hide Rep, Distinct, Ordered, Nodes, InOrder, Precedes;
      EndsOfOrder();
      visited := [];
      Alloc(tree);
      var n := Last();
      ghost var order := InOrder(tree);
      while n != null
        invariant Valid() && InOrder(tree) == order
        invariant |visited| <= count && forall j :: 0 <= j < |visited| ==> visited[j] == order[count - 1 - j]
        invariant n == if |visited| < count then order[count - 1 - |visited|] else null
        decreases count - |visited|
      {
        Alloc(tree);
        var prev := Prev(n, count - 1 - |visited|);
        visited := visited + [n];
        n := prev;
      }
    }

    // ----- teardown -----

    /** map_destroy: rotates the tree apart; the nodes are freed and their values
        destroyed in key order, each once. */
    method Destroy() returns (freed: seq<Node>, destroyed: seq<int>)
      requires Valid()
      modifies this, Nodes(tree)`left, Nodes(tree)`right
      ensures freed == old(InOrder(tree)) && destroyed == NonNull(freed) && Ascending(freed)
      ensures root == null
    {
      hide Rep, Distinct, Ordered, Nodes, InOrder, Bare, NonNull, Ascending;
      EndsOfOrder();
      ghost var order, s := InOrder(tree), Nodes(tree);
      RepIsBare(tree, root, null);
      Alloc(tree);
      freed, destroyed := [], [];
      NonNullEnd([], null);
      var p := root;
      ghost var t := tree;
      while p != null
        invariant Bare(t, p) && Distinct(t) && Nodes(t) <= s && freed + InOrder(t) == order
        invariant destroyed == NonNull(freed)
        decreases |InOrder(t)|, if t.T? then |InOrder(t.l)| else 0
      {
        Unfolded(t, p);
        var q;
        if p.left == null {
          q := p.right;
          NonNullEnd(freed, p);
          if p.val != 0 {
            destroyed := destroyed + [p.val];
          }
          OneFreed(freed, p, InOrder(t.r));
          freed := freed + [p];
          t := t.r;
        } else {
          q := p.left;
          Turn(p, q, t);
          t := T(q, t.l.l, T(p, t.l.r, t.r));
        }
        p := q;
      }
      LeafBare(t);
      root := null;
    }

    // ----- climbing after a deletion -----

    /** Stores `w` at the hole below `q`, or at the root if `q` is null. */
    method SetHole(q: Node?, left: bool, w: Node?, ghost c: Ctx, ghost h: nat, ghost p: Node?)
      requires Above(c, h, p) && q == CtxNode(c, null) && (c.Frame? ==> left == c.goLeft)
      modifies this`root, CtxNodes(c)`left, CtxNodes(c)`right
      ensures Above(c, h, w)
    {
      if q == null {
        root := w;
      } else if left {
        q.left := w;
      } else {
        q.right := w;
      }
    }

    /** The side of its parent a node hangs on, as the code finds out. */
    function IsLeft(q: Node?, y: Node): bool
      reads this, if q == null then {} else {q}
    {
      if q == null then root == y else q.left == y
    }

    lemma SideOf(q: Node?, y: Node, c: Ctx, h: nat)
      requires Above(c, h, y) && q == CtxNode(c, null) && y !in CtxNodes(c)
      ensures c.Frame? ==> IsLeft(q, y) == c.goLeft
    {
    }

    /** A frame read off memory: its node, its sibling and what is above it. */
    lemma Ascend(c: Ctx, h: nat, p: Node?)
      requires Above(c, h, p) && c.Frame?
      ensures var y := c.node;
              && y.parent == CtxNode(c.up, null) && -1 <= y.balance <= 1
              && y.balance == (if c.goLeft then H(c.sib) - h else h - H(c.sib))
              && HoleLink(c) == p && Rep(c.sib, SibLink(c), y)
              && Above(c.up, Over(c, h), y)
              && (c.up.Frame? ==> CtxNode(c.up, null) == c.up.node)
    {
      assert Head(c, null) == Head(c.up, c.node);
      if c.up.Frame? {
        HeadAnyLeaf(c.up, null, c.node);
      }
    }

    lemma SideOfFrame(c: Ctx, h: nat, t: Tree)
      requires Zip(c, h, t) && c.Frame?
      ensures c.up.Frame? ==> IsLeft(c.up.node, c.node) == c.up.goLeft
    {
      Ascend(c, h, Root(t));
      OneMore(c, t);
      hide Rep, CtxRep, Distinct, CtxDistinct, Nodes, CtxNodes, H, Head, Above;
      SideOf(CtxNode(c.up, null), c.node, c.up, Over(c, h));
    }

    /** A node whose balance is within bounds is where it belongs. */
    lemma Settled(c: Ctx, h: nat, y: Node, t: Tree)
      requires Above(c, h, y) && RepRoot(t, y, CtxNode(c, null)) && -1 <= y.balance <= 1
      requires Distinct(t) && Nodes(t) !! CtxNodes(c)
      ensures Zip(c, h, t) && Same(t, t)
    {
      RootIsRep(t, y, CtxNode(c, null));
    }

    /** Rebalances `y`, which is too high on the right, and hangs the result
        where `y` was. */
    method ReplantRight(y: Node, q: Node?, left: bool, ghost c: Ctx, ghost h: nat, ghost t: Tree, ghost s: set<Node>)
      returns (flat: bool, ghost t': Tree)
      requires Above(c, h, y) && RepRoot(t, y, q) && Distinct(t) && Nodes(t) !! CtxNodes(c)
      requires y.balance == 2 && y.right != null && q == CtxNode(c, null) && (c.Frame? ==> left == c.goLeft)
      requires Nodes(t) + CtxNodes(c) <= s
      modifies this`root, s`left, s`right, s`parent, s`balance
      ensures Zip(c, h, t') && Same(t, t')
      ensures flat == old(y.right.balance == 0) && H(t') == if flat then H(t) else H(t) - 1
    {
      hide Rep, CtxRep, Distinct, CtxDistinct, Nodes, CtxNodes, H, Head, Above;
      AllocCtx(c); Alloc(t);
      flat := y.right.balance == 0;
      var w;
      w, t' := FixRight(y, t, q);
      RepRoots(t', w, q);
      Alloc(t');
      SetHole(q, left, w, c, h, y);
    }

    method ReplantLeft(y: Node, q: Node?, left: bool, ghost c: Ctx, ghost h: nat, ghost t: Tree, ghost s: set<Node>)
      returns (flat: bool, ghost t': Tree)
      requires Above(c, h, y) && RepRoot(t, y, q) && Distinct(t) && Nodes(t) !! CtxNodes(c)
      requires y.balance == -2 && y.left != null && q == CtxNode(c, null) && (c.Frame? ==> left == c.goLeft)
      requires Nodes(t) + CtxNodes(c) <= s
      modifies this`root, s`left, s`right, s`parent, s`balance
      ensures Zip(c, h, t') && Same(t, t')
      ensures flat == old(y.left.balance == 0) && H(t') == if flat then H(t) else H(t) - 1
    {
      hide Rep, CtxRep, Distinct, CtxDistinct, Nodes, CtxNodes, H, Head, Above;
      AllocCtx(c); Alloc(t);
      flat := y.left.balance == 0;
      var w;
      w, t' := FixLeft(y, t, q);
      RepRoots(t', w, q);
      Alloc(t');
      SetHole(q, left, w, c, h, y);
    }

    lemma LeanFacts(c: Ctx, h: nat, t: Tree)
      requires Zip(c, h, t) && c.Frame?
      ensures var y := c.node;
              && y.parent == CtxNode(c.up, null) && -1 <= y.balance <= 1
              && y.balance == (if c.goLeft then H(c.sib) - h else h - H(c.sib))
              && Rep(t, HoleLink(c), y) && Rep(c.sib, SibLink(c), y) && Above(c.up, Over(c, h), y)
              && y !in Nodes(t) && y !in Nodes(c.sib) && y !in CtxNodes(c.up)
      ensures Distinct(Fill(c, t)) && Nodes(Fill(c, t)) !! CtxNodes(c.up)
      ensures H(c.sib) > 0 ==> SibLink(c) != null
    {
      OneMore(c, t);
      Ascend(c, h, Root(t));
      RepRight(c.sib, SibLink(c), c.node);
    }

    /** Adjusts the balance factor of the frame's node to the subtree `t` now in
        its hole, where memory was for height `h`. */
    method Lean(y: Node, d: int, ghost c: Ctx, ghost h: nat, ghost t: Tree)
      requires Zip(c, h, t) && c.Frame? && c.node == y && -1 <= d <= 1
      requires d == if c.goLeft then h - H(t) else H(t) - h
      modifies y`balance
      ensures y.balance == old(y.balance) + d && -1 <= old(y.balance) <= 1
      ensures old(y.balance) == if c.goLeft then H(c.sib) - h else h - H(c.sib)
      ensures RepRoot(Fill(c, t), y, CtxNode(c.up, null)) && Above(c.up, Over(c, h), y)
      ensures Distinct(Fill(c, t)) && Nodes(Fill(c, t)) !! CtxNodes(c.up) && y !in CtxNodes(c.up)
      ensures H(c.sib) > 0 ==> SibLink(c) != null
    {
      hide Rep, CtxRep, Distinct, CtxDistinct, Nodes, CtxNodes, H, Head, Above, InOrder, Zip;
      LeanFacts(c, h, t);
      y.balance := y.balance + d;
    }

    /** Brings the balance of `y` back within bounds by rotating if it is off by
        two, and hangs the result where `y` was. */
    method Rebalance(y: Node, q: Node?, left: bool, ghost c: Ctx, ghost h: nat, ghost t: Tree, ghost s: set<Node>)
      returns (ghost t': Tree, ghost lower: bool)
      requires Above(c, h, y) && RepRoot(t, y, q) && Distinct(t) && Nodes(t) !! CtxNodes(c)
      requires q == CtxNode(c, null) && (c.Frame? ==> left == c.goLeft)
      requires Nodes(t) + CtxNodes(c) <= s
      modifies this`root, s`left, s`right, s`parent, s`balance
      ensures Zip(c, h, t') && Same(t, t') && H(t') == if lower then H(t) - 1 else H(t)
      ensures lower == old(|| (y.balance == 2 && Child(y.right) != 0) || (y.balance == -2 && Child(y.left) != 0))
    {
      hide Rep, CtxRep, Distinct, CtxDistinct, Nodes, CtxNodes, H, Head, Above, InOrder, Zip, Same, Fill;
      HeavyChild(t, y, q);
      hide RepRoot;
      ghost var flat;
      if y.balance == 2 {
        flat, t' := ReplantRight(y, q, left, c, h, t, s);
        lower := !flat;
      } else if y.balance == -2 {
        flat, t' := ReplantLeft(y, q, left, c, h, t, s);
        lower := !flat;
      } else {
        RootBounds(t, y, q);
        Settled(c, h, y, t);
        t', lower := t, false;
      }
    }

    /** One step up from a subtree that lost a level: `done` when the level is
        made up for, otherwise the next subtree has lost one. */
    method Retrace(y: Node, q: Node?, left: bool, ghost c: Ctx, ghost t: Tree, ghost s: set<Node>)
      returns (done: bool, left': bool, ghost t': Tree)
      requires Zip(c, H(t) + 1, t) && c.Frame? && c.goLeft == left && c.node == y && q == CtxNode(c.up, null)
      requires Nodes(t) + CtxNodes(c) <= s
      modifies this`root, s`left, s`right, s`parent, s`balance
      ensures Zip(c.up, if done then H(t') else H(t') + 1, t') && Same(Fill(c, t), t')
      ensures c.up.Frame? ==> left' == c.up.goLeft
    {
      hide Rep, CtxRep, Distinct, CtxDistinct, Nodes, CtxNodes, H, Head, Above, InOrder, RepRoot, Zip, Same, Fill;
      ghost var t1, h := Fill(c, t), Over(c, H(t) + 1);
      FrameNodes(c, t);
      SideOfFrame(c, H(t) + 1, t);
      left' := IsLeft(q, y);
      var d := if left then 1 else -1;
      Lean(y, d, c, H(t) + 1, t);
      var flat := || (y.balance == 2 && y.right != null && y.right.balance == 0)
                  || (y.balance == -2 && y.left != null && y.left.balance == 0);
      done := y.balance == d || flat;
      HeavyChild(t1, y, q);
      ghost var lower;
      t', lower := Rebalance(y, q, left', c.up, h, t1, s);
    }

    /** The climb of delete_node: every balance factor on the way to the root is
        brought up to date. */
    method Shrunk(q0: Node?, left0: bool, ghost c0: Ctx, ghost t0: Tree, ghost s: set<Node>)
      returns (ghost t': Tree)
      requires Zip(c0, H(t0) + 1, t0) && q0 == CtxNode(c0, null) && (c0.Frame? ==> left0 == c0.goLeft)
      requires Nodes(t0) + CtxNodes(c0) <= s
      modifies this`root, s`left, s`right, s`parent, s`balance
      ensures Rep(t', root, null) && Same(Plug(c0, t0), t')
    {
      hide Rep, CtxRep, Distinct, CtxDistinct, Nodes, CtxNodes, H, Head, Above, InOrder, Zip, Same, Fill, Plug;
      var q, left := q0, left0;
      ghost var c, t := c0, t0;
      ZipSame(c, H(t) + 1, t);
      while q != null
        invariant Zip(c, H(t) + 1, t) && q == CtxNode(c, null) && (c.Frame? ==> left == c.goLeft)
        invariant Same(Plug(c0, t0), Plug(c, t)) && Nodes(t) + CtxNodes(c) <= s
        decreases c
      {
        var y := q;
        FrameParent(c, H(t) + 1, t);
        q := y.parent;
        var done;
        ghost var t1;
        done, left, t1 := Retrace(y, q, left, c, t, s);
        SamePlug(c0, t0, c, t, t1, s);
        c, t := c.up, t1;
        if done {
          ZipRep(c, t);
          t' := Plug(c, t);
          return;
        }
      }
      ZipTop(c, H(t) + 1, t);
      t' := Plug(c, t);
    }

    /** A frame written to memory below what is above it. */
    lemma Descend(c: Ctx, h: nat, p: Node?)
      requires c.Frame? && Above(c.up, Over(c, h), c.node)
      requires c.node.parent == CtxNode(c.up, null) && -1 <= c.node.balance <= 1
      requires c.node.balance == if c.goLeft then H(c.sib) - h else h - H(c.sib)
      requires HoleLink(c) == p && Rep(c.sib, SibLink(c), c.node)
      requires c.node !in Nodes(c.sib) && c.node !in CtxNodes(c.up) && Nodes(c.sib) !! CtxNodes(c.up)
      requires Distinct(c.sib)
      ensures Above(c, h, p)
    {
      assert Head(c, null) == Head(c.up, c.node);
      if c.up.Frame? {
        HeadAnyLeaf(c.up, null, c.node);
      }
    }

    lemma {:induction false} ExtendAbove(c: Ctx, w: Trail, h: nat, p: Node?, s: Node?)
      requires Above(c, TrailH(w, h), p) && TrailRep(w, p, CtxNode(c, null), h, s)
      requires TrailDistinct(w) && TrailNodes(w) !! CtxNodes(c)
      ensures Above(Extend(c, w), h, s)
      decreases w
    {
      if w.Step? {
        var f := Frame(w.node, true, w.sib, c);
        assert Over(f, TrailH(w.rest, h)) == TrailH(w, h);
        Descend(f, TrailH(w.rest, h), w.node.left);
        ExtendAbove(f, w.rest, h, w.node.left, s);
      }
    }

    // ----- taking a node out -----

    /** `p` has no right subtree: its left one takes its place. */
    method SpliceLeft(p: Node, q: Node?, left: bool, ghost c: Ctx, ghost l: Tree)
      requires Zip(c, H(T(p, l, Leaf)), T(p, l, Leaf)) && q == CtxNode(c, null) && (c.Frame? ==> left == c.goLeft)
      modifies this`root, CtxNodes(c)`left, CtxNodes(c)`right, RootSet(l)`parent
      ensures Zip(c, H(l) + 1, l)
    {
      ghost var h := H(l) + 1;
      Fold(p, l, Leaf, p, q);
      Alloc(l); AllocCtx(c);
      assert H(T(p, l, Leaf)) == h;
      assert Distinct(l) && Nodes(l) !! CtxNodes(c) && p !in CtxNodes(c) && p !in Nodes(l);
      RepRoots(l, p.left, p);
      hide Rep, CtxRep, Distinct, CtxDistinct, Nodes, CtxNodes, Head, Above, RootSet;
      SetHole(q, left, p.left, c, h, p);
      SetParent(p.left, q, l, p);
    }

    /** `s` takes over from `p` its place below `q`, its left subtree and its
        balance factor. */
    method TakePlace(p: Node, s: Node, q: Node?, left: bool, ghost c: Ctx, ghost h: nat, ghost l: Tree)
      requires Above(c, h, p) && q == CtxNode(c, null) && (c.Frame? ==> left == c.goLeft)
      requires p != s && p !in CtxNodes(c) + Nodes(l) && s !in CtxNodes(c) + Nodes(l)
      requires Rep(l, p.left, p) && Distinct(l) && Nodes(l) !! CtxNodes(c)
      modifies this`root, CtxNodes(c)`left, CtxNodes(c)`right, RootSet(l)`parent
      modifies s`left, s`parent, s`balance
      ensures Above(c, h, s) && Rep(l, s.left, s) && s.parent == q && s.balance == p.balance
    {
      Alloc(l); AllocCtx(c);
      hide Rep, CtxRep, Distinct, CtxDistinct, Nodes, CtxNodes, Head, Above, RootSet;
      s.left := p.left;
      SetHole(q, left, s, c, h, p);
      s.parent := q;
      SetParent(s.left, s, l, p);
      s.balance := p.balance;
    }

    /** What a node to be taken out looks like. */
    lemma Target(c: Ctx, t: Tree)
      requires Zip(c, H(t), t) && t.T?
      ensures var p := t.node;
              && Above(c, H(t), p) && p.parent == CtxNode(c, null)
              && p.balance == H(t.r) - H(t.l) && -1 <= p.balance <= 1
              && Rep(t.l, p.left, p) && Rep(t.r, p.right, p)
              && p !in CtxNodes(c) && p !in Nodes(t.l) && p !in Nodes(t.r)
      ensures Distinct(t.l) && Distinct(t.r) && Nodes(t.l) !! Nodes(t.r)
      ensures Nodes(t.l) !! CtxNodes(c) && Nodes(t.r) !! CtxNodes(c)
      ensures H(t) == 1 + Max(H(t.l), H(t.r))
      ensures Distinct(t) && Nodes(t) !! CtxNodes(c) && Nodes(t) == {t.node} + Nodes(t.l) + Nodes(t.r)
      ensures t.r.T? ==> t.r.node in Nodes(t.r) && Rep(t.r.l, t.r.node.left, t.r.node)
      ensures t.r.T? ==> Leftmost(t.r).node in Nodes(t.r)
    {
      if t.r.T? {
        TrailShape(t.r);
      }
    }

    /** The right subtree `r` of `p` has no left child: `r` takes its place. */
    method SpliceRight(p: Node, q: Node?, left: bool, r: Node, ghost c: Ctx, ghost t: Tree, ghost rr: Tree)
      requires Zip(c, H(t), t) && t.T? && t.node == p && t.r == T(r, Leaf, rr)
      requires q == CtxNode(c, null) && (c.Frame? ==> left == c.goLeft)
      modifies this`root, CtxNodes(c)`left, CtxNodes(c)`right, RootSet(t.l)`parent
      modifies r`left, r`parent, r`balance
      ensures Zip(Frame(r, false, t.l, c), H(rr) + 1, rr)
    {
      hide Rep, CtxRep, Distinct, CtxDistinct, Nodes, CtxNodes, Head, Above, RootSet, H, Zip, InOrder;
      ghost var f := Frame(r, false, t.l, c);
      Target(c, t);
      Fold(r, Leaf, rr, r, p);
      One(r, Leaf, rr);
      Alloc(rr);
      RepRoots(rr, r.right, r);
      ShiftedNodes(f, rr);
      LeafNodes();
      TakePlace(p, r, q, left, c, H(t), t.l);
      Descend(f, H(rr) + 1, r.right);
      ZipIs(f, H(rr) + 1, rr);
    }

    /** The leftmost node `s` of the right subtree takes the place of `p`, and its
        own right subtree `st.r` moves up to where it was. */
    method SpliceDeep(p: Node, q: Node?, left: bool, s: Node, r: Node, ghost c: Ctx, ghost t: Tree, ghost f: Ctx)
      requires Zip(c, H(t), t) && t.T? && t.node == p && t.r.T? && t.r.l.T?
      requires s == Leftmost(t.r).node && r == TrailLast(LeftTrail(t.r), p)
      requires q == CtxNode(c, null) && (c.Frame? ==> left == c.goLeft)
      requires f == Extend(Frame(s, false, t.l, c), LeftTrail(t.r))
      modifies this`root, CtxNodes(c)`left, CtxNodes(c)`right, Nodes(t)`left, Nodes(t)`right
      modifies Nodes(t)`parent, s`balance
      ensures Zip(f, H(Leftmost(t.r).r) + 1, Leftmost(t.r).r)
    {
      hide Rep, CtxRep, Distinct, CtxDistinct, Nodes, CtxNodes, Head, Above, RootSet, H, Zip, InOrder,
           TrailRep, TrailNodes, TrailDistinct, TrailH, TrailLast, LeftTrail, Leftmost, Extend, TrailOrder;
      ghost var w, st := LeftTrail(t.r), Leftmost(t.r);
      ghost var f0 := Frame(s, false, t.l, c);
      DeepFacts(c, t);
      AllocTrail(w); Alloc(st.r); Alloc(t.l); AllocCtx(c); AllocCtx(f);
      Target(c, t);
      ShiftedNodes(f0, st);
      ExtendShape(f0, w);
      var sr, pr := s.right, p.right;
      s.right := pr;
      TakePlace(p, s, q, left, c, H(t), t.l);
      TrailReparent(pr, s, w, p, H(st), s);
      Descend(f0, H(t.r), pr);
      ExtendAbove(f0, w, H(st), pr, s);
      SetHole(r, true, sr, f, H(st), s);
      SetParent(sr, r, st.r, s);
      ZipIs(f, H(st), st.r);
    }

    /** The shape around a leftmost node, read off memory. */
    lemma DeepFacts(c: Ctx, t: Tree)
      requires Zip(c, H(t), t) && t.T? && t.r.T? && t.r.l.T?
      ensures var w, st, p := LeftTrail(t.r), Leftmost(t.r), t.node;
              var s := st.node;
              && w.Step? && TrailRep(w, p.right, p, H(st), s) && TrailDistinct(w)
              && TrailH(w, H(st)) == H(t.r) && H(st) == H(st.r) + 1
              && Rep(st.r, s.right, s) && Root(st.r) == s.right && Distinct(st.r)
              && s !in Nodes(st.r) && s != p
              && Nodes(t.r) == TrailNodes(w) + {s} + Nodes(st.r)
              && s !in TrailNodes(w) && Nodes(st.r) !! TrailNodes(w)
              && Nodes(t) == {p} + Nodes(t.l) + Nodes(t.r)
              && s !in Nodes(t.l) && s !in CtxNodes(c) && s in Nodes(t) && p in Nodes(t)
              && TrailLast(w, p) == TrailLast(w, s)
              && w.node in Nodes(t) && w.node in TrailNodes(w)
    {
      hide CtxRep, CtxDistinct, Above, Head;
      Fold(t.node, t.l, t.r, t.node, t.node.parent);
      TrailIs(t.r, t.node.right, t.node);
      TrailShape(t.r);
      RepRoots(Leftmost(t.r).r, Leftmost(t.r).node.right, Leftmost(t.r).node);
    }

    lemma ZipIs(c: Ctx, h: nat, t: Tree)
      requires Above(c, h, Root(t)) && Rep(t, Root(t), CtxNode(c, null))
      requires Distinct(t) && Nodes(t) !! CtxNodes(c)
      ensures Zip(c, h, t)
    {
    }

    /** Descends to the leftmost node of a subtree. */
    method FindLeftmost(n: Node, ghost t: Tree, ghost parent: Node?) returns (s: Node)
      requires t.T? && Rep(t, n, parent)
      ensures s == Leftmost(t).node
    {
      s := n;
      ghost var cur, above := t, parent;
      while s.left != null
        invariant cur.T? && Rep(cur, s, above) && Leftmost(cur) == Leftmost(t)
        decreases cur
      {
        above := s;
        s := s.left;
        cur := cur.l;
      }
    }

    lemma LastParent(t: Tree, p: Node?, parent: Node?)
      requires t.T? && Rep(t, p, parent)
      ensures Leftmost(t).node.parent == TrailLast(LeftTrail(t), parent)
      ensures p.left == null <==> t.l.Leaf?
      ensures p.left == null ==> t == T(t.node, Leaf, t.r)
    {
      TrailIs(t, p, parent);
    }

    /** The splice of delete_node: `p` leaves the tree, and the subtree now in the
        hole of `c'` has lost a level. */
    method TakeOut(p: Node, ghost c: Ctx, ghost t: Tree) returns (q': Node?, left': bool, ghost c': Ctx, ghost t': Tree)
      requires Zip(c, H(t), t) && t.T? && t.node == p
      modifies this`root, CtxNodes(c)`left, CtxNodes(c)`right
      modifies Nodes(t)`left, Nodes(t)`right, Nodes(t)`parent, Nodes(t)`balance
      ensures Zip(c', H(t') + 1, t') && q' == CtxNode(c', null) && (c'.Frame? ==> left' == c'.goLeft)
      ensures Before(c') + InOrder(t') + After(c') == (Before(c) + InOrder(t.l)) + (InOrder(t.r) + After(c))
      ensures Nodes(t') + CtxNodes(c') == (Nodes(t) + CtxNodes(c)) - {p}
    {
      hide Rep, CtxRep, Distinct, CtxDistinct, Nodes, CtxNodes, Head, Above, RootSet, H, Zip, InOrder,
           TrailLast, LeftTrail, Leftmost, Extend, Before, After;
      Target(c, t);
      TakenOut(c, t);
      AllocCtx(c); Alloc(t);
      SideOf(CtxNode(c, null), p, c, H(t));
      var q := p.parent;
      var left := IsLeft(q, p);
      RepRoots(t.r, p.right, p);
      if p.right == null {
        SpliceLeft(p, q, left, c, t.l);
        q', left', c', t' := q, left, c, t.l;
      } else {
        var r := p.right;
        LastParent(t.r, r, p);
        if r.left == null {
          SpliceRight(p, q, left, r, c, t, t.r.r);
          q', left', c', t' := r, false, Frame(r, false, t.l, c), t.r.r;
        } else {
          var s := FindLeftmost(r.left, t.r.l, r);
          LastParent(t.r, r, p);
          r := s.parent;
          c', t' := Extend(Frame(s, false, t.l, c), LeftTrail(t.r)), Leftmost(t.r).r;
          SpliceDeep(p, q, left, s, r, c, t, c');
          q', left' := r, true;
        }
      }
    }

    /** delete_node: `p` is taken out and the balance restored up to the root. */
    method DeleteNode(p: Node) returns (val: int, ghost i: nat)
      requires Valid() && p in Nodes(tree)
      modifies this, Nodes(tree)`left, Nodes(tree)`right, Nodes(tree)`parent, Nodes(tree)`balance
      ensures Valid() && val == p.val && Nodes(tree) == old(Nodes(tree)) - {p} && count == old(count) - 1
      ensures i < |old(InOrder(tree))| && old(InOrder(tree))[i] == p
      ensures InOrder(tree) == old(InOrder(tree)[..i]) + old(InOrder(tree)[i + 1..])
      ensures Model() == old(Model()) - {Canon(p.key)}
    {
      hide Rep, CtxRep, Distinct, CtxDistinct, Nodes, CtxNodes, Head, Above, H, Zip, InOrder,
           Before, After, Ordered, Denote, Plug, Same;
      val := p.val;
      ghost var s, order := Nodes(tree), InOrder(tree);
      ghost var c, t := Locate(Top, tree, p);
      Opened(c, t);
      Alloc(tree);
      OrderNodes(tree);
      ghost var a, b := Before(c) + InOrder(t.l), InOrder(t.r) + After(c);
      SplitOrder(c, t, order);
      DenoteRemove(a, p, b);
      OrderedRemove(a, p, b);
      i := |a|;
      assert forall n :: n in a + b ==> n in order;
      ghost var m := Denote(a + b);
      var q, left;
      ghost var c', t';
      q, left, c', t' := TakeOut(p, c, t);
      PlugOrder(c', t');
      PlugNodes(c', t');
      tree := Shrunk(q, left, c', t', s);
      count := count - 1;
      SameFacts(Plug(c', t'), tree);
      assert CtxNodes(c') + Nodes(t') == Nodes(t') + CtxNodes(c');
      assert CtxNodes(c) + Nodes(t) == Nodes(t) + CtxNodes(c);
      assert Denote(a + b) == m;
    }

    lemma Opened(c: Ctx, t: Tree)
      requires Valid() && Plug(c, t) == Plug(Top, tree)
      ensures Zip(c, H(t), t) && Nodes(tree) == CtxNodes(c) + Nodes(t)
      ensures InOrder(tree) == Before(c) + InOrder(t) + After(c)
    {
      assert Plug(Top, tree) == tree;
      PlugRep(c, t, root, null);
      PlugDistinct(c, t);
      PlugOrder(c, t);
      PlugNodes(c, t);
      RepRoots(t, Hole(c, root), CtxNode(c, null));
    }

    lemma FrameParent(c: Ctx, h: nat, t: Tree)
      requires Zip(c, h, t) && c.Frame?
      ensures c.node.parent == CtxNode(c.up, null)
    {
    }

    lemma ZipSame(c: Ctx, h: nat, t: Tree)
      requires Zip(c, h, t)
      ensures Same(Plug(c, t), Plug(c, t))
    {
      PlugDistinct(c, t);
    }

    /** Memory around a subtree of the expected height is a whole tree. */
    lemma ZipRep(c: Ctx, t: Tree)
      requires Zip(c, H(t), t)
      ensures Rep(Plug(c, t), root, null)
    {
      PlugRep(c, t, root, null);
    }

    lemma ZipTop(c: Ctx, h: nat, t: Tree)
      requires Zip(c, h, t) && c.Top?
      ensures Rep(Plug(c, t), root, null)
    {
    }
  }

  lemma SplitOrder(c: Ctx, t: Tree, order: seq<Node>)
    requires t.T? && order == Before(c) + InOrder(t) + After(c)
    ensures var a, b := Before(c) + InOrder(t.l), InOrder(t.r) + After(c);
            && order == a + [t.node] + b && order[..|a|] == a && order[|a| + 1..] == b && order[|a|] == t.node
  {
    hide InOrder, Before, After;
    One(t.node, t.l, t.r);
    Regroup(Before(c), InOrder(t.l), t.node, InOrder(t.r), After(c));
  }

  lemma Regroup(a: seq<Node>, l: seq<Node>, n: Node, r: seq<Node>, b: seq<Node>)
    ensures a + (l + [n] + r) + b == (a + l) + [n] + (r + b)
    ensures ((a + l) + [n] + (r + b))[..|a + l|] == a + l
    ensures ((a + l) + [n] + (r + b))[|a + l| + 1..] == r + b
  {
  }

  lemma {:induction false} OrderNodes(t: Tree)
    ensures forall n :: n in InOrder(t) <==> n in Nodes(t)
  {
    if t.T? {
      OrderNodes(t.l);
      OrderNodes(t.r);
    }
  }

  lemma SameFacts(t: Tree, t': Tree)
    requires Same(t, t')
    ensures Distinct(t') && Nodes(t') == Nodes(t) && InOrder(t') == InOrder(t)
  {
  }

  /** Nodes and order once the root of `t` has left context `c`, for each splice. */
  lemma TakenOut(c: Ctx, t: Tree)
    requires t.T? && Distinct(t) && Nodes(t) !! CtxNodes(c)
    ensures t.r.Leaf? ==> Gone(c, t, c, t.l)
    ensures t.r.T? && t.r.l.Leaf? ==> Gone(c, t, Frame(t.r.node, false, t.l, c), t.r.r)
    ensures t.r.T? && t.r.l.T? ==>
              && Gone(c, t, Extend(Frame(Leftmost(t.r).node, false, t.l, c), LeftTrail(t.r)), Leftmost(t.r).r)
              && Extend(Frame(Leftmost(t.r).node, false, t.l, c), LeftTrail(t.r)).Frame?
              && Extend(Frame(Leftmost(t.r).node, false, t.l, c), LeftTrail(t.r)).goLeft
              && CtxNode(Extend(Frame(Leftmost(t.r).node, false, t.l, c), LeftTrail(t.r)), null)
                 == TrailLast(LeftTrail(t.r), t.node)
              && Leftmost(t.r) == Leftmost(t.r.l)
  {
    hide Nodes, CtxNodes, InOrder, Before, After, Distinct, LeftTrail, Leftmost, TrailLast, Extend, H;
    One(t.node, t.l, t.r);
    LeafNodes();
    if t.r.T? {
      if t.r.l.T? {
        GoneDeep(c, t);
        TrailStep(t.r, t.node, t.node);
      } else {
        GoneShallow(c, t);
      }
    } else {
      assert InOrder(t.r) + After(c) == After(c);
    }
  }

  lemma GoneShallow(c: Ctx, t: Tree)
    requires t.T? && Distinct(t) && Nodes(t) !! CtxNodes(c) && t.r.T? && t.r.l.Leaf?
    ensures Gone(c, t, Frame(t.r.node, false, t.l, c), t.r.r)
  {
    hide Nodes, CtxNodes, InOrder, Before, After, Distinct, H;
    var r := t.r.node;
    One(t.node, t.l, t.r);
    LeafNodes();
    One(r, Leaf, t.r.r);
    FrameOrder(r, t.l, c);
    ShiftedNodes(Frame(r, false, t.l, c), t.r.r);
    assert [] + [r] + InOrder(t.r.r) == [r] + InOrder(t.r.r);
    Assoc6(Before(c), InOrder(t.l), [r], InOrder(t.r.r), After(c));
  }

  lemma Assoc6(a: seq<Node>, b: seq<Node>, c: seq<Node>, d: seq<Node>, e: seq<Node>)
    ensures (a + (b + c)) + d + e == (a + b) + ((c + d) + e)
  {
  }

  ghost predicate Gone(c: Ctx, t: Tree, c': Ctx, t': Tree)
    requires t.T?
  {
    && Before(c') + InOrder(t') + After(c') == (Before(c) + InOrder(t.l)) + (InOrder(t.r) + After(c))
    && Nodes(t') + CtxNodes(c') == (Nodes(t) + CtxNodes(c)) - {t.node}
  }

  lemma GoneDeep(c: Ctx, t: Tree)
    requires t.T? && Distinct(t) && Nodes(t) !! CtxNodes(c) && t.r.T? && t.r.l.T?
    ensures Gone(c, t, Extend(Frame(Leftmost(t.r).node, false, t.l, c), LeftTrail(t.r)), Leftmost(t.r).r)
    ensures Extend(Frame(Leftmost(t.r).node, false, t.l, c), LeftTrail(t.r)).Frame?
    ensures Extend(Frame(Leftmost(t.r).node, false, t.l, c), LeftTrail(t.r)).goLeft
    ensures CtxNode(Extend(Frame(Leftmost(t.r).node, false, t.l, c), LeftTrail(t.r)), null)
            == TrailLast(LeftTrail(t.r), t.node)
  {
    hide Nodes, CtxNodes, InOrder, Before, After, Distinct, LeftTrail, Leftmost, TrailNodes, TrailOrder,
         TrailLast, Extend, H, TrailH, TrailDistinct;
    var w, st := LeftTrail(t.r), Leftmost(t.r);
    var f := Frame(st.node, false, t.l, c);
    TrailShape(t.r);
    TrailStep(t.r, t.node, st.node);
    ExtendShape(f, w);
    One(st.node, st.l, st.r);
    One(t.node, t.l, t.r);
    LeafNodes();
    ShiftedNodes(f, st);
    FrameOrder(st.node, t.l, c);
    assert [] + [st.node] + InOrder(st.r) == [st.node] + InOrder(st.r);
    Assoc7(Before(c), InOrder(t.l), [st.node], InOrder(st.r), TrailOrder(w), After(c));
  }

  lemma TrailStep(t: Tree, p: Node?, s: Node?)
    requires t.T? && t.l.T?
    ensures LeftTrail(t).Step? && TrailLast(LeftTrail(t), p) == TrailLast(LeftTrail(t), s)
    ensures Leftmost(t) == Leftmost(t.l)
  {
  }

  lemma FrameOrder(n: Node, l: Tree, c: Ctx)
    ensures Before(Frame(n, false, l, c)) == Before(c) + (InOrder(l) + [n])
    ensures After(Frame(n, false, l, c)) == After(c)
  {
  }

  lemma Assoc7(a: seq<Node>, b: seq<Node>, c: seq<Node>, d: seq<Node>, e: seq<Node>, f: seq<Node>)
    ensures (a + (b + c)) + d + (e + f) == (a + b) + (((c + d) + e) + f)
  {
  }

  lemma AllocTrail(w: Trail)
    ensures forall n :: n in TrailNodes(w) ==> allocated(n)
  {
    if w.Step? {
      Alloc(w.sib);
      AllocTrail(w.rest);
    }
  }

  /** The first node of a way down gets another parent. */
  method TrailReparent(n: Node?, np: Node?, ghost w: Trail, ghost p: Node?, ghost h: nat, ghost s: Node?)
    requires w.Step? && TrailRep(w, n, p, h, s) && TrailDistinct(w)
    modifies w.node`parent
    ensures TrailRep(w, n, np, h, s)
  {
    n.parent := np;
  }

  lemma LeafNodes()
    ensures Nodes(Leaf) == {} && H(Leaf) == 0 && InOrder(Leaf) == []
  {
  }

  lemma ShiftedNodes(c: Ctx, t: Tree)
    requires c.Frame?
    ensures CtxNodes(c) == {c.node} + Nodes(c.sib) + CtxNodes(c.up)
  {
  }

  lemma SameWhole(c0: Ctx, t0: Tree, c: Ctx, t: Tree, t1: Tree)
    requires Same(Plug(c0, t0), Plug(c, t)) && Same(t, t1)
    ensures Same(Plug(c0, t0), Plug(c, t1))
  {
    PlugDistinct(c, t);
    PlugDistinct(c, t1);
    PlugOrder(c, t);
    PlugOrder(c, t1);
    PlugNodes(c, t);
    PlugNodes(c, t1);
  }

  lemma SingleRep(n: Node, q: Node?)
    requires n.left == null && n.right == null && n.parent == q && n.balance == 0
    ensures var t := T(n, Leaf, Leaf); Rep(t, n, q) && Root(t) == n && Distinct(t) && Nodes(t) == {n}
  {
  }

  lemma {:induction false} HeadIn(c: Ctx)
    requires c.Frame?
    ensures Head(c, null) in CtxNodes(c)
    decreases c
  {
    if c.up.Frame? {
      HeadIn(c.up);
      HeadAnyLeaf(c.up, null, c.node);
    }
  }

  lemma AfterHead(c: Ctx)
    ensures c.Top? ==> After(c) == []
    ensures c.Frame? && c.goLeft ==> After(c) != [] && After(c)[0] == c.node
  {
  }

  lemma BeforeLast(c: Ctx)
    ensures c.Top? ==> Before(c) == []
    ensures c.Frame? && !c.goLeft ==> Before(c) != [] && Before(c)[|Before(c)| - 1] == c.node
  {
  }

  /** The values that are handed to the destroy function. */
  ghost function NonNull(s: seq<Node>): seq<int>
    reads s`val
  {
    if s == [] then []
    else NonNull(s[..|s| - 1]) + if s[|s| - 1].val != 0 then [s[|s| - 1].val] else []
  }

  /** The values that are not null, in order. */
  lemma {:induction false} NonNullIs(s: seq<Node>)
    ensures 0 !in NonNull(s)
    ensures forall i :: 0 <= i < |s| && s[i].val != 0 ==> s[i].val in NonNull(s)
    ensures (forall i :: 0 <= i < |s| ==> s[i].val != 0) ==>
              |NonNull(s)| == |s| && forall i :: 0 <= i < |s| ==> NonNull(s)[i] == s[i].val
  {
    if s != [] {
      NonNullIs(s[..|s| - 1]);
    }
  }

  lemma NonNullEnd(s: seq<Node>, n: Node?)
    ensures NonNull([]) == []
    ensures n != null ==> NonNull(s + [n]) == NonNull(s) + if n.val != 0 then [n.val] else []
  {
    if n != null {
      assert (s + [n])[..|s|] == s;
    }
  }

  lemma LeafBare(t: Tree)
    requires Bare(t, null)
    ensures InOrder(t) == []
  {
  }

  lemma Unfolded(t: Tree, p: Node)
    requires Bare(t, p) && Distinct(t)
    ensures t.T? && t.node == p && Bare(t.l, p.left) && Bare(t.r, p.right)
    ensures InOrder(t) == InOrder(t.l) + [p] + InOrder(t.r)
    ensures p in Nodes(t) && Nodes(t.r) <= Nodes(t) && Distinct(t.r)
    ensures p.left == null ==> InOrder(t.l) == [] && InOrder(t) == [p] + InOrder(t.r)
    ensures p.left != null ==>
              && t.l.T? && p.left == t.l.node && p.left in Nodes(t)
              && Same(t, T(t.l.node, t.l.l, T(p, t.l.r, t.r)))
              && InOrder(t.l) == InOrder(t.l.l) + [t.l.node] + InOrder(t.l.r)
  {
    if p.left != null {
      SameSingle(p, t.l.node, t.l.l, t.l.r, t.r);
    }
  }

  lemma OneFreed(freed: seq<Node>, p: Node, rest: seq<Node>)
    ensures (freed + [p]) + rest == freed + ([p] + rest)
  {
  }

  /** The rotation of map_destroy: only links are kept. */
  method Turn(p: Node, q: Node, ghost t: Tree)
    requires Bare(t, p) && Distinct(t) && t.T? && t.l.T? && q == p.left
    modifies p`left, q`right
    ensures Bare(T(q, t.l.l, T(p, t.l.r, t.r)), q)
  {
    LeftApart(q, p, t.l.l, t.l.r, t.r);
    p.left := q.right;
    q.right := p;
    assert Bare(T(p, t.l.r, t.r), p);
  }

  lemma OnlyOnce(a: seq<Node>, n: Node, b: seq<Node>)
    requires Ordered(a + [n] + b)
    ensures n !in a + b
  {
    var s := a + [n] + b;
    if n in a + b {
      var i :| 0 <= i < |a + b| && (a + b)[i] == n;
      var j := if i < |a| then i else i + 1;
      assert s[j] == n && s[|a|] == n;
      OrderedDistinct(s, j, |a|);
    }
  }

  /** Nodes and order once `n` is in the hole of `c`. */
  lemma Inserted(c: Ctx, n: Node, order: seq<Node>, t': Tree, s: set<Node>)
    requires order == Before(c) + After(c) && s == CtxNodes(c)
    requires Same(Plug(c, T(n, Leaf, Leaf)), t')
    ensures InOrder(t') == Before(c) + [n] + After(c) && Nodes(t') == s + {n} && Distinct(t')
    ensures order[..|Before(c)|] == Before(c) && order[|Before(c)|..] == After(c)
  {
    hide Before, After;
    PlugOrder(c, T(n, Leaf, Leaf));
    PlugNodes(c, T(n, Leaf, Leaf));
    assert InOrder(T(n, Leaf, Leaf)) == [n];
  }

  /** Replacing a filled frame by a tree with the same nodes. */
  lemma SamePlug(c0: Ctx, t0: Tree, c: Ctx, t: Tree, t1: Tree, s: set<Node>)
    requires Same(Plug(c0, t0), Plug(c, t)) && c.Frame? && Same(Fill(c, t), t1)
    requires Nodes(t) + CtxNodes(c) <= s
    ensures Same(Plug(c0, t0), Plug(c.up, t1)) && Nodes(t1) + CtxNodes(c.up) <= s
  {
    PlugDistinct(c.up, Fill(c, t));
    PlugDistinct(c.up, t1);
    PlugOrder(c.up, Fill(c, t));
    PlugOrder(c.up, t1);
    PlugNodes(c.up, Fill(c, t));
    PlugNodes(c.up, t1);
    FrameNodes(c, t);
    assert Plug(c, t) == Plug(c.up, Fill(c, t));
  }

  ghost function Child(n: Node?): int
    reads if n == null then {} else {n}
  {
    if n == null then 0 else n.balance
  }

  lemma HeavyChild(t: Tree, y: Node, q: Node?)
    requires RepRoot(t, y, q)
    ensures y.balance > 0 ==> y.right != null
    ensures y.balance < 0 ==> y.left != null
  {
  }

  lemma RootBounds(t: Tree, y: Node, q: Node?)
    requires RepRoot(t, y, q)
    ensures -2 <= y.balance <= 2
  {
  }

  lemma FrameNodes(c: Ctx, t: Tree)
    requires c.Frame?
    ensures c.node in CtxNodes(c) && CtxNodes(c.up) <= CtxNodes(c)
    ensures Nodes(Fill(c, t)) <= CtxNodes(c) + Nodes(t)
    ensures H(Fill(c, t)) == Over(c, H(t))
  {
  }

  lemma RepRoots(t: Tree, p: Node?, parent: Node?)
    requires Rep(t, p, parent)
    ensures Root(t) == p
  {
  }

  lemma RepRight(t: Tree, p: Node?, parent: Node?)
    requires Rep(t, p, parent)
    ensures H(t) > 0 ==> p != null
  {
  }

  lemma RootIsRep(t: Tree, p: Node?, parent: Node?)
    requires RepRoot(t, p, parent) && -1 <= t.node.balance <= 1
    ensures Rep(t, p, parent)
  {
  }

  /** A frame seen from its node. */
  lemma OneMore(c: Ctx, t: Tree)
    requires c.Frame? && Distinct(t) && CtxDistinct(c) && Nodes(t) !! CtxNodes(c)
    ensures Distinct(Fill(c, t)) && CtxDistinct(c.up) && Nodes(Fill(c, t)) !! CtxNodes(c.up)
    ensures Nodes(Fill(c, t)) + CtxNodes(c.up) == Nodes(t) + CtxNodes(c)
    ensures Nodes(Fill(c, t)) == {c.node} + Nodes(t) + Nodes(c.sib)
    ensures c.node !in Nodes(t) && c.node !in Nodes(c.sib) && c.node !in CtxNodes(c.up)
    ensures Nodes(t) !! Nodes(c.sib)
    ensures H(Fill(c, t)) == Over(c, H(t))
    ensures Same(Fill(c, t), Fill(c, t))
  {
  }
}
