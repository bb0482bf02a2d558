/**
  The mathematical map that a sequence of nodes in key order stands for.
*/
module AvlModel {
  import opened StrKey
  import opened AvlTree

  /** Strictly increasing keys. */
  ghost predicate Ordered(s: seq<Node>) {
    forall i, j :: 0 <= i < j < |s| ==> StrCmp(s[i].key, s[j].key) < 0
  }

  /** Every key precedes the later ones. */
  ghost predicate Ascending(s: seq<Node>) {
    forall i, j :: 0 <= i < j < |s| ==> Precedes(s[i].key, s[j].key)
  }

  lemma OrderedAscends(s: seq<Node>)
    ensures Ordered(s) <==> Ascending(s)
  {
    hide StrCmp, Precedes;
    forall i, j | 0 <= i < j < |s| ensures StrCmp(s[i].key, s[j].key) < 0 <==> Precedes(s[i].key, s[j].key) {
      CmpOrder(s[i].key, s[j].key);
    }
  }

  ghost function Denote(s: seq<Node>): map<Key, int>
    reads s`val
  {
    if s == [] then map[]
    else Denote(s[1..])[Canon(s[0].key) := s[0].val]
  }

  /** A key is bound exactly if a node has it. */
  lemma {:induction false} DenoteKeys(s: seq<Node>, k: Key)
    ensures k in Denote(s) <==> exists i :: 0 <= i < |s| && Canon(s[i].key) == k
  {
    if s != [] {
      DenoteKeys(s[1..], k);
      if k in Denote(s[1..]) {
        var i :| 0 <= i < |s[1..]| && Canon(s[1..][i].key) == k;
        assert s[i + 1] == s[1..][i];
      }
      if i :| 0 <= i < |s| && Canon(s[i].key) == k && i != 0 {
        assert s[1..][i - 1] == s[i];
      }
    }
  }

  lemma OrderedDistinct(s: seq<Node>, i: nat, j: nat)
    requires Ordered(s) && i < |s| && j < |s| && Canon(s[i].key) == Canon(s[j].key)
    ensures i == j
  {
    CmpZero(s[i].key, s[j].key);
    CmpZero(s[j].key, s[i].key);
  }

  /** Each node's key is bound to its value. */
  lemma {:induction false} DenoteAt(s: seq<Node>, i: nat)
    requires Ordered(s) && i < |s|
    ensures Canon(s[i].key) in Denote(s) && Denote(s)[Canon(s[i].key)] == s[i].val
  {
    if i > 0 {
      DenoteAt(s[1..], i - 1);
      if Canon(s[i].key) == Canon(s[0].key) {
        OrderedDistinct(s, i, 0);
      }
    }
  }

  /** A node more is a binding more. */
  lemma {:induction false} DenoteInsert(a: seq<Node>, n: Node, b: seq<Node>)
    requires Ordered(a + [n] + b)
    ensures Canon(n.key) !in Denote(a + b)
    ensures Denote(a + [n] + b) == Denote(a + b)[Canon(n.key) := n.val]
  {
    hide Ordered, Canon, Denote;
    if a == [] {
      assert a + [n] + b == [n] + b && a + b == b;
      Unbound(n, b);
      DenoteHead(n, b);
    } else {
      var x, a' := a[0], a[1..];
      assert a + [n] + b == [x] + (a' + [n] + b) && a + b == [x] + (a' + b);
      OrderedTail(x, a' + [n] + b);
      DenoteInsert(a', n, b);
      DenoteHead(x, a' + [n] + b);
      DenoteHead(x, a' + b);
      HeadDiffers(x, a' + [n] + b, |a'|);
    }
  }

  lemma DenoteHead(n: Node, s: seq<Node>)
    ensures Denote([n] + s) == Denote(s)[Canon(n.key) := n.val]
  {
    assert ([n] + s)[1..] == s;
  }

  lemma OrderedTail(n: Node, s: seq<Node>)
    requires Ordered([n] + s)
    ensures Ordered(s)
  {
    forall i, j | 0 <= i < j < |s| ensures StrCmp(s[i].key, s[j].key) < 0 {
      assert ([n] + s)[i + 1] == s[i] && ([n] + s)[j + 1] == s[j];
    }
  }

  lemma HeadDiffers(n: Node, s: seq<Node>, i: nat)
    requires Ordered([n] + s) && i < |s|
    ensures Canon(s[i].key) != Canon(n.key)
  {
    assert ([n] + s)[0] == n && ([n] + s)[i + 1] == s[i];
    CmpZero(n.key, s[i].key);
    CmpZero(s[i].key, n.key);
  }

  lemma Unbound(n: Node, s: seq<Node>)
    requires Ordered([n] + s)
    ensures Canon(n.key) !in Denote(s)
  {
    hide Ordered, Canon;
    DenoteKeys(s, Canon(n.key));
    forall i | 0 <= i < |s| ensures Canon(s[i].key) != Canon(n.key) {
      HeadDiffers(n, s, i);
    }
  }

  /** Where a key belongs among ordered nodes. */
  ghost predicate Fits(a: seq<Node>, key: string, b: seq<Node>) {
    && (forall i :: 0 <= i < |a| ==> StrCmp(a[i].key, key) < 0)
    && (forall i :: 0 <= i < |b| ==> StrCmp(key, b[i].key) < 0)
  }

  lemma FitsOrdered(a: seq<Node>, n: Node, b: seq<Node>)
    requires Ordered(a + b) && Fits(a, n.key, b)
    ensures Ordered(a + [n] + b)
  {
    var s := a + [n] + b;
    forall i, j | 0 <= i < j < |s| ensures StrCmp(s[i].key, s[j].key) < 0 {
      if i != |a| && j != |a| {
        var i', j' := if i < |a| then i else i - 1, if j < |a| then j else j - 1;
        assert (a + b)[i'] == s[i] && (a + b)[j'] == s[j];
      }
    }
  }

  /** Such a key is not bound. */
  lemma FitsUnbound(a: seq<Node>, key: string, b: seq<Node>)
    requires Fits(a, key, b)
    ensures Canon(key) !in Denote(a + b)
  {
    hide Canon;
    DenoteKeys(a + b, Canon(key));
    forall i | 0 <= i < |a + b| ensures Canon((a + b)[i].key) != Canon(key) {
      CmpZero((a + b)[i].key, key);
      CmpZero(key, (a + b)[i].key);
    }
  }

  lemma OrderedRemove(a: seq<Node>, n: Node, b: seq<Node>)
    requires Ordered(a + [n] + b)
    ensures Ordered(a + b)
  {
    var s := a + [n] + b;
    forall i, j | 0 <= i < j < |a + b| ensures StrCmp((a + b)[i].key, (a + b)[j].key) < 0 {
      var i', j' := if i < |a| then i else i + 1, if j < |a| then j else j + 1;
      assert (a + b)[i] == s[i'] && (a + b)[j] == s[j'];
    }
  }

  /** A node less is a binding less. */
  lemma DenoteRemove(a: seq<Node>, n: Node, b: seq<Node>)
    requires Ordered(a + [n] + b)
    ensures Denote(a + b) == Denote(a + [n] + b) - {Canon(n.key)}
  {
    DenoteInsert(a, n, b);
  }

  /** Going left or right of a node keeps the place of a key in sight. */
  lemma GoLeft(a: seq<Node>, n: Node, r: seq<Node>, b: seq<Node>, key: string)
    requires Fits(a, key, b) && StrCmp(key, n.key) < 0
    requires forall i :: 0 <= i < |r| ==> StrCmp(n.key, r[i].key) < 0
    ensures Fits(a, key, ([n] + r) + b)
  {
    forall i | 0 <= i < |r| ensures StrCmp(key, r[i].key) < 0 {
      CmpTransitive(key, n.key, r[i].key);
    }
  }

  lemma GoRight(a: seq<Node>, l: seq<Node>, n: Node, b: seq<Node>, key: string)
    requires Fits(a, key, b) && StrCmp(n.key, key) < 0
    requires forall i :: 0 <= i < |l| ==> StrCmp(l[i].key, n.key) < 0
    ensures Fits(a + (l + [n]), key, b)
  {
    forall i | 0 <= i < |l| ensures StrCmp(l[i].key, key) < 0 {
      CmpTransitive(l[i].key, n.key, key);
    }
  }

  /** The neighbours of a node in order. */
  lemma OrderedAround(a: seq<Node>, l: seq<Node>, n: Node, r: seq<Node>, b: seq<Node>)
    requires Ordered(a + (l + [n] + r) + b)
    ensures forall i :: 0 <= i < |l| ==> StrCmp(l[i].key, n.key) < 0
    ensures forall i :: 0 <= i < |r| ==> StrCmp(n.key, r[i].key) < 0
  {
    var s := a + (l + [n] + r) + b;
    var k := |a| + |l|;
    assert s[k] == n;
    forall i | 0 <= i < |l| ensures StrCmp(l[i].key, n.key) < 0 {
      assert s[|a| + i] == l[i];
    }
    forall i | 0 <= i < |r| ensures StrCmp(n.key, r[i].key) < 0 {
      assert s[k + 1 + i] == r[i];
    }
  }

  /** One step of a search. */
  lemma SearchStep(c: Ctx, t: Tree, key: string)
    requires t.T? && Ordered(Before(c) + InOrder(t) + After(c)) && Fits(Before(c), key, After(c))
    ensures StrCmp(key, t.node.key) < 0 ==>
              var c' := Frame(t.node, true, t.r, c); Fits(Before(c'), key, After(c'))
    ensures StrCmp(key, t.node.key) > 0 ==>
              var c' := Frame(t.node, false, t.l, c); Fits(Before(c'), key, After(c'))
    ensures Plug(Frame(t.node, true, t.r, c), t.l) == Plug(c, t)
    ensures Plug(Frame(t.node, false, t.l, c), t.r) == Plug(c, t)
  {
    hide Ordered, Fits, StrCmp;
    OrderedAround(Before(c), InOrder(t.l), t.node, InOrder(t.r), After(c));
    if StrCmp(key, t.node.key) < 0 {
      GoLeft(Before(c), t.node, InOrder(t.r), After(c), key);
    } else if StrCmp(key, t.node.key) > 0 {
      CmpAntisymmetric(key, t.node.key);
      GoRight(Before(c), InOrder(t.l), t.node, After(c), key);
    }
  }
}
