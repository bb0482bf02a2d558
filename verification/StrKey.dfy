/**
  Keys of the map and their comparison (map.c).  `StrCmp` is strncmp up to the
  shorter length, then the lengths; strncmp stops at a NUL, so two keys compare
  equal when they agree up to their first NUL and have the same length.
*/
module StrKey {

  /** strncmp(a, b, n): the difference of the first differing characters. */
  function StrNCmp(a: string, b: string, n: nat): int
    requires n <= |a| && n <= |b|
  {
    if n == 0 then 0
    else if a[0] != b[0] then a[0] as int - b[0] as int
    else if a[0] == '\0' then 0
    else StrNCmp(a[1..], b[1..], n - 1)
  }

  function StrCmp(a: string, b: string): int {
    var r := StrNCmp(a, b, if |a| < |b| then |a| else |b|);
    if r == 0 then |a| - |b| else r
  }

  /** The part of a key that the comparison sees, besides its length. */
  function CStr(a: string): string {
    if a == "" || a[0] == '\0' then "" else [a[0]] + CStr(a[1..])
  }

  /** What identifies a key. */
  datatype Key = Key(text: string, len: nat)

  function Canon(a: string): Key {
    Key(CStr(a), |a|)
  }

  lemma {:induction false} StrNCmpZero(a: string, b: string)
    requires |a| <= |b|
    ensures |a| == |b| ==> (StrNCmp(a, b, |a|) == 0 <==> CStr(a) == CStr(b))
  {
    if a != "" && a[0] == b[0] && a[0] != '\0' {
      StrNCmpZero(a[1..], b[1..]);
      assert [a[0]] + CStr(a[1..]) == [b[0]] + CStr(b[1..]) <==> CStr(a[1..]) == CStr(b[1..]) by {
        assert ([a[0]] + CStr(a[1..]))[1..] == CStr(a[1..]);
        assert ([b[0]] + CStr(b[1..]))[1..] == CStr(b[1..]);
      }
    } else if a != "" && a[0] != b[0] && a[0] != '\0' && b[0] != '\0' {
      assert CStr(a)[0] != CStr(b)[0];
    }
  }

  /** Keys compare equal exactly when they have the same identity. */
  lemma CmpZero(a: string, b: string)
    ensures StrCmp(a, b) == 0 <==> Canon(a) == Canon(b)
  {
    if |a| == |b| {
      StrNCmpZero(a, b);
    }
  }

  lemma {:induction false} CmpFlip(a: string, b: string, n: nat)
    requires n <= |a| && n <= |b|
    ensures StrNCmp(b, a, n) == -StrNCmp(a, b, n)
  {
    if n > 0 && a[0] == b[0] && a[0] != '\0' {
      CmpFlip(a[1..], b[1..], n - 1);
    }
  }

  lemma CmpAntisymmetric(a: string, b: string)
    ensures StrCmp(b, a) == -StrCmp(a, b)
  {
    CmpFlip(a, b, if |a| < |b| then |a| else |b|);
  }

  /** The comparison is a strict order. */
  lemma {:induction false} CmpTransitive(a: string, b: string, c: string)
    requires StrCmp(a, b) < 0 && StrCmp(b, c) < 0
    ensures StrCmp(a, c) < 0
  {
    if a != "" && b != "" && c != "" && a[0] == b[0] == c[0] && a[0] != '\0' {
      CmpTail(a, b);
      CmpTail(b, c);
      CmpTail(a, c);
      CmpTransitive(a[1..], b[1..], c[1..]);
    }
  }

  lemma CmpTail(a: string, b: string)
    requires a != "" && b != "" && a[0] == b[0] && a[0] != '\0'
    ensures StrCmp(a, b) == StrCmp(a[1..], b[1..])
  {
  }

  /** Embedded NULs make different keys collide. */
  lemma NulCollision(a: string, x: string, y: string)
    requires |x| == |y|
    ensures StrCmp(a + "\0" + x, a + "\0" + y) == 0
  {
    CStrCut(a, x);
    CStrCut(a, y);
    CmpZero(a + "\0" + x, a + "\0" + y);
  }

  lemma {:induction false} CStrCut(a: string, x: string)
    ensures CStr(a + "\0" + x) == CStr(a)
  {
    if a != "" {
      CStrCut(a[1..], x);
      assert (a + "\0" + x)[1..] == a[1..] + "\0" + x;
    }
  }

  // ----- the order in its own terms -----

  /** Nothing the comparison sees differs before position `i`. */
  predicate Agree(a: string, b: string, i: nat) {
    i <= |a| && i <= |b| && a[..i] == b[..i] && '\0' !in a[..i]
  }

  predicate SmallerAt(a: string, b: string, i: nat) {
    i < |a| && i < |b| && Agree(a, b, i) && a[i] < b[i]
  }

  predicate SameAt(a: string, b: string, i: nat) {
    i < |a| && i < |b| && Agree(a, b, i) ==> a[i] == b[i]
  }

  /** At the first difference `a` has the smaller character or, without one that is
      seen, it is shorter. */
  ghost predicate Precedes(a: string, b: string) {
    || (exists i :: SmallerAt(a, b, i))
    || (|a| < |b| && forall i :: SameAt(a, b, i))
  }

  lemma AgreeTail(a: string, b: string, i: nat)
    requires a != "" && b != "" && a[0] == b[0] && a[0] != '\0'
    ensures Agree(a, b, i + 1) <==> Agree(a[1..], b[1..], i)
  {
    if i + 1 <= |a| && i + 1 <= |b| {
      assert a[..i + 1] == [a[0]] + a[1..][..i] && b[..i + 1] == [b[0]] + b[1..][..i];
      assert a[..i + 1][1..] == a[1..][..i] && b[..i + 1][1..] == b[1..][..i];
    }
  }

  lemma AtTail(a: string, b: string, i: nat)
    requires a != "" && b != "" && a[0] == b[0] && a[0] != '\0'
    ensures SmallerAt(a, b, i + 1) <==> SmallerAt(a[1..], b[1..], i)
    ensures SameAt(a, b, i + 1) <==> SameAt(a[1..], b[1..], i)
    ensures !SmallerAt(a, b, 0) && SameAt(a, b, 0)
  {
    hide Agree;
    AgreeTail(a, b, i);
  }

  lemma PrecedesTail(a: string, b: string)
    requires a != "" && b != "" && a[0] == b[0] && a[0] != '\0'
    ensures Precedes(a, b) <==> Precedes(a[1..], b[1..])
  {
    hide SmallerAt, SameAt;
    var x, y := a[1..], b[1..];
    AtTail(a, b, 0);
    if i: nat :| SmallerAt(a, b, i) {
      AtTail(a, b, i - 1);
    }
    if i: nat :| SmallerAt(x, y, i) {
      AtTail(a, b, i);
    }
    if forall i :: SameAt(x, y, i) {
      forall i: nat ensures SameAt(a, b, i) {
        if i > 0 {
          AtTail(a, b, i - 1);
        }
      }
    }
    if forall i :: SameAt(a, b, i) {
      forall i: nat ensures SameAt(x, y, i) {
        AtTail(a, b, i);
      }
    }
  }

  /** The comparison is negative exactly if the first key precedes the second. */
  lemma {:induction false} CmpOrder(a: string, b: string)
    ensures StrCmp(a, b) < 0 <==> Precedes(a, b)
  {
    if a != "" && b != "" {
      if a[0] == b[0] && a[0] != '\0' {
        CmpTail(a, b);
        PrecedesTail(a, b);
        CmpOrder(a[1..], b[1..]);
      } else {
        CmpHead(a, b);
      }
    } else {
      assert a == "" ==> (Precedes(a, b) <==> b != "");
    }
  }

  /** Behind a difference or a NUL nothing is seen. */
  lemma AgreeShort(a: string, b: string, i: nat)
    requires a != "" && b != "" && (a[0] != b[0] || a[0] == '\0') && i > 0
    ensures !Agree(a, b, i)
  {
    if i <= |a| && i <= |b| {
      assert a[..i][0] == a[0] && b[..i][0] == b[0];
    }
  }

  lemma CmpHead(a: string, b: string)
    requires a != "" && b != "" && (a[0] != b[0] || a[0] == '\0')
    ensures StrCmp(a, b) < 0 <==> Precedes(a, b)
  {
    assert SmallerAt(a, b, 0) <==> a[0] < b[0];
    assert SameAt(a, b, 0) <==> a[0] == b[0];
    forall i: nat | i > 0 ensures !SmallerAt(a, b, i) && SameAt(a, b, i) {
      AgreeShort(a, b, i);
    }
  }

  /** Keys without a NUL are in dictionary order. */
  lemma DictionaryOrder(a: string, b: string)
    requires '\0' !in a && '\0' !in b
    ensures StrCmp(a, b) < 0 <==>
            a < b || exists i :: 0 <= i < |a| && i < |b| && a[..i] == b[..i] && a[i] < b[i]
  {
    CmpOrder(a, b);
    if |a| < |b| && forall i :: SameAt(a, b, i) {
      AgreeAll(a, b, |a|);
    }
    if i :| 0 <= i < |a| && i < |b| && a[..i] == b[..i] && a[i] < b[i] {
      assert SmallerAt(a, b, i);
    }
  }

  lemma {:induction false} AgreeAll(a: string, b: string, n: nat)
    requires '\0' !in a && n <= |a| < |b| && forall i :: SameAt(a, b, i)
    ensures a[..n] == b[..n]
  {
    if n > 0 {
      AgreeAll(a, b, n - 1);
      assert SameAt(a, b, n - 1);
    }
  }
}
