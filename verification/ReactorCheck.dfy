/**
  The reactor's own consistency check (check_io_data in io_wait.h), made before
  and after each change of the tables.
*/
module ReactorCheck {
  import opened ReactorTables
  import opened Reactor

  predicate GoodEntry(e: FdMap) {
    e.kind != 0 && e.fd > 0 && e.flags * WATCH != {}
  }

  predicate GoodSlot(hash: seq<FdMap>, arr: seq<int>, f: int)
    requires 0 <= f < |hash|
  {
    var e := hash[f];
    if e.kind == 0 then e.fd <= 0 && e.data == 0 && e.flags == {} else GoodEntry(e) && f in arr
  }

  /** Also that no unused entry is listed. */
  predicate PassedSlot(hash: seq<FdMap>, arr: seq<int>, f: int)
    requires 0 <= f < |hash|
  {
    GoodSlot(hash, arr, f) && (hash[f].kind == 0 ==> f !in arr)
  }

  /** The array lists the used entries once each; an entry's own number is not compared. */
  ghost predicate Consistent(hash: seq<FdMap>, arr: seq<int>) {
    && (forall i :: 0 <= i < |arr| ==> 0 <= arr[i] < |hash| && GoodEntry(hash[arr[i]]))
    && (forall f :: 0 <= f < |hash| ==> GoodSlot(hash, arr, f))
    && Distinct(arr)
  }

  predicate Distinct(arr: seq<int>) {
    forall i, j :: 0 <= i < j < |arr| ==> arr[i] != arr[j]
  }

  // ----- counting -----

  ghost function Elements(arr: seq<int>): set<int> {
    set i | 0 <= i < |arr| :: arr[i]
  }

  ghost function UsedBelow(hash: seq<FdMap>, k: int): set<int>
    requires k <= |hash|
  {
    set f | 0 <= f < k && hash[f].kind != 0
  }

  /** A list has as many elements as positions just when none repeats. */
  lemma {:induction false} CountDistinct(arr: seq<int>)
    ensures |Elements(arr)| <= |arr| && (|Elements(arr)| == |arr| <==> Distinct(arr))
  {
    if arr != [] {
      var n := |arr| - 1;
      var init := arr[..n];
      CountDistinct(init);
      ElementsLast(arr, n);
      DistinctLast(arr, n);
    }
  }

  lemma ElementsLast(arr: seq<int>, n: nat)
    requires |arr| == n + 1
    ensures Elements(arr) == Elements(arr[..n]) + {arr[n]}
  {
    var init := arr[..n];
    forall x | x in Elements(init) ensures x in Elements(arr) {
      var i :| 0 <= i < |init| && init[i] == x;
      assert arr[i] == x;
    }
    assert arr[n] in Elements(arr);
    forall x | x in Elements(arr) ensures x in Elements(init) + {arr[n]} {
      var i :| 0 <= i < |arr| && arr[i] == x;
      assert i < n ==> init[i] == x;
    }
  }

  lemma DistinctLast(arr: seq<int>, n: nat)
    requires |arr| == n + 1
    ensures Distinct(arr) <==> Distinct(arr[..n]) && arr[n] !in Elements(arr[..n])
  {
    var init := arr[..n];
    assert forall i :: 0 <= i < n ==> init[i] == arr[i];
    if arr[n] in Elements(init) {
      var i :| 0 <= i < |init| && init[i] == arr[n];
      assert arr[i] == arr[n];
    } else {
      forall i | 0 <= i < n ensures arr[i] != arr[n] {
        assert init[i] in Elements(init);
      }
    }
  }

  lemma UsedNext(hash: seq<FdMap>, k: int)
    requires 0 <= k < |hash|
    ensures |UsedBelow(hash, k + 1)| == |UsedBelow(hash, k)| + if hash[k].kind != 0 then 1 else 0
  {
    assert UsedBelow(hash, k + 1) == UsedBelow(hash, k) + if hash[k].kind != 0 then {k} else {};
  }

  /** With every listed entry used and every used entry listed, the counts agree just when no entry is listed twice. */
  lemma CountsAgree(hash: seq<FdMap>, arr: seq<int>)
    requires forall i :: 0 <= i < |arr| ==> 0 <= arr[i] < |hash| && GoodEntry(hash[arr[i]])
    requires forall f :: 0 <= f < |hash| ==> GoodSlot(hash, arr, f)
    ensures |UsedBelow(hash, |hash|)| == |arr| <==> Distinct(arr)
  {
    assert UsedBelow(hash, |hash|) == Elements(arr) by {
      forall f | f in UsedBelow(hash, |hash|) ensures f in Elements(arr) {
        assert GoodSlot(hash, arr, f);
      }
    }
    CountDistinct(arr);
  }

  // ----- the check -----

  function Mark(e: FdMap): FdMap {
    e.(flags := e.flags + {Checked})
  }

  ghost predicate Unmarked(hash: seq<FdMap>) {
    forall f :: 0 <= f < |hash| ==> Checked !in hash[f].flags
  }

  /** Entries listed in the first `k` positions are marked. */
  ghost predicate MarkedTo(was: seq<FdMap>, now: seq<FdMap>, arr: seq<int>, k: nat)
    requires k <= |arr|
  {
    |was| == |now| && forall f :: 0 <= f < |was| ==> now[f] == if f in arr[..k] then Mark(was[f]) else was[f]
  }

  /** Marks are gone from the used entries below `k`. */
  ghost predicate ClearedTo(was: seq<FdMap>, now: seq<FdMap>, arr: seq<int>, k: int) {
    |was| == |now| && forall f :: 0 <= f < |was| ==>
      now[f] == if f in arr && (f >= k || was[f].kind == 0) then Mark(was[f]) else was[f]
  }

  /**
    The check finds no fault just when the tables are consistent, and then
    leaves them as they were.
  */
  method CheckIoData(h: IoWait) returns (error: bool)
    requires h.Shape() && Unmarked(h.fdHash[..])
    requires forall i :: 0 <= i < h.fdNo ==> 0 <= h.fdArray[i] < h.fdHash.Length
    modifies h.fdHash
    ensures !error <==> Consistent(old(h.fdHash[..]), h.Fds())
    ensures !error ==> h.fdHash[..] == old(h.fdHash[..])
  {
    ghost var was, arr := h.fdHash[..], h.Fds();
    error := MarkListed(h);
    assert arr[..h.fdNo] == arr;
    var rest := CheckEntries(h, was);
    error := error || rest;
    CheckMeans(was, arr);
    if !error {
      assert h.fdHash[..] == was;
    }
  }

  lemma CheckMeans(hash: seq<FdMap>, arr: seq<int>)
    requires forall i :: 0 <= i < |arr| ==> 0 <= arr[i] < |hash|
    ensures Consistent(hash, arr) <==>
              && (forall i :: 0 <= i < |arr| ==> GoodEntry(hash[arr[i]]))
              && (forall f :: 0 <= f < |hash| ==> PassedSlot(hash, arr, f))
              && |UsedBelow(hash, |hash|)| == |arr|
  {
    hide GoodEntry;
    forall f | 0 <= f < |hash| ensures PassedSlot(hash, arr, f) ==> GoodSlot(hash, arr, f) {
    }
    if (forall i :: 0 <= i < |arr| ==> GoodEntry(hash[arr[i]])) &&
       (forall f :: 0 <= f < |hash| ==> GoodSlot(hash, arr, f)) {
      CountsAgree(hash, arr);
      forall f | 0 <= f < |hash| ensures PassedSlot(hash, arr, f) {
        Listed(hash, arr, f);
      }
    }
  }

  lemma Listed(hash: seq<FdMap>, arr: seq<int>, f: int)
    requires 0 <= f < |hash| && forall i :: 0 <= i < |arr| ==> 0 <= arr[i] < |hash| && GoodEntry(hash[arr[i]])
    ensures f in arr ==> hash[f].kind != 0
  {
  }

  method MarkListed(h: IoWait) returns (error: bool)
    requires h.Shape()
    requires forall i :: 0 <= i < h.fdNo ==> 0 <= h.fdArray[i] < h.fdHash.Length
    modifies h.fdHash
    ensures MarkedTo(old(h.fdHash[..]), h.fdHash[..], h.Fds(), h.fdNo)
    ensures error <==> exists i :: 0 <= i < h.fdNo && !GoodEntry(old(h.fdHash[..])[h.Fds()[i]])
  {
    ghost var was, arr := h.fdHash[..], h.Fds();
    error := false;
    for k := 0 to h.fdNo
      invariant h.Fds() == arr && MarkedTo(was, h.fdHash[..], arr, k)
      invariant error <==> exists i :: 0 <= i < k && !GoodEntry(was[arr[i]])
    {
      var fd := h.fdArray[k];
      var e := h.fdHash[fd];
      assert e.flags * WATCH == was[fd].flags * WATCH;
      if e.kind == 0 || e.fd <= 0 || e.flags * WATCH == {} {
        error := true;
      }
      h.fdHash[fd] := Mark(e);
      assert arr[..k + 1] == arr[..k] + [fd];
    }
  }

  lemma SlotSeen(was: seq<FdMap>, arr: seq<int>, k: int)
    requires 0 <= k < |was| && Unmarked(was)
    ensures var e := if k in arr then Mark(was[k]) else was[k];
      && e.kind == was[k].kind
      && e.flags - {Checked} == was[k].flags
      && (PassedSlot(was, arr, k) <==>
            if e.kind == 0 then e.fd <= 0 && e.data == 0 && e.flags == {}
            else e.fd > 0 && e.flags * WATCH != {} && Checked in e.flags)
  {
    assert Mark(was[k]).flags * WATCH == was[k].flags * WATCH;
    assert Checked in Mark(was[k]).flags;
  }

  lemma NoneCleared(was: seq<FdMap>, now: seq<FdMap>, arr: seq<int>)
    requires MarkedTo(was, now, arr, |arr|)
    ensures ClearedTo(was, now, arr, 0) && UsedBelow(was, 0) == {}
  {
    assert arr[..|arr|] == arr;
  }

  lemma ClearedNext(was: seq<FdMap>, now: seq<FdMap>, arr: seq<int>, k: int)
    requires 0 <= k < |was| && ClearedTo(was, now, arr, k) && Unmarked(was)
    ensures |now| == |was| && now[k] == if k in arr then Mark(was[k]) else was[k]
    ensures ClearedTo(was, if now[k].kind == 0 then now else now[k := now[k].(flags := now[k].flags - {Checked})],
                      arr, k + 1)
  {
    SlotSeen(was, arr, k);
  }

  method CheckEntries(h: IoWait, ghost was: seq<FdMap>) returns (error: bool)
    requires h.Shape() && Unmarked(was) && MarkedTo(was, h.fdHash[..], h.Fds(), h.fdNo)
    requires forall i :: 0 <= i < h.fdNo ==> 0 <= h.fdArray[i] < h.fdHash.Length
    modifies h.fdHash
    ensures ClearedTo(was, h.fdHash[..], h.Fds(), |was|)
    ensures error <==> !(forall f :: 0 <= f < |was| ==> PassedSlot(was, h.Fds(), f))
                       || |UsedBelow(was, |was|)| != h.fdNo
  {
    hide PassedSlot, UsedBelow, ClearedTo, MarkedTo;
    ghost var arr := h.Fds();
    error := false;
    var t := 0;
    NoneCleared(was, h.fdHash[..], arr);
    for k := 0 to h.fdHash.Length
      invariant h.Fds() == arr && ClearedTo(was, h.fdHash[..], arr, k) && t == |UsedBelow(was, k)|
      invariant error <==> exists f :: 0 <= f < k && !PassedSlot(was, arr, f)
    {
      var e := h.fdHash[k];
      UsedNext(was, k);
      SlotSeen(was, arr, k);
      ClearedNext(was, h.fdHash[..], arr, k);
      if e.kind == 0 {
        if e.fd > 0 || e.data != 0 || e.flags != {} {
          error := true;
        }
      } else {
        if e.fd <= 0 || e.flags * WATCH == {} || Checked !in e.flags {
          error := true;
        }
        h.fdHash[k] := e.(flags := e.flags - {Checked});
        t := t + 1;
      }
    }
    if t != h.fdNo {
      error := true;
    }
  }

  /** Entries in use carry their own number. */
  ghost predicate Numbered(hash: seq<FdMap>) {
    forall f :: 0 <= f < |hash| && hash[f].kind != 0 ==> hash[f].fd == f
  }

  /** What every request keeps is what the check looks for and, beyond it, the numbers. */
  lemma LinkedConsistent(hash: seq<FdMap>, arr: seq<int>)
    ensures Linked(hash, arr) <==> Consistent(hash, arr) && Numbered(hash)
  {
    if Linked(hash, arr) {
      forall f | 0 <= f < |hash|
        ensures GoodSlot(hash, arr, f) && (hash[f].kind != 0 ==> hash[f].fd == f)
      {
        assert Sound(hash, arr, f);
      }
      forall i | 0 <= i < |arr| ensures GoodEntry(hash[arr[i]]) {
        assert Sound(hash, arr, arr[i]);
      }
    }
    if Consistent(hash, arr) && Numbered(hash) {
      forall f | 0 <= f < |hash| ensures Sound(hash, arr, f) {
        assert GoodSlot(hash, arr, f);
      }
      forall i | 0 <= i < |arr| ensures 0 < arr[i] < |hash| && hash[arr[i]].kind != 0 {
        assert GoodEntry(hash[arr[i]]);
      }
    }
  }
}
