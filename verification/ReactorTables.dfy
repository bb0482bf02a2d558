/**
  The reactor's three tables as values (io_wait.h): the map from descriptors to
  watch entries, the array of watched descriptors ordered by priority, and the
  index in that array where each priority ends.
*/
module ReactorTables {

  datatype Flag = Read | Write | TrigRead | TrigWrite | Checked

  /** The flags a caller may ask for. */
  const WATCH: set<Flag> := {Read, Write}

  /** `kind` is 0 for an unused entry. */
  datatype FdMap = FdMap(fd: int, kind: int, data: int, flags: set<Flag>)

  const ERASED := FdMap(-1, 0, 0, {})

  // ----- the map and the array -----

  predicate Sound(hash: seq<FdMap>, arr: seq<int>, f: int)
    requires 0 <= f < |hash|
  {
    var e := hash[f];
    if e.kind == 0 then e.fd <= 0 && e.data == 0 && e.flags == {}
    else f in arr && e.fd == f && f > 0 && e.flags * WATCH != {}
  }

  /** The array lists the used entries, each once. */
  ghost predicate Linked(hash: seq<FdMap>, arr: seq<int>) {
    && (forall i :: 0 <= i < |arr| ==> 0 < arr[i] < |hash| && hash[arr[i]].kind != 0)
    && (forall i, j :: 0 <= i < j < |arr| ==> arr[i] != arr[j])
    && (forall f :: 0 <= f < |hash| ==> Sound(hash, arr, f))
  }

  lemma EntrySound(hash: seq<FdMap>, arr: seq<int>, f: int)
    requires Linked(hash, arr) && 0 <= f < |hash|
    ensures Sound(hash, arr, f)
  {
  }

  function Insert(arr: seq<int>, n: nat, x: int): (r: seq<int>)
    requires n <= |arr|
    ensures |r| == |arr| + 1 && r[n] == x
    ensures forall i :: 0 <= i < n ==> r[i] == arr[i]
    ensures forall i :: n < i < |r| ==> r[i] == arr[i - 1]
  {
    arr[..n] + [x] + arr[n..]
  }

  function Drop(arr: seq<int>, n: nat): (r: seq<int>)
    requires n < |arr|
    ensures |r| == |arr| - 1
    ensures forall i :: 0 <= i < n ==> r[i] == arr[i]
    ensures forall i :: n <= i < |r| ==> r[i] == arr[i + 1]
  {
    arr[..n] + arr[n + 1..]
  }

  lemma InsertMembers(arr: seq<int>, n: nat, x: int, f: int)
    requires n <= |arr|
    ensures f in Insert(arr, n, x) <==> f == x || f in arr
  {
    if f in arr {
      var i :| 0 <= i < |arr| && arr[i] == f;
      assert Insert(arr, n, x)[if i < n then i else i + 1] == f;
    }
    assert Insert(arr, n, x)[n] == x;
  }

  lemma DropMembers(arr: seq<int>, n: nat, f: int)
    requires n < |arr| && forall i, j :: 0 <= i < j < |arr| ==> arr[i] != arr[j]
    ensures f in Drop(arr, n) <==> f != arr[n] && f in arr
  {
    if f in arr && f != arr[n] {
      var i :| 0 <= i < |arr| && arr[i] == f;
      assert Drop(arr, n)[if i < n then i else i - 1] == f;
    }
  }

  lemma LinkNew(hash: seq<FdMap>, arr: seq<int>, n: nat, x: int, e: FdMap)
    requires Linked(hash, arr) && n <= |arr| && 0 < x < |hash| && hash[x].kind == 0
    requires e.kind != 0 && e.fd == x && e.flags * WATCH != {}
    ensures Linked(hash[x := e], Insert(arr, n, x))
  {
    var hash', arr' := hash[x := e], Insert(arr, n, x);
    forall f | 0 <= f < |hash| ensures Sound(hash', arr', f) {
      assert Sound(hash, arr, f);
      InsertMembers(arr, n, x, f);
    }
  }

  /** An entry may change while it stays used, or stays unused. */
  lemma LinkUpdate(hash: seq<FdMap>, arr: seq<int>, x: int, e: FdMap)
    requires Linked(hash, arr) && 0 <= x < |hash| && (e.kind == 0 <==> hash[x].kind == 0)
    requires if e.kind == 0 then e.fd <= 0 && e.data == 0 && e.flags == {} else e.fd == x && e.flags * WATCH != {}
    ensures Linked(hash[x := e], arr)
  {
    var hash' := hash[x := e];
    forall f | 0 <= f < |hash| ensures Sound(hash', arr, f) {
      assert Sound(hash, arr, f);
    }
  }

  lemma LinkErase(hash: seq<FdMap>, arr: seq<int>, n: nat)
    requires Linked(hash, arr) && n < |arr|
    ensures Linked(hash[arr[n] := ERASED], Drop(arr, n))
  {
    var hash', arr' := hash[arr[n] := ERASED], Drop(arr, n);
    forall f | 0 <= f < |hash| ensures Sound(hash', arr', f) {
      assert Sound(hash, arr, f);
      DropMembers(arr, n, f);
    }
  }

  // ----- the array and the priorities -----

  function Lo(prio: seq<int>, p: nat): int
    requires p < |prio|
  {
    if p == 0 then 0 else prio[p - 1]
  }

  /** `level` is the priority each descriptor was added with. */
  ghost predicate Segments(arr: seq<int>, prio: seq<int>, level: map<int, nat>) {
    && |prio| > 0 && prio[0] >= 0 && prio[|prio| - 1] == |arr|
    && Ascending(prio)
    && (forall f :: f in level <==> f in arr)
    && (forall i :: 0 <= i < |arr| ==> Placed(prio, level, arr[i], i))
  }

  predicate Ascending(prio: seq<int>) {
    forall i, j :: 0 <= i < j < |prio| ==> prio[i] <= prio[j]
  }

  /** Position `i` is in the segment of the descriptor's priority. */
  predicate Placed(prio: seq<int>, level: map<int, nat>, x: int, i: int) {
    x in level && level[x] < |prio| && Lo(prio, level[x]) <= i < prio[level[x]]
  }

  lemma SegmentsAscend(arr: seq<int>, prio: seq<int>, level: map<int, nat>)
    requires Segments(arr, prio, level)
    ensures Ascending(prio)
  {
  }

  function Bump(prio: seq<int>, p: nat): (r: seq<int>)
    ensures |r| == |prio| && forall j :: 0 <= j < |r| ==> r[j] == if j < p then prio[j] else prio[j] + 1
  {
    seq(|prio|, j requires 0 <= j < |prio| => if j < p then prio[j] else prio[j] + 1)
  }

  function Sink(prio: seq<int>, n: int): (r: seq<int>)
    ensures |r| == |prio| && forall j :: 0 <= j < |r| ==> r[j] == if prio[j] <= n then prio[j] else prio[j] - 1
  {
    seq(|prio|, j requires 0 <= j < |prio| => if prio[j] <= n then prio[j] else prio[j] - 1)
  }

  lemma BumpPlaced(prio: seq<int>, level: map<int, nat>, p: nat, x: int, y: int, i: int)
    requires Ascending(prio) && p < |prio| && Placed(prio, level, y, i) && x != y
    ensures Placed(Bump(prio, p), level[x := p], y, if i < prio[p] then i else i + 1)
  {
    var q := level[y];
    assert q < p ==> prio[q] <= prio[p];
    assert p < q ==> p == q - 1 || prio[p] <= prio[q - 1];
  }

  lemma SinkPlaced(prio: seq<int>, level: map<int, nat>, x: int, n: nat, y: int, i: int)
    requires Ascending(prio) && Placed(prio, level, y, i) && x != y && i != n
    ensures Placed(Sink(prio, n), level - {x}, y, if i < n then i else i - 1)
  {
  }

  /** A descriptor put at the end of its segment leaves all others in theirs. */
  lemma InsertSegments(arr: seq<int>, prio: seq<int>, level: map<int, nat>, p: nat, x: int)
    requires Segments(arr, prio, level) && p < |prio| && x !in arr
    ensures 0 <= prio[p] <= |arr| && Segments(Insert(arr, prio[p], x), Bump(prio, p), level[x := p])
  {
    hide Placed, Insert;
    PrioBounds(arr, prio, level, p);
    var arr', prio', level' := Insert(arr, prio[p], x), Bump(prio, p), level[x := p];
    forall f ensures f in level' <==> f in arr' {
      InsertMembers(arr, prio[p], x, f);
    }
    forall i | 0 <= i < |arr'| ensures Placed(prio', level', arr'[i], i) {
      if i == prio[p] {
        NewPlaced(prio, level, p, x);
      } else {
        var j := if i < prio[p] then i else i - 1;
        assert Placed(prio, level, arr[j], j);
        BumpPlaced(prio, level, p, x, arr[j], j);
      }
    }
  }

  lemma NewPlaced(prio: seq<int>, level: map<int, nat>, p: nat, x: int)
    requires Ascending(prio) && p < |prio| && prio[p] >= 0
    ensures Placed(Bump(prio, p), level[x := p], x, prio[p])
  {
  }

  lemma DropSegments(arr: seq<int>, prio: seq<int>, level: map<int, nat>, n: nat)
    requires Segments(arr, prio, level) && n < |arr| && forall i, j :: 0 <= i < j < |arr| ==> arr[i] != arr[j]
    ensures Segments(Drop(arr, n), Sink(prio, n), level - {arr[n]})
  {
    hide Placed, Drop;
    PrioBounds(arr, prio, level, 0);
    var arr', prio', level' := Drop(arr, n), Sink(prio, n), level - {arr[n]};
    forall f ensures f in level' <==> f in arr' {
      DropMembers(arr, n, f);
    }
    forall i | 0 <= i < |arr'| ensures Placed(prio', level', arr'[i], i) {
      var j := if i < n then i else i + 1;
      assert Placed(prio, level, arr[j], j);
      SinkPlaced(prio, level, arr[n], n, arr[j], j);
    }
  }

  lemma PrioBounds(arr: seq<int>, prio: seq<int>, level: map<int, nat>, p: nat)
    requires Segments(arr, prio, level) && p < |prio|
    ensures 0 <= prio[p] <= |arr|
  {
    assert prio[0] <= prio[p] || p == 0;
    assert prio[p] <= prio[|prio| - 1] || p == |prio| - 1;
  }

  // ----- the kernel's side -----

  /** The kernel watches exactly what the map says. */
  ghost predicate Mirrors(interest: map<int, set<Flag>>, hash: seq<FdMap>) {
    && (forall f :: f in interest ==> 0 <= f < |hash| && hash[f].kind != 0)
    && (forall f :: 0 <= f < |hash| && hash[f].kind != 0 ==> f in interest && interest[f] == hash[f].flags * WATCH)
  }

  lemma MirrorHas(interest: map<int, set<Flag>>, hash: seq<FdMap>, f: int)
    requires Mirrors(interest, hash) && 0 <= f < |hash|
    ensures f in interest <==> hash[f].kind != 0
  {
  }

  lemma MirrorSet(interest: map<int, set<Flag>>, hash: seq<FdMap>, f: int, e: FdMap)
    requires Mirrors(interest, hash) && 0 <= f < |hash|
    ensures e.kind != 0 ==> Mirrors(interest[f := e.flags * WATCH], hash[f := e])
    ensures e.kind == 0 ==> Mirrors(interest - {f}, hash[f := e])
    ensures (e.kind == 0 <==> hash[f].kind == 0) && e.flags * WATCH == hash[f].flags * WATCH ==>
              Mirrors(interest, hash[f := e])
  {
  }

  lemma MirrorBroken(interest: map<int, set<Flag>>, hash: seq<FdMap>, f: int, e: FdMap)
    requires Mirrors(interest, hash) && 0 <= f < |hash| && hash[f].kind != 0
    requires e.kind == 0 || e.flags * WATCH != hash[f].flags * WATCH
    ensures !Mirrors(interest, hash[f := e])
  {
  }

  // ----- one request -----

  /** What an entry becomes when flags are added, and when the kernel refuses them. */
  function Added(e: FdMap, fd: int, kind: int, data: int, flags: set<Flag>, ok: bool): FdMap {
    if ok then FdMap(fd, kind, data, e.flags + flags)
    else if e.kind == 0 then ERASED
    else FdMap(fd, kind, data, e.flags)
  }

  lemma AddKeeps(hash: seq<FdMap>, arr: seq<int>, prio: seq<int>, level: map<int, nat>,
                 fd: int, kind: int, data: int, p: nat, flags: set<Flag>, ok: bool)
    requires Linked(hash, arr) && Segments(arr, prio, level) && 0 <= fd < |hash| && p < |prio|
    requires kind != 0 && {} < flags <= WATCH
    ensures !ok || hash[fd].kind != 0 ==> Linked(hash[fd := Added(hash[fd], fd, kind, data, flags, ok)], arr)
    ensures ok && hash[fd].kind == 0 ==>
              && 0 <= prio[p] <= |arr|
              && (fd != 0 ==> Segments(Insert(arr, prio[p], fd), Bump(prio, p), level[fd := p]))
              && (Linked(hash[fd := Added(hash[fd], fd, kind, data, flags, ok)], Insert(arr, prio[p], fd)) <==> fd != 0)
  {
    hide Segments;
    var e := Added(hash[fd], fd, kind, data, flags, ok);
    assert Sound(hash, arr, fd);
    if !ok || hash[fd].kind != 0 {
      LinkUpdate(hash, arr, fd, e);
    } else {
      PrioBounds(arr, prio, level, p);
      if fd == 0 {
        assert !Sound(hash[fd := e], Insert(arr, prio[p], fd), 0);
      } else {
        InsertSegments(arr, prio, level, p, fd);
        LinkNew(hash, arr, prio[p], fd, e);
      }
    }
  }

  /** What an entry becomes when flags are removed. */
  function Removed(e: FdMap, closing: bool, flags: set<Flag>): FdMap {
    if closing || e.flags * WATCH == flags then ERASED else e.(flags := e.flags - flags)
  }

  lemma FlagsLeft(had: set<Flag>, flags: set<Flag>)
    requires flags <= WATCH && had * flags != {}
    ensures (had - flags) * WATCH == had * WATCH - flags != had * WATCH
    ensures (had - flags) * WATCH == {} <==> had * WATCH <= flags
  {
    var g :| g in had * flags;
    assert g in had * WATCH;
    if (had - flags) * WATCH == {} {
      forall h | h in had * WATCH ensures h in flags {
        assert h !in (had - flags) * WATCH;
      }
    }
  }

  /** More is removed than was watched, and the descriptor is not being closed. */
  predicate Overreach(e: FdMap, closing: bool, flags: set<Flag>) {
    !closing && e.flags * WATCH < flags
  }

  lemma RemoveKeeps(hash: seq<FdMap>, arr: seq<int>, prio: seq<int>, level: map<int, nat>,
                    n: nat, closing: bool, flags: set<Flag>)
    requires Linked(hash, arr) && Segments(arr, prio, level) && n < |arr| && flags <= WATCH
    requires 0 <= arr[n] < |hash| && hash[arr[n]].flags * flags != {}
    ensures var e := Removed(hash[arr[n]], closing, flags);
      if e == ERASED then
        && Linked(hash[arr[n] := e], Drop(arr, n))
        && Segments(Drop(arr, n), Sink(prio, n), level - {arr[n]})
      else Linked(hash[arr[n] := e], arr) <==> !Overreach(hash[arr[n]], closing, flags)
  {
    hide Segments, Drop, Sink;
    var x := arr[n];
    var e := Removed(hash[x], closing, flags);
    EntrySound(hash, arr, x);
    FlagsLeft(hash[x].flags, flags);
    if e == ERASED {
      LinkErase(hash, arr, n);
      DropSegments(arr, prio, level, n);
    } else if Overreach(hash[x], closing, flags) {
      assert !Sound(hash[x := e], arr, x);
    } else {
      LinkUpdate(hash, arr, x, e);
    }
  }
}
