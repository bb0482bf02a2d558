/**
  One pass of the epoll loop (io_wait_loop.h): events are recorded as trigger
  flags on the watch entries, then the array is scanned from its end and the
  handlers run.  A handler may remove watches, its own or others', which shifts
  the array under the scan.
*/
module ReactorLoop {
  import opened ReactorTables
  import opened Reactor

  const TRIG: set<Flag> := {TrigRead, TrigWrite}

  /** A handler's call to remove a watch. */
  datatype Removal = Removal(fd: int, idx: int, closing: bool, flags: set<Flag>, fault: bool)

  /** The removal finds a watch that has some of its flags. */
  predicate Hits(hash: seq<FdMap>, d: Removal) {
    0 <= d.fd < |hash| && hash[d.fd].kind != 0 && hash[d.fd].flags * d.flags != {}
  }

  /** The watch entries after the removal. */
  function After(hash: seq<FdMap>, d: Removal): seq<FdMap> {
    if Hits(hash, d) then hash[d.fd := Removed(hash[d.fd], d.closing, d.flags)] else hash
  }

  /** Does not remove more flags than the entry has at the time of the call. */
  predicate Bounded(hash: seq<FdMap>, d: Removal) {
    d.flags <= WATCH && (Hits(hash, d) ==> !Overreach(hash[d.fd], d.closing, d.flags))
  }

  /** Each removal is bounded on the table the ones before it leave. */
  predicate Proper(hash: seq<FdMap>, todo: seq<Removal>)
    decreases |todo|
  {
    todo == [] || (Bounded(hash, todo[0]) && Proper(After(hash, todo[0]), todo[1..]))
  }

  /** reactor_del_all without closing names both flags: it is bounded exactly on
      descriptors that are not watched or watched for both. */
  lemma DelAllBounded(hash: seq<FdMap>, d: Removal)
    requires d.flags == WATCH && !d.closing
    ensures Bounded(hash, d) <==> !Hits(hash, d) || WATCH <= hash[d.fd].flags
  {
    if Hits(hash, d) && !Overreach(hash[d.fd], d.closing, d.flags) {
      assert hash[d.fd].flags * WATCH <= WATCH;
    }
  }

  /** A handler call: the entry's owner and the event. */
  datatype Call = Call(fd: int, kind: int, data: int, event: Flag)

  // ----- how the entries age during a pass -----

  /** An entry is erased, or has lost watch flags only and, once handled, its trigger. */
  predicate Aged(w: FdMap, e: FdMap, done: bool) {
    e.kind == 0 ||
    (&& e.kind == w.kind && e.data == w.data && e.flags * WATCH <= w.flags * WATCH
     && e.flags * TRIG == if done then {} else w.flags * TRIG)
  }

  ghost predicate Progress(was: seq<FdMap>, now: seq<FdMap>, done: set<int>) {
    |was| == |now| && forall f :: 0 <= f < |was| ==> Aged(was[f], now[f], f in done)
  }

  /** No trigger is left above position `r`. */
  ghost predicate Quiet(hash: seq<FdMap>, arr: seq<int>, r: int) {
    forall i :: 0 <= i < |arr| && r < i && 0 <= arr[i] < |hash| ==> hash[arr[i]].flags * TRIG == {}
  }

  lemma RemovedAges(w: FdMap, e: FdMap, done: bool, closing: bool, flags: set<Flag>)
    requires Aged(w, e, done) && flags <= WATCH
    ensures Aged(w, Removed(e, closing, flags), done)
    ensures e.flags * TRIG == {} ==> Removed(e, closing, flags).flags * TRIG == {}
  {
    assert (e.flags - flags) * WATCH <= e.flags * WATCH;
    assert (e.flags - flags) * TRIG == e.flags * TRIG;
  }

  /** Removing a watch keeps progress, and moves nothing unvisited past the scan. */
  lemma RemoveQuiet(was: seq<FdMap>, hash: seq<FdMap>, arr: seq<int>, done: set<int>, r: int,
                    n: nat, closing: bool, flags: set<Flag>)
    requires Progress(was, hash, done) && Quiet(hash, arr, r) && n < |arr| && 0 <= arr[n] < |hash| && flags <= WATCH
    ensures var hash' := hash[arr[n] := Removed(hash[arr[n]], closing, flags)];
      && Progress(was, hash', done) && Quiet(hash', arr, r) && Quiet(hash', Drop(arr, n), r)
  {
    var e' := Removed(hash[arr[n]], closing, flags);
    var hash' := hash[arr[n] := e'];
    assert Aged(was[arr[n]], hash[arr[n]], arr[n] in done);
    RemovedAges(was[arr[n]], hash[arr[n]], arr[n] in done, closing, flags);
    assert hash[arr[n]].flags * TRIG == {} ==> e'.flags * TRIG == {};
    forall i | 0 <= i < |arr| && r < i && 0 <= arr[i] < |hash| ensures hash'[arr[i]].flags * TRIG == {} {
      assert hash[arr[i]].flags * TRIG == {};
    }
    var arr' := Drop(arr, n);
    forall i | 0 <= i < |arr'| && r < i && 0 <= arr'[i] < |hash| ensures hash'[arr'[i]].flags * TRIG == {} {
      assert arr'[i] == arr[if i < n then i else i + 1];
    }
  }

  /** Slots the scan may still read, live or stale. */
  ghost predicate Ranged(h: IoWait, top: int)
    reads h, h.fdArray
  {
    h.Shape() && top <= h.fdArray.Length && forall i :: 0 <= i < top ==> 0 < h.fdArray[i] < h.fdHash.Length
  }

  /** The reactor in the middle of a pass. */
  ghost predicate Scanning(h: IoWait, was: seq<FdMap>, done: set<int>, top: int, r: int)
    reads h, h.fdHash, h.fdArray, h.prioIdx
  {
    && h.Valid() && h.fdNo <= top && Ranged(h, top)
    && Progress(was, h.fdHash[..], done) && Quiet(h.fdHash[..], h.Fds(), r)
  }

  method Remove(h: IoWait, d: Removal, ghost was: seq<FdMap>, ghost done: set<int>, ghost top: int, ghost r: int)
    requires Scanning(h, was, done, top, r) && Bounded(h.fdHash[..], d)
    modifies h, h.fdHash, h.fdArray, h.prioIdx
    ensures Scanning(h, was, done, top, r) && h.fdHash[..] == After(old(h.fdHash[..]), d)
  {
    hide Linked, Segments, Mirrors, Drop, Sink, Progress, Quiet, Removed, Overreach;
    ghost var hash, arr := h.fdHash[..], h.Fds();
    ghost var watching := h.Watching(d.fd, d.flags);
    assert watching == Hits(hash, d);
    var ok, n := h.Del(d.fd, d.idx, d.closing, d.flags, d.fault);
    if watching {
      assert arr[n] == d.fd;
      RemoveQuiet(was, hash, arr, done, r, n, d.closing, d.flags);
    } else {
      assert h.fdHash[..] == hash && h.Fds() == arr;
    }
  }

  method RunHandler(h: IoWait, todo: seq<Removal>,
                    ghost was: seq<FdMap>, ghost done: set<int>, ghost top: int, ghost r: int)
    requires Scanning(h, was, done, top, r) && Proper(h.fdHash[..], todo)
    modifies h, h.fdHash, h.fdArray, h.prioIdx
    ensures Scanning(h, was, done, top, r)
  {
    hide Scanning, After, Bounded;
    for i := 0 to |todo|
      invariant Scanning(h, was, done, top, r) && Proper(h.fdHash[..], todo[i..])
    {
      assert todo[i..][0] == todo[i] && todo[i..][1..] == todo[i + 1..];
      Remove(h, todo[i], was, done, top, r);
    }
  }

  // ----- the scan -----

  ghost function Fired(log: seq<Call>): set<int> {
    set i | 0 <= i < |log| :: log[i].fd
  }

  /** The call is the one an entry's trigger asks for. */
  predicate Answers(c: Call, w: FdMap) {
    && w.kind != 0 && c.kind == w.kind && c.data == w.data
    && c.event == (if TrigRead in w.flags then Read else Write)
    && w.flags * TRIG != {}
  }

  ghost predicate Faithful(log: seq<Call>, was: seq<FdMap>) {
    && (forall i :: 0 <= i < |log| ==> 0 <= log[i].fd < |was| && Answers(log[i], was[log[i].fd]))
    && (forall i, j :: 0 <= i < j < |log| ==> log[i].fd != log[j].fd)
  }

  /** No entry has both triggers. */
  ghost predicate OneTrigger(hash: seq<FdMap>) {
    forall f :: 0 <= f < |hash| ==> !(TRIG <= hash[f].flags)
  }

  /**
    The dispatch pass with repeat off: `plan(fd, hash)` is what the handler of
    `fd` removes when it finds the table `hash`.  Every triggered descriptor is handled once, with the payload it was
    registered with, unless an earlier handler has erased it; no trigger is left.
  */
  method Dispatch(h: IoWait, plan: (int, seq<FdMap>) -> seq<Removal>) returns (log: seq<Call>)
    requires h.Valid() && OneTrigger(h.fdHash[..])
    requires forall f, hash :: Proper(hash, plan(f, hash))
    modifies h, h.fdHash, h.fdArray, h.prioIdx
    ensures h.Valid() && Faithful(log, old(h.fdHash[..]))
    ensures forall f :: 0 <= f < h.fdHash.Length && old(h.fdHash[f].flags) * TRIG != {} ==>
              f in Fired(log) || h.fdHash[f].kind == 0
    ensures forall f :: 0 <= f < h.fdHash.Length ==> h.fdHash[f].flags * TRIG == {}
  {
    hide Linked, Segments, Mirrors, Progress, Quiet, Proper, Scanning, OneTrigger, Faithful;
    ghost var was, top := h.fdHash[..], h.fdNo;
    log := [];
    StartScan(h);
    var r := h.fdNo - 1;
    while r >= 0
      invariant -1 <= r < top && Scanning(h, was, Fired(log), top, r) && Faithful(log, was)
    {
      log := Visit(h, r, plan, log, was, top);
      r := r - 1;
    }
    EndScan(h, was, log, top);
  }

  /**
    One position of the scan, which may be a stale slot beyond the array's end.
    An entry with a trigger is in use, so the source's removal of entries that
    are out of sync never takes place.
  */
  method Visit(h: IoWait, r: int, plan: (int, seq<FdMap>) -> seq<Removal>, log: seq<Call>,
               ghost was: seq<FdMap>, ghost top: int)
    returns (log': seq<Call>)
    requires 0 <= r < top && Scanning(h, was, Fired(log), top, r) && Faithful(log, was) && OneTrigger(was)
    requires forall f, hash :: Proper(hash, plan(f, hash))
    modifies h, h.fdHash, h.fdArray, h.prioIdx
    ensures Scanning(h, was, Fired(log'), top, r - 1) && Faithful(log', was)
  {
    hide Linked, Segments, Mirrors, Progress, Quiet, Proper, OneTrigger, Faithful, Fired;
    var fd := h.fdArray[r];
    var e := h.fdHash[fd];
    EntrySound(h.fdHash[..], h.Fds(), fd);
    log' := log;
    ghost var hash := h.fdHash[..];
    if TrigRead in e.flags {
      log' := log + [Call(fd, e.kind, e.data, Read)];
      h.fdHash[fd] := e.(flags := e.flags - {TrigRead});
      Handled(was, hash, h.Fds(), log, log'[|log|], r);
      RunHandler(h, plan(fd, h.fdHash[..]), was, Fired(log'), top, r - 1);
    } else if TrigWrite in e.flags {
      log' := log + [Call(fd, e.kind, e.data, Write)];
      h.fdHash[fd] := e.(flags := e.flags - {TrigWrite});
      Handled(was, hash, h.Fds(), log, log'[|log|], r);
      RunHandler(h, plan(fd, h.fdHash[..]), was, Fired(log'), top, r - 1);
    } else {
      Passed(hash, h.Fds(), r, fd);
    }
  }

  lemma StartScan(h: IoWait)
    requires h.Valid()
    ensures Scanning(h, h.fdHash[..], Fired([]), h.fdNo, h.fdNo - 1)
    ensures Faithful([], h.fdHash[..])
  {
    hide Segments;
    forall f | 0 <= f < h.fdHash.Length ensures Aged(h.fdHash[f], h.fdHash[f], false) {
    }
    assert forall i :: 0 <= i < h.fdNo ==> h.fdArray[i] == h.Fds()[i];
  }

  lemma EndScan(h: IoWait, was: seq<FdMap>, log: seq<Call>, top: int)
    requires Scanning(h, was, Fired(log), top, -1)
    ensures h.Valid()
    ensures forall f :: 0 <= f < |was| && was[f].flags * TRIG != {} ==>
              f < h.fdHash.Length && (f in Fired(log) || h.fdHash[f].kind == 0)
    ensures forall f :: 0 <= f < h.fdHash.Length ==> h.fdHash[f].flags * TRIG == {}
  {
    hide Segments, Fired;
    forall f | 0 <= f < h.fdHash.Length
      ensures h.fdHash[f].flags * TRIG == {}
      ensures was[f].flags * TRIG != {} ==> f in Fired(log) || h.fdHash[f].kind == 0
    {
      EntrySound(h.fdHash[..], h.Fds(), f);
      assert Aged(was[f], h.fdHash[..][f], f in Fired(log));
      if h.fdHash[f].kind != 0 {
        var i :| 0 <= i < |h.Fds()| && h.Fds()[i] == f;
        assert h.fdHash[..][h.Fds()[i]].flags * TRIG == {};
      }
    }
  }

  /** A slot without a trigger needs no visit. */
  lemma Passed(hash: seq<FdMap>, arr: seq<int>, r: int, fd: int)
    requires Quiet(hash, arr, r) && 0 <= r && 0 <= fd < |hash|
    requires TrigRead !in hash[fd].flags && TrigWrite !in hash[fd].flags
    requires r < |arr| ==> arr[r] == fd
    ensures Quiet(hash, arr, r - 1)
  {
    assert hash[fd].flags * TRIG == {};
  }

  /** Clearing the trigger of the visited entry, wherever it sits, keeps everything in step. */
  lemma Handled(was: seq<FdMap>, hash: seq<FdMap>, arr: seq<int>, log: seq<Call>, c: Call, r: int)
    requires Linked(hash, arr) && Progress(was, hash, Fired(log)) && Quiet(hash, arr, r)
    requires Faithful(log, was) && OneTrigger(was)
    requires 0 <= r && 0 < c.fd < |hash| && (r < |arr| ==> arr[r] == c.fd)
    requires var e := hash[c.fd];
      && c.kind == e.kind && c.data == e.data
      && if TrigRead in e.flags then c.event == Read else TrigWrite in e.flags && c.event == Write
    ensures var e := hash[c.fd];
      var hash' := hash[c.fd := e.(flags := e.flags - if c.event == Read then {TrigRead} else {TrigWrite})];
      && Linked(hash', arr) && Progress(was, hash', Fired(log + [c])) && Quiet(hash', arr, r - 1)
      && Faithful(log + [c], was)
  {
    hide Linked, Progress, Quiet, Faithful, Fired;
    var fd := c.fd;
    var e := hash[fd];
    var e' := e.(flags := e.flags - if c.event == Read then {TrigRead} else {TrigWrite});
    EntrySound(hash, arr, fd);
    ProgressAt(was, hash, Fired(log), fd);
    assert TrigRead in e.flags * TRIG || TrigWrite in e.flags * TRIG;
    assert e.flags * TRIG != {} && fd !in Fired(log) && e.flags * TRIG == was[fd].flags * TRIG;
    OneTriggerAt(was, fd);
    assert e'.flags * TRIG == {};
    assert e'.flags * WATCH == e.flags * WATCH;
    LinkUpdate(hash, arr, fd, e');
    FiredGrows(log, c);
    ProgressHandled(was, hash, Fired(log), fd, e');
    QuietHandled(hash, arr, r, fd, e');
    LogGrows(log, c, was);
  }

  lemma ProgressAt(was: seq<FdMap>, now: seq<FdMap>, done: set<int>, f: int)
    requires Progress(was, now, done) && 0 <= f < |now|
    ensures |was| == |now| && Aged(was[f], now[f], f in done)
  {
  }

  lemma OneTriggerAt(hash: seq<FdMap>, f: int)
    requires OneTrigger(hash) && 0 <= f < |hash|
    ensures TrigRead !in hash[f].flags * TRIG || TrigWrite !in hash[f].flags * TRIG
  {
    assert !(TRIG <= hash[f].flags);
  }

  lemma FiredGrows(log: seq<Call>, c: Call)
    ensures Fired(log + [c]) == Fired(log) + {c.fd}
  {
    var log' := log + [c];
    forall f ensures f in Fired(log') <==> f in Fired(log) || f == c.fd {
      if f in Fired(log) {
        var i :| 0 <= i < |log| && log[i].fd == f;
        assert log'[i].fd == f;
      }
      assert log'[|log|].fd == c.fd;
    }
  }

  lemma ProgressHandled(was: seq<FdMap>, now: seq<FdMap>, done: set<int>, fd: int, e: FdMap)
    requires Progress(was, now, done) && 0 <= fd < |now| && e.kind == now[fd].kind && e.data == now[fd].data
    requires e.flags * TRIG == {} && e.flags * WATCH == now[fd].flags * WATCH
    ensures Progress(was, now[fd := e], done + {fd})
  {
    var now' := now[fd := e];
    forall f | 0 <= f < |was| ensures Aged(was[f], now'[f], f in done + {fd}) {
      assert Aged(was[f], now[f], f in done);
    }
  }

  lemma QuietHandled(hash: seq<FdMap>, arr: seq<int>, r: int, fd: int, e: FdMap)
    requires Quiet(hash, arr, r) && 0 <= fd < |hash| && e.flags * TRIG == {} && 0 <= r
    requires r < |arr| ==> arr[r] == fd
    ensures Quiet(hash[fd := e], arr, r - 1)
  {
  }

  lemma LogGrows(log: seq<Call>, c: Call, was: seq<FdMap>)
    requires Faithful(log, was) && 0 <= c.fd < |was| && Answers(c, was[c.fd]) && c.fd !in Fired(log)
    ensures Faithful(log + [c], was)
  {
    forall i | 0 <= i < |log| ensures log[i].fd != c.fd {
      assert log[i].fd in Fired(log);
    }
  }

  // ----- recording events -----

  /** What the kernel reports for a descriptor. */
  datatype Event = Event(fd: int, input: bool, output: bool, failed: bool)

  /** The trigger an event sets on a watched entry. */
  function Trigger(v: Event, flags: set<Flag>): set<Flag> {
    if v.input then {TrigRead}
    else if v.output then {TrigWrite}
    else if v.failed then (if Write in flags then {TrigWrite} else {TrigRead})
    else {}
  }

  /** What an event calls the handler for: input before output, and after a mere
      failure what the entry is watched for, writing first. */
  predicate Asks(v: Event, w: FdMap, event: Flag) {
    && (v.input ==> event == Read)
    && (!v.input && v.output ==> event == Write)
    && (!v.input && !v.output ==> v.failed && event == if Write in w.flags then Write else Read)
  }

  /** The triggers are those of the handler call that is asked for, if any. */
  lemma TriggerAsks(v: Event, w: FdMap)
    ensures TrigRead in Trigger(v, w.flags) <==> Asks(v, w, Read)
    ensures TrigWrite in Trigger(v, w.flags) <==> Asks(v, w, Write)
    ensures Trigger(v, w.flags) == {} <==> !v.input && !v.output && !v.failed
    ensures Trigger(v, w.flags) <= TRIG
  {
  }

  /** The entry as the events so far leave it. */
  ghost predicate Noted(w: FdMap, e: FdMap, events: seq<Event>, f: int) {
    e == w.(flags := e.flags) && e.flags * WATCH == w.flags * WATCH &&
    (forall i :: 0 <= i < |events| && events[i].fd == f && w.kind != 0 ==>
       e.flags * TRIG == Trigger(events[i], w.flags)) &&
    (w.kind == 0 || Silent(events, f) ==> e.flags * TRIG == {})
  }

  predicate Silent(events: seq<Event>, f: int) {
    forall i :: 0 <= i < |events| ==> events[i].fd != f
  }

  ghost predicate AllNoted(was: seq<FdMap>, now: seq<FdMap>, events: seq<Event>) {
    |was| == |now| && forall f :: 0 <= f < |was| ==> Noted(was[f], now[f], events, f)
  }

  ghost predicate Clean(hash: seq<FdMap>) {
    forall f :: 0 <= f < |hash| ==> hash[f].flags * TRIG == {}
  }

  lemma NotedMore(w: FdMap, e: FdMap, events: seq<Event>, f: int, v: Event)
    requires Noted(w, e, events, f) && (v.fd != f || w.kind == 0)
    ensures Noted(w, e, events + [v], f)
  {
    var events' := events + [v];
    assert forall i :: 0 <= i < |events| ==> events'[i] == events[i];
    assert Silent(events', f) ==> Silent(events, f);
  }

  lemma NotedNow(w: FdMap, e: FdMap, events: seq<Event>, v: Event)
    requires Noted(w, e, events, v.fd) && w.kind != 0 && Silent(events, v.fd)
    ensures Noted(w, e.(flags := e.flags + Trigger(v, e.flags)), events + [v], v.fd)
  {
    assert (events + [v])[|events|] == v;
    var t := Trigger(v, e.flags);
    assert Write in e.flags <==> Write in e.flags * WATCH;
    assert Write in w.flags <==> Write in w.flags * WATCH;
    assert t == Trigger(v, w.flags) && t <= TRIG && t * WATCH == {};
    assert (e.flags + t) * WATCH == e.flags * WATCH;
    assert (e.flags + t) * TRIG == e.flags * TRIG + t;
  }

  lemma NoteStep(was: seq<FdMap>, now: seq<FdMap>, events: seq<Event>, v: Event)
    requires AllNoted(was, now, events) && 0 <= v.fd < |now|
    requires Silent(events, v.fd)
    ensures was[v.fd].kind == 0 ==> AllNoted(was, now, events + [v])
    ensures was[v.fd].kind != 0 ==>
              var e := now[v.fd];
              AllNoted(was, now[v.fd := e.(flags := e.flags + Trigger(v, e.flags))], events + [v])
  {
    hide Noted;
    var e := now[v.fd];
    var now' := if was[v.fd].kind == 0 then now else now[v.fd := e.(flags := e.flags + Trigger(v, e.flags))];
    var events' := events + [v];
    forall f | 0 <= f < |was| ensures Noted(was[f], now'[f], events', f) {
      assert Noted(was[f], now[f], events, f);
      if f == v.fd && was[f].kind != 0 {
        NotedNow(was[f], now[f], events, v);
      } else {
        NotedMore(was[f], now[f], events, f, v);
      }
    }
  }

  /** Reported descriptors that are not watched. */
  ghost function Stale(was: seq<FdMap>, events: seq<Event>): set<int> {
    set i | 0 <= i < |events| && 0 <= events[i].fd < |was| && was[events[i].fd].kind == 0 :: events[i].fd
  }

  lemma StaleGrows(was: seq<FdMap>, events: seq<Event>, v: Event)
    requires 0 <= v.fd < |was|
    ensures Stale(was, events + [v]) == if was[v.fd].kind == 0 then Stale(was, events) + {v.fd} else Stale(was, events)
  {
    var events' := events + [v];
    assert events'[|events|] == v;
    forall f | f in Stale(was, events) ensures f in Stale(was, events') {
      var i :| 0 <= i < |events| && events[i].fd == f;
      assert events'[i].fd == f;
    }
  }

  /**
    Sets the trigger of every watched descriptor that has an event.  The kernel
    reports a descriptor once; one that is not watched any more is taken out of
    the kernel's set.
  */
  method Note(h: IoWait, events: seq<Event>)
    requires h.Valid() && Clean(h.fdHash[..])
    requires forall i :: 0 <= i < |events| ==> 0 <= events[i].fd < h.fdHash.Length
    requires forall i, j :: 0 <= i < j < |events| ==> events[i].fd != events[j].fd
    modifies h`interest, h.fdHash
    ensures h.Valid() && AllNoted(old(h.fdHash[..]), h.fdHash[..], events)
    ensures h.interest == old(h.interest) - Stale(old(h.fdHash[..]), events)
    ensures forall i :: 0 <= i < |events| && old(h.fdHash[..])[events[i].fd].kind != 0 ==>
              var f := events[i].fd;
              && (TrigRead in h.fdHash[f].flags <==> Asks(events[i], old(h.fdHash[..])[f], Read))
              && (TrigWrite in h.fdHash[f].flags <==> Asks(events[i], old(h.fdHash[..])[f], Write))
  {
    hide Linked, Segments, Stale, Noted, Trigger, Asks;
    ghost var was := h.fdHash[..];
    NoneNoted(was);
    for r := 0 to |events|
      invariant h.Valid() && AllNoted(was, h.fdHash[..], events[..r])
      invariant h.interest == old(h.interest) - Stale(was, events[..r])
    {
      var v := events[r];
      var e := h.fdHash[v.fd];
      ghost var now := h.fdHash[..];
      EntrySound(now, h.Fds(), v.fd);
      NotedFacts(was, now, events[..r], v.fd);
      NoteStep(was, now, events[..r], v);
      StaleGrows(was, events[..r], v);
      assert events[..r + 1] == events[..r] + [v];
      if e.kind == 0 || e.fd <= 0 || e.flags * WATCH == {} {
        h.interest := h.interest - {v.fd};
      } else {
        h.fdHash[v.fd] := e.(flags := e.flags + Trigger(v, e.flags));
        TriggerFlags(v, e);
        LinkUpdate(now, h.Fds(), v.fd, h.fdHash[v.fd]);
      }
    }
    assert events[..|events|] == events;
    forall i | 0 <= i < |events| && was[events[i].fd].kind != 0
      ensures TrigRead in h.fdHash[events[i].fd].flags <==> Asks(events[i], was[events[i].fd], Read)
      ensures TrigWrite in h.fdHash[events[i].fd].flags <==> Asks(events[i], was[events[i].fd], Write)
    {
      NotedEvent(was, h.fdHash[..], events, i);
      TriggerAsks(events[i], was[events[i].fd]);
      TrigIn(h.fdHash[events[i].fd].flags);
    }
  }

  lemma TrigIn(flags: set<Flag>)
    ensures TrigRead in flags <==> TrigRead in flags * TRIG
    ensures TrigWrite in flags <==> TrigWrite in flags * TRIG
  {
  }

  lemma NoneNoted(was: seq<FdMap>)
    requires Clean(was)
    ensures AllNoted(was, was, []) && Stale(was, []) == {}
  {
  }

  lemma NotedFacts(was: seq<FdMap>, now: seq<FdMap>, events: seq<Event>, f: int)
    requires AllNoted(was, now, events) && 0 <= f < |now|
    ensures now[f].kind == was[f].kind && now[f].data == was[f].data
    ensures now[f].flags * WATCH == was[f].flags * WATCH
  {
    assert Noted(was[f], now[f], events, f);
  }

  lemma TriggerFlags(v: Event, e: FdMap)
    ensures (e.flags + Trigger(v, e.flags)) * WATCH == e.flags * WATCH
  {
    assert Trigger(v, e.flags) * WATCH == {};
  }

  // ----- a whole pass -----

  /** The handler call answers an event the kernel reported for that watch. */
  ghost predicate Due(c: Call, events: seq<Event>, was: seq<FdMap>) {
    && 0 <= c.fd < |was| && was[c.fd].kind != 0 && c.kind == was[c.fd].kind && c.data == was[c.fd].data
    && (c.event == Read || c.event == Write)
    && exists i :: 0 <= i < |events| && events[i].fd == c.fd && Asks(events[i], was[c.fd], c.event)
  }

  /**
    One pass answers every event exactly once: each call is due, no descriptor
    is called twice, and a watched descriptor with an event is called or has been
    erased by another's handler.  The next pass starts without triggers.
  */
  method Pass(h: IoWait, events: seq<Event>, plan: (int, seq<FdMap>) -> seq<Removal>) returns (log: seq<Call>)
    requires h.Valid() && Clean(h.fdHash[..])
    requires forall i :: 0 <= i < |events| ==> 0 <= events[i].fd < h.fdHash.Length
    requires forall i, j :: 0 <= i < j < |events| ==> events[i].fd != events[j].fd
    requires forall f, hash :: Proper(hash, plan(f, hash))
    modifies h, h.fdHash, h.fdArray, h.prioIdx
    ensures h.Valid() && Clean(h.fdHash[..])
    ensures forall i :: 0 <= i < |log| ==> Due(log[i], events, old(h.fdHash[..]))
    ensures forall i, j :: 0 <= i < j < |log| ==> log[i].fd != log[j].fd
    ensures forall i :: 0 <= i < |events| ==>
              var f := events[i].fd;
              old(h.fdHash[f].kind) != 0 && (events[i].input || events[i].output || events[i].failed) ==>
                f in Fired(log) || h.fdHash[f].kind == 0
  {
    hide Linked, Segments, Proper, Noted, Due, Trigger, Answers, OneTrigger, Asks;
    ghost var was := h.fdHash[..];
    Note(h, events);
    ghost var noted := h.fdHash[..];
    NotedOnce(was, noted, events);
    log := Dispatch(h, plan);
    forall i | 0 <= i < |log| ensures Due(log[i], events, was) {
      NotedDue(was, noted, events, log[i]);
    }
    forall i | 0 <= i < |events| && was[events[i].fd].kind != 0
               && (events[i].input || events[i].output || events[i].failed)
      ensures events[i].fd in Fired(log) || h.fdHash[events[i].fd].kind == 0
    {
      TriggerAsks(events[i], was[events[i].fd]);
      NotedEvent(was, noted, events, i);
    }
  }

  lemma NotedEvent(was: seq<FdMap>, now: seq<FdMap>, events: seq<Event>, i: nat)
    requires AllNoted(was, now, events) && i < |events| && 0 <= events[i].fd < |was| && was[events[i].fd].kind != 0
    ensures now[events[i].fd].flags * TRIG == Trigger(events[i], was[events[i].fd].flags)
  {
    assert Noted(was[events[i].fd], now[events[i].fd], events, events[i].fd);
  }

  lemma NotedOnce(was: seq<FdMap>, now: seq<FdMap>, events: seq<Event>)
    requires AllNoted(was, now, events)
    ensures OneTrigger(now)
  {
    forall f | 0 <= f < |now| ensures !(TRIG <= now[f].flags) {
      assert Noted(was[f], now[f], events, f);
      NotBoth(now[f].flags);
    }
  }

  lemma NotBoth(flags: set<Flag>)
    ensures TRIG <= flags <==> TrigRead in flags * TRIG && TrigWrite in flags * TRIG
  {
  }

  lemma NotedDue(was: seq<FdMap>, now: seq<FdMap>, events: seq<Event>, c: Call)
    requires AllNoted(was, now, events) && 0 <= c.fd < |now| && Answers(c, now[c.fd])
    ensures Due(c, events, was)
  {
    var f := c.fd;
    assert Noted(was[f], now[f], events, f);
    var i :| 0 <= i < |events| && events[i].fd == f;
    assert TrigRead in now[f].flags <==> TrigRead in now[f].flags * TRIG;
  }
}
