/**
  The futex lock (futex_lock.h) as a step system: any number of processes, each
  atomic operation or system call one step, interleaved arbitrarily.
*/
module FutexLock {

  type Pid = nat

  /** Where a process is in get_lock or release_lock. */
  datatype PC =
    | Idle                 // outside, or about to try the first compare-and-exchange
    | Spinning(left: nat)  // found the word 1, trying again `left` times
    | Exchanging           // about to exchange in 2
    | Waiting              // about to call futex_wait
    | Asleep               // inside futex_wait
    | Holding
    | Waking               // released a contended lock, about to call futex_wake

  datatype State = State(word: int, pc: map<Pid, PC>)

  predicate Init(s: State) {
    s.word == 0 && forall p :: p in s.pc ==> s.pc[p] == Idle
  }

  function Goto(s: State, p: Pid, pc: PC): State
    requires p in s.pc
  {
    s.(pc := s.pc[p := pc])
  }

  // ----- steps of get_lock -----

  /** The first compare-and-exchange of 0 by 1; it spins `loops` times if the lock
      is held without sleepers (0 without adaptive waiting). */
  predicate TryFast(s: State, s': State, p: Pid, loops: nat) {
    && p in s.pc && s.pc[p] == Idle
    && s' == (if s.word == 0 then Goto(s, p, Holding).(word := 1)
              else if s.word == 2 then Goto(s, p, Waiting)
              else Goto(s, p, Spinning(loops)))
  }

  predicate Spin(s: State, s': State, p: Pid) {
    && p in s.pc && s.pc[p].Spinning?
    && s' == (if s.pc[p].left == 0 then Goto(s, p, Exchanging)
              else if s.word == 0 then Goto(s, p, Holding).(word := 1)
              else Goto(s, p, Spinning(s.pc[p].left - 1)))
  }

  predicate Exchange(s: State, s': State, p: Pid) {
    && p in s.pc && s.pc[p] == Exchanging
    && s' == Goto(s, p, if s.word == 0 then Holding else Waiting).(word := 2)
  }

  /** futex_wait returns at once if the word is no longer 2. */
  predicate Wait(s: State, s': State, p: Pid) {
    && p in s.pc && s.pc[p] == Waiting
    && s' == Goto(s, p, if s.word == 2 then Asleep else Exchanging)
  }

  /** A signal may end futex_wait at any time. */
  predicate Interrupted(s: State, s': State, p: Pid) {
    && p in s.pc && s.pc[p] == Asleep
    && s' == Goto(s, p, Exchanging)
  }

  // ----- steps of release_lock -----

  predicate Release(s: State, s': State, p: Pid) {
    && p in s.pc && s.pc[p] == Holding
    && s' == Goto(s, p, if s.word != 1 then Waking else Idle).(word := 0)
  }

  /** futex_wake wakes one sleeper `q`, if there is any. */
  predicate Wake(s: State, s': State, p: Pid, q: Pid) {
    && p in s.pc && s.pc[p] == Waking
    && (if exists r :: r in s.pc && s.pc[r] == Asleep
        then q in s.pc && s.pc[q] == Asleep && s' == Goto(Goto(s, q, Exchanging), p, Idle)
        else s' == Goto(s, p, Idle))
  }

  ghost predicate Step(s: State, s': State, p: Pid, q: Pid, loops: nat) {
    || TryFast(s, s', p, loops) || Spin(s, s', p) || Exchange(s, s', p) || Wait(s, s', p)
    || Interrupted(s, s', p) || Release(s, s', p) || Wake(s, s', p, q)
  }

  ghost predicate Next(s: State, s': State) {
    exists p, q, loops :: Step(s, s', p, q, loops)
  }

  ghost predicate Run(r: seq<State>) {
    |r| > 0 && Init(r[0]) && forall i :: 0 <= i < |r| - 1 ==> Next(r[i], r[i + 1])
  }

  // ----- what every reachable state satisfies -----

  predicate At(s: State, p: Pid, pc: PC) {
    p in s.pc && s.pc[p] == pc
  }

  /** At most one holder, and the word is 0 exactly if there is none. */
  ghost predicate Exclusive(s: State) {
    && 0 <= s.word <= 2
    && (forall p, q :: At(s, p, Holding) && At(s, q, Holding) ==> p == q)
    && (s.word != 0 <==> exists p :: At(s, p, Holding))
  }

  ghost predicate SomeoneAsleep(s: State) {
    exists p :: At(s, p, Asleep)
  }

  /** Whoever sleeps will be told: the word asks the holder to wake, or a wake is
      pending, or a contender has yet to exchange in 2. */
  ghost predicate NoLostWakeup(s: State) {
    SomeoneAsleep(s) ==>
      s.word == 2 || (exists p :: At(s, p, Waking)) || (exists p :: At(s, p, Exchanging))
  }

  ghost predicate Inv(s: State) {
    Exclusive(s) && NoLostWakeup(s)
  }

  lemma ExclusiveStep(s: State, s': State, p: Pid, q: Pid, loops: nat)
    requires Exclusive(s) && Step(s, s', p, q, loops)
    ensures Exclusive(s')
  {
    forall r | r != p ensures At(s', r, Holding) <==> At(s, r, Holding) {
    }
    if s'.word != 0 {
      if At(s', p, Holding) {
      } else {
        var h :| At(s, h, Holding);
        assert h != p && At(s', h, Holding);
      }
    } else if h :| At(s', h, Holding) {
      assert h != p && At(s, h, Holding) && s.word != 0;
      assert At(s, p, Holding);
    }
  }

  lemma WakeupStep(s: State, s': State, p: Pid, q: Pid, loops: nat)
    requires Inv(s) && Step(s, s', p, q, loops)
    ensures NoLostWakeup(s')
  {
    if a :| At(s', a, Asleep) && s'.word != 2 {
      if Wake(s, s', p, q) {
        assert At(s, a, Asleep);
        assert At(s', q, Exchanging);
      } else if Release(s, s', p) {
        assert At(s, a, Asleep);
        if s.word == 1 {
          StillPending(s, s', p);
        } else {
          assert At(s', p, Waking);
        }
      } else if Interrupted(s, s', p) {
        assert At(s', p, Exchanging);
      } else {
        assert At(s, a, Asleep) && s.word != 2;
        StillPending(s, s', p);
      }
    }
  }

  /** A pending wake or exchange survives the steps of other processes. */
  lemma StillPending(s: State, s': State, p: Pid)
    requires p in s.pc && s.pc[p] != Waking && s.pc[p] != Exchanging
    requires (exists r :: At(s, r, Waking)) || (exists r :: At(s, r, Exchanging))
    requires forall r :: r != p ==> (r in s'.pc <==> r in s.pc) && (r in s.pc ==> s'.pc[r] == s.pc[r])
    ensures (exists r :: At(s', r, Waking)) || (exists r :: At(s', r, Exchanging))
  {
    if r :| At(s, r, Waking) {
      assert At(s', r, Waking);
    } else {
      var r :| At(s, r, Exchanging);
      assert At(s', r, Exchanging);
    }
  }

  lemma InitInv(s: State)
    requires Init(s)
    ensures Inv(s)
  {
    forall p, pc | At(s, p, pc) ensures pc == Idle {
    }
  }

  /** In every interleaving of any number of processes, at every point: mutual
      exclusion, and no wake-up is lost. */
  lemma {:induction false} AlwaysSafe(r: seq<State>, i: nat)
    requires Run(r) && i < |r|
    ensures Inv(r[i])
  {
    if i == 0 {
      InitInv(r[0]);
    } else {
      AlwaysSafe(r, i - 1);
      assert Next(r[i - 1], r[i - 1 + 1]);
      var p, q, loops :| Step(r[i - 1], r[i], p, q, loops);
      ExclusiveStep(r[i - 1], r[i], p, q, loops);
      WakeupStep(r[i - 1], r[i], p, q, loops);
    }
  }

  /** So the contenders are never all asleep. */
  lemma NeverAllAsleep(r: seq<State>, i: nat)
    requires Run(r) && i < |r| && SomeoneAsleep(r[i])
    ensures exists p, pc :: At(r[i], p, pc) && pc in {Holding, Waking, Exchanging}
  {
    AlwaysSafe(r, i);
    var s := r[i];
    if s.word == 2 {
      var p :| At(s, p, Holding);
    } else if p :| At(s, p, Waking) {
    } else {
      var p :| At(s, p, Exchanging);
    }
  }

  /** When the lock is free and somebody sleeps, one or two steps of pending
      processes give the lock to a contender; it then holds it with the word 2,
      so its release will wake the next. */
  lemma Handover(r: seq<State>, i: nat) returns (s1: State, s2: State, h: Pid)
    requires Run(r) && i < |r| && r[i].word == 0 && SomeoneAsleep(r[i])
    ensures (s1 == r[i] || Next(r[i], s1)) && Next(s1, s2)
    ensures At(s2, h, Holding) && s2.word == 2
    ensures At(r[i], h, Exchanging) || At(r[i], h, Asleep)
  {
    AlwaysSafe(r, i);
    var s := r[i];
    s1, h := s, 0;
    if e :| At(s, e, Exchanging) {
      h := e;
    } else {
      var w :| At(s, w, Waking);
      var q :| At(s, q, Asleep);
      assert q in s.pc && s.pc[q] == Asleep;
      s1, h := Goto(Goto(s, q, Exchanging), w, Idle), q;
      assert Wake(s, s1, w, q);
      assert Step(s, s1, w, q, 0);
    }
    s2 := Goto(s1, h, Holding).(word := 2);
    assert Exchange(s1, s2, h);
    assert Step(s1, s2, h, 0, 0);
    assert At(s2, h, Holding);
  }

  /** Once no wake-up and no exchange is under way, the word 1 does mean that nobody sleeps. */
  lemma OneWithoutSleeper(r: seq<State>, i: nat)
    requires Run(r) && i < |r| && r[i].word == 1
    requires forall p :: !At(r[i], p, Waking) && !At(r[i], p, Exchanging)
    ensures !SomeoneAsleep(r[i])
  {
    AlwaysSafe(r, i);
  }

  /** The word 1 does not mean that nobody sleeps: a newcomer may take the lock
      between a release and the wake-up. */
  lemma OneWithSleeper() returns (r: seq<State>)
    ensures Run(r) && r[|r| - 1].word == 1 && SomeoneAsleep(r[|r| - 1])
  {
    var s0 := State(0, map[0 := Idle, 1 := Idle, 2 := Idle]);
    var s1 := Goto(s0, 0, Holding).(word := 1);
    var s2 := Goto(s1, 1, Spinning(0));
    var s3 := Goto(s2, 1, Exchanging);
    var s4 := Goto(s3, 1, Waiting).(word := 2);
    var s5 := Goto(s4, 1, Asleep);
    var s6 := Goto(s5, 0, Waking).(word := 0);
    var s7 := Goto(s6, 2, Holding).(word := 1);
    assert TryFast(s0, s1, 0, 0) && Step(s0, s1, 0, 0, 0);
    assert TryFast(s1, s2, 1, 0) && Step(s1, s2, 1, 0, 0);
    assert Spin(s2, s3, 1) && Step(s2, s3, 1, 0, 0);
    assert Exchange(s3, s4, 1) && Step(s3, s4, 1, 0, 0);
    assert Wait(s4, s5, 1) && Step(s4, s5, 1, 0, 0);
    assert Release(s5, s6, 0) && Step(s5, s6, 0, 0, 0);
    assert TryFast(s6, s7, 2, 0) && Step(s6, s7, 2, 0, 0);
    r := [s0, s1, s2, s3, s4, s5, s6, s7];
    assert At(r[|r| - 1], 1, Asleep);
  }
}
