/**
  What becomes of an approved reload at each process, over every run: the script
  is in use, its switch is still to come, or the switch has been lost.
*/
module ScriptOutcome {
  import opened Wrappers
  import opened ScriptReload

  /** The process has switched to the script of reload `n`. */
  ghost predicate Got(s: State, p: Pid, n: nat)
    requires p in s.w
  {
    exists j :: 0 <= j < |s.w[p].installed| && s.w[p].installed[j].Some? && s.w[p].installed[j].value.n == n
  }

  /** Its switch is on the way: to be sent, in the pipe, or about to be compared. */
  predicate Due(s: State, p: Pid, n: nat)
    requires p in s.w
  {
    || (SwitchingOver(s.tpc) && Seq(s.tpc) == n && Pending(s.tpc, p))
    || Switch(n) in s.w[p].fifo
    || s.w[p].pc == Switching(n)
  }

  /** Exactly one of the three for an approved reload, none for another. */
  ghost predicate Accounted(s: State, p: Pid, n: nat)
    requires p in s.w
  {
    && (n in s.approved <==> Got(s, p, n) || Due(s, p, n) || (p, n) in s.dropped)
    && !(Got(s, p, n) && Due(s, p, n))
    && !(Got(s, p, n) && (p, n) in s.dropped)
    && !(Due(s, p, n) && (p, n) in s.dropped)
  }

  // ----- what is due is parsed -----

  /** A process whose switch is due has that script ready and not in use. */
  lemma DueHolds(s: State, p: Pid, n: nat)
    requires p in s.w && p in s.status && TriggerInv(s) && WorkerInv(s, p) && Due(s, p, n)
    ensures n in s.approved && Holds(s, p, n) && !Got(s, p, n)
    ensures Switch(n) in s.w[p].fifo ==> s.w[p].fifo[0] == Switch(n) && s.w[p].pc == Ready
  {
    hide Bound, Unasked;
    var k := s.w[p];
    if Switch(n) in k.fifo {
      var i :| 0 <= i < |k.fifo| && k.fifo[i] == Switch(n);
      assert i == 0;
    }
    assert Holds(s, p, n);
    forall j | 0 <= j < |k.installed| ensures k.installed[j].Some? ==> k.installed[j].value.n != n {
      assert Older(k.installed[j], k.parsed);
    }
  }

  lemma GotMore(s: State, s': State, p: Pid, r: Parsed, n: nat)
    requires p in s.w && p in s'.w && s'.w[p].installed == s.w[p].installed + [Some(r)]
    ensures Got(s', p, n) <==> Got(s, p, n) || n == r.n
  {
    var a, b := s.w[p].installed, s'.w[p].installed;
    assert b[|a|] == Some(r);
    if j :| 0 <= j < |a| && a[j].Some? && a[j].value.n == n {
      assert b[j] == a[j];
    }
  }

  // ----- steps -----

  /** Steps that leave a process's switches and history alone. */
  lemma SameAccount(s: State, s': State, p: Pid, n: nat)
    requires p in s.w && p in s'.w && Accounted(s, p, n)
    requires s'.w[p].installed == s.w[p].installed && s'.approved == s.approved
    requires (p, n) in s'.dropped <==> (p, n) in s.dropped
    requires Due(s', p, n) <==> Due(s, p, n)
    ensures Accounted(s', p, n)
  {
    hide Due;
  }

  /** The switch of `m`, which was due, is now in use or dropped. */
  lemma Resolved(s: State, s': State, p: Pid, m: nat, n: nat)
    requires p in s.w && p in s.status && TriggerInv(s) && WorkerInv(s, p) && p in s'.w
    requires Accounted(s, p, n) && Due(s, p, m) && s'.approved == s.approved
    requires Due(s', p, n) <==> Due(s, p, n) && n != m
    requires
      || (s'.w[p].installed == s.w[p].installed + [s.w[p].parsed] && s'.dropped == s.dropped)
      || (s'.w[p].installed == s.w[p].installed && s'.dropped == s.dropped + {(p, m)})
    ensures Accounted(s', p, n)
  {
    hide Due, WorkerInv, TriggerInv;
    DueHolds(s, p, m);
    if s'.w[p].installed == s.w[p].installed + [s.w[p].parsed] {
      hide Got;
      GotMore(s, s', p, s.w[p].parsed.value, n);
    }
  }

  /** Behind the head of a pipe there are no switches. */
  lemma SwitchFirst(s: State, p: Pid, n: nat)
    requires p in s.w && p in s.status && WorkerInv(s, p) && s.w[p].fifo != []
    ensures Switch(n) in s.w[p].fifo <==> s.w[p].fifo[0] == Switch(n)
    ensures Switch(n) !in s.w[p].fifo[1..]
    ensures s.w[p].fifo[0].Switch? ==> s.w[p].pc == Ready
  {
    hide Bound, Unasked;
    var f := s.w[p].fifo;
    forall i | 0 < i < |f| ensures f[i] != Switch(n) {
    }
  }

  /** While a switch waits to be compared or sent, the pipe holds none. */
  lemma NoneQueued(s: State, p: Pid, n: nat)
    requires p in s.w && p in s.status && TriggerInv(s) && WorkerInv(s, p)
    requires s.w[p].pc.Switching? || (SwitchingOver(s.tpc) && Pending(s.tpc, p))
    ensures Switch(n) !in s.w[p].fifo
    ensures SwitchingOver(s.tpc) && Pending(s.tpc, p) ==> s.w[p].pc == Ready
  {
    hide Bound, Unasked;
    var f := s.w[p].fifo;
    forall i | 0 <= i < |f| ensures f[i] != Switch(n) {
    }
  }

  lemma TakeSwitchAccount(s: State, s': State, p: Pid, n: nat)
    requires TriggerInv(s) && p in s.w && p in s.status && WorkerInv(s, p) && Accounted(s, p, n)
    requires TakeSwitch(s, s', p)
    ensures p in s'.w && Accounted(s', p, n)
  {
    hide Accounted, WorkerInv, TriggerInv;
    var m := s.w[p].fifo[0].n;
    SwitchFirst(s, p, n);
    SwitchFirst(s, p, m);
    assert s.w[p].fifo[0] == Switch(m) && Due(s, p, m);
    if SwitchingOver(s.tpc) && Pending(s.tpc, p) {
      NoneQueued(s, p, m);
    }
    if s.seqNo == Free {
      Resolved(s, s', p, m, n);
    } else {
      SameAccount(s, s', p, n);
    }
  }

  lemma CompareSeqAccount(s: State, s': State, p: Pid, n: nat)
    requires TriggerInv(s) && p in s.w && p in s.status && WorkerInv(s, p) && Accounted(s, p, n)
    requires CompareSeq(s, s', p)
    ensures p in s'.w && Accounted(s', p, n)
  {
    hide Accounted, WorkerInv, TriggerInv;
    NoneQueued(s, p, n);
    Resolved(s, s', p, s.w[p].pc.n, n);
  }

  /** Reading and answering a reload command touches no switch. */
  lemma ReloadAccount(s: State, s': State, p: Pid, n: nat)
    requires p in s.w && p in s.status && WorkerInv(s, p) && Accounted(s, p, n)
    requires || TakeReload(s, s', p) || Refuse(s, s', p) || CheckSeq(s, s', p)
             || ParseOk(s, s', p) || ParseFails(s, s', p) || Leave(s, s', p)
    ensures p in s'.w && Accounted(s', p, n)
  {
    hide Accounted, WorkerInv;
    if s.w[p].fifo != [] {
      SwitchFirst(s, p, n);
    }
    SameAccount(s, s', p, n);
  }

  lemma OwnStep(s: State, s': State, p: Pid, n: nat)
    requires TriggerInv(s) && p in s.w && p in s.status && WorkerInv(s, p) && Accounted(s, p, n)
    requires WorkerStep(s, s', p)
    ensures p in s'.w && Accounted(s', p, n)
  {
    hide Accounted, WorkerInv, TriggerInv, TakeReload, Refuse, CheckSeq, ParseOk, ParseFails, Leave, TakeSwitch,
         CompareSeq;
    if TakeSwitch(s, s', p) {
      TakeSwitchAccount(s, s', p, n);
    } else if CompareSeq(s, s', p) {
      CompareSeqAccount(s, s', p, n);
    } else {
      ReloadAccount(s, s', p, n);
    }
  }

  lemma CommandDrops(s: State, s': State, p: Pid)
    requires TakeReload(s, s', p) || Refuse(s, s', p) || CheckSeq(s, s', p) || TakeSwitch(s, s', p)
    ensures s'.dropped == s.dropped
  {
  }

  lemma ReplyDrops(s: State, s': State, p: Pid)
    requires ParseOk(s, s', p) || ParseFails(s, s', p) || Leave(s, s', p) || CompareSeq(s, s', p)
    ensures p in s.w && forall q, n :: (q, n) in s'.dropped && (q, n) !in s.dropped ==>
              q == p && s.w[p].pc == Switching(n) && s.seqNo != Active(n)
    ensures s.dropped <= s'.dropped
  {
  }

  /** A worker drops only a switch it compares, for want of its sequence number. */
  lemma WorkerDrops(s: State, s': State, p: Pid)
    requires WorkerStep(s, s', p)
    ensures p in s.w && forall q, n :: (q, n) in s'.dropped && (q, n) !in s.dropped ==>
              q == p && s.w[p].pc == Switching(n) && s.seqNo != Active(n)
    ensures s.dropped <= s'.dropped
  {
    hide TakeReload, Refuse, CheckSeq, ParseOk, ParseFails, Leave, TakeSwitch, CompareSeq;
    if ParseOk(s, s', p) || ParseFails(s, s', p) || Leave(s, s', p) || CompareSeq(s, s', p) {
      ReplyDrops(s, s', p);
    } else {
      CommandDrops(s, s', p);
      StepExists(s, s', p);
    }
  }

  lemma StepExists(s: State, s': State, p: Pid)
    requires TakeReload(s, s', p) || Refuse(s, s', p) || CheckSeq(s, s', p) || TakeSwitch(s, s', p)
    ensures p in s.w
  {
  }

  lemma WorkerAccount(s: State, s': State, q: Pid, p: Pid, n: nat)
    requires Inv(s) && p in s.procs && p in s.w && Accounted(s, p, n) && WorkerStep(s, s', q)
    ensures p in s'.w && Accounted(s', p, n)
  {
    hide Accounted, WorkerInv, TriggerInv, HistoryInv, WorkerStep;
    TriggerKeys(s);
    if p == q {
      OwnStep(s, s', p, n);
    } else {
      WorkerFrame(s, s', q);
      WorkerMaps(s, s', q, p);
      WorkerDrops(s, s', q);
      SameAccount(s, s', p, n);
    }
  }

  lemma ApproveAccount(s: State, s': State, p: Pid, n: nat)
    requires TriggerInv(s) && p in s.procs && p in s.w && Accounted(s, p, n) && Approve(s, s')
    ensures p in s'.w && Accounted(s', p, n)
  {
    hide AllSucceeded;
    assert Got(s', p, n) == Got(s, p, n);
  }

  lemma SendAccount(s: State, s': State, delivered: bool, p: Pid, n: nat)
    requires TriggerInv(s) && p in s.w && p in s.status && WorkerInv(s, p) && Accounted(s, p, n)
    requires Send(s, s', delivered)
    ensures p in s'.w && Accounted(s', p, n)
  {
    hide Accounted, WorkerInv, TriggerInv;
    MarkedFresh(s);
    var cmd := s.tpc.cmd;
    if s.tpc.p != p {
      SameAccount(s, s', p, n);
    } else if p == s.trigger || delivered {
      assert Switch(n) in s'.w[p].fifo <==> Switch(n) in s.w[p].fifo || cmd == Switch(n);
      SameAccount(s, s', p, n);
    } else if cmd.Switch? {
      NoneQueued(s, p, n);
      Resolved(s, s', p, cmd.n, n);
    } else {
      SameAccount(s, s', p, n);
    }
  }

  lemma MarkedFresh(s: State)
    requires TriggerInv(s) && s.tpc.Marked?
    ensures s.tpc.p !in s.tpc.todo
  {
  }

  /** The other steps of the trigger change neither pipes nor history, and nothing
      that is still to be sent. */
  lemma HandOutAccount(s: State, s': State, q: Pid, script: Script, p: Pid, n: nat)
    requires p in s.w && Accounted(s, p, n)
    requires || Begin(s, s') || PrepareFails(s, s') || Publish(s, s', script) || Mark(s, s', q) || InlineDone(s, s')
             || AllSent(s, s')
    ensures p in s'.w && Accounted(s', p, n)
  {
    hide Accounted;
    SameAccount(s, s', p, n);
  }

  lemma DecideAccount(s: State, s': State, p: Pid, n: nat)
    requires p in s.w && Accounted(s, p, n)
    requires || SetWriteFlag(s, s') || GetWriteLock(s, s') || Reject(s, s') || UnlockSpoiled(s, s') || Clear(s, s')
             || FreeSeq(s, s') || Unlock(s, s')
    ensures p in s'.w && Accounted(s', p, n)
  {
    hide Accounted, NoReaders, AllSucceeded;
    SameAccount(s, s', p, n);
  }

  lemma TriggerAccount(s: State, s': State, q: Pid, script: Script, delivered: bool, p: Pid, n: nat)
    requires Inv(s) && p in s.procs && p in s.w && Accounted(s, p, n) && TriggerStep(s, s', q, script, delivered)
    ensures p in s'.w && Accounted(s', p, n)
  {
    hide Accounted, WorkerInv, TriggerInv, HistoryInv, Begin, PrepareFails, Publish, Mark, Send, InlineDone, AllSent,
         SetWriteFlag, GetWriteLock, Approve, Reject, UnlockSpoiled, Clear, FreeSeq, Unlock;
    TriggerKeys(s);
    if Approve(s, s') {
      ApproveAccount(s, s', p, n);
    } else if Send(s, s', delivered) {
      SendAccount(s, s', delivered, p, n);
    } else if || Begin(s, s') || PrepareFails(s, s') || Publish(s, s', script) || Mark(s, s', q)
              || InlineDone(s, s') || AllSent(s, s') {
      HandOutAccount(s, s', q, script, p, n);
    } else {
      DecideAccount(s, s', p, n);
    }
  }

  // ----- what holds in every run -----

  /**
    At every point of every run and at every process, a reload that was approved
    is in use, has its switch under way or has lost it: exactly one of these.
  */
  lemma {:induction false} AlwaysAccounted(r: seq<State>, i: nat, p: Pid, n: nat)
    requires Run(r) && i < |r| && p in r[i].procs
    ensures p in r[i].w && Accounted(r[i], p, n)
  {
    hide Inv, WorkerStep, TriggerStep, Accounted;
    if i == 0 {
      InitAccount(r[0], p, n);
    } else {
      var s, s' := r[i - 1], r[i];
      RunStep(r, i - 1);
      AlwaysInv(r, i - 1);
      if exists q :: WorkerStep(s, s', q) {
        var q :| WorkerStep(s, s', q);
        WorkerFrame(s, s', q);
        AlwaysAccounted(r, i - 1, p, n);
        WorkerAccount(s, s', q, p, n);
      } else {
        var q, script, delivered :| TriggerStep(s, s', q, script, delivered);
        TriggerFrame(s, s', q, script, delivered);
        AlwaysAccounted(r, i - 1, p, n);
        TriggerAccount(s, s', q, script, delivered, p, n);
      }
    }
  }

  lemma InitAccount(s: State, p: Pid, n: nat)
    requires Init(s) && p in s.procs
    ensures p in s.w && Accounted(s, p, n)
  {
  }

  /** A switch is lost in two ways only: the pipe did not take it, or the process
      compared it when its reload was no longer the current one. */
  lemma DropReason(s: State, s': State, p: Pid, n: nat)
    requires Next(s, s') && (p, n) in s'.dropped && (p, n) !in s.dropped
    ensures || (s.tpc.Marked? && s.tpc.cmd == Switch(n) && s.tpc.p == p && p != s.trigger)
            || (p in s.w && s.w[p].pc == Switching(n) && s.seqNo != Active(n))
  {
    hide WorkerStep;
    if exists q :: WorkerStep(s, s', q) {
      var q :| WorkerStep(s, s', q);
      WorkerDrops(s, s', q);
    } else {
      var q, script, delivered :| TriggerStep(s, s', q, script, delivered);
      TriggerDrops(s, s', q, script, delivered, p, n);
    }
  }

  lemma TriggerDrops(s: State, s': State, q: Pid, script: Script, delivered: bool, p: Pid, n: nat)
    requires TriggerStep(s, s', q, script, delivered) && (p, n) in s'.dropped && (p, n) !in s.dropped
    ensures s.tpc.Marked? && s.tpc.cmd == Switch(n) && s.tpc.p == p && p != s.trigger
  {
    hide Begin, PrepareFails, Publish, Mark, Send, InlineDone, AllSent, SetWriteFlag, GetWriteLock, Approve, Reject,
         UnlockSpoiled, Clear, FreeSeq, Unlock;
    if Send(s, s', delivered) {
      SendDrops(s, s', delivered, p, n);
    } else if || Begin(s, s') || PrepareFails(s, s') || Publish(s, s', script) || Mark(s, s', q)
              || InlineDone(s, s') || AllSent(s, s') || SetWriteFlag(s, s') || GetWriteLock(s, s') {
      HandOutKeeps(s, s', q, script);
    } else {
      DecideKeeps(s, s');
    }
  }

  lemma SendDrops(s: State, s': State, delivered: bool, p: Pid, n: nat)
    requires Send(s, s', delivered) && (p, n) in s'.dropped && (p, n) !in s.dropped
    ensures s.tpc.Marked? && s.tpc.cmd == Switch(n) && s.tpc.p == p && p != s.trigger
  {
  }

  lemma HandOutKeeps(s: State, s': State, q: Pid, script: Script)
    requires || Begin(s, s') || PrepareFails(s, s') || Publish(s, s', script) || Mark(s, s', q)
             || InlineDone(s, s') || AllSent(s, s') || SetWriteFlag(s, s') || GetWriteLock(s, s')
    ensures s'.dropped == s.dropped
  {
    hide NoReaders;
  }

  lemma DecideKeeps(s: State, s': State)
    requires || Approve(s, s') || Reject(s, s') || UnlockSpoiled(s, s') || Clear(s, s') || FreeSeq(s, s')
             || Unlock(s, s')
    ensures s'.dropped == s.dropped
  {
    hide AllSucceeded;
  }
}
