/**
  Reloading the routing script in all worker processes (cfg_reload.c), as a step
  system: one triggering process, any number of workers with a FIFO pipe each, a
  read-write lock and a shared context.  Parsing is an oracle.

  A sequence number is unbounded here and the abort marker (INT_MAX in the
  source) is a value of its own.
*/
module ScriptReload {
  import opened Wrappers

  type Pid = nat
  type Script = int

  datatype SeqNo = Free | Active(n: nat) | Spoiled

  datatype Status = NotAsked | Sent | Received | Success | Failed

  datatype Cmd = Reload(n: nat) | Switch(n: nat) {
    /** Commands of a process in the order they are issued. */
    function Rank(): nat {
      2 * n + if Switch? then 1 else 0
    }
  }

  /** A script parsed under a sequence number. */
  datatype Parsed = Parsed(n: nat, script: Script)

  datatype WorkerPc =
    | Ready
    | Reading(n: nat)                  // has the read lock, about to check the sequence number
    | Parsing(n: nat, script: Script)  // reading the shared buffer
    | Leaving(n: nat)                  // status reported, about to drop the read lock
    | Switching(n: nat)                // saw a sequence number, about to compare it
  {
    predicate Reader() {
      Reading? || Parsing? || Leaving?
    }
  }

  datatype Worker = Worker(fifo: seq<Cmd>, pc: WorkerPc, parsed: Option<Parsed>, installed: seq<Option<Parsed>>)

  datatype TriggerPc =
    | Idle
    | Preparing(s: nat)                             // parses the file itself
    | Sending(cmd: Cmd, todo: set<Pid>)             // send_cmd_to_all_procs
    | Marked(cmd: Cmd, todo: set<Pid>, p: Pid)      // status of p set, command not sent yet
    | Inline(cmd: Cmd, todo: set<Pid>)              // runs the command itself
    | Waiting(s: nat)
    | Locking(s: nat)                               // write flag set, readers may remain
    | Locked(s: nat)
    | Switched(s: nat)                              // all switch commands sent, lock held
    | Cleared(s: nat)                               // context cleared but for the sequence number
    | Unlocking
    | Spoiling(s: nat)                              // marked as aborted, lock held
    | Failing                                       // error path, no lock held
    | FailCleared

  datatype State = State(procs: set<Pid>, trigger: Pid,
                         seqNo: SeqNo, next: nat, cfg: Option<Script>, status: map<Pid, Status>,
                         writing: bool, w: map<Pid, Worker>, tpc: TriggerPc,
                         // history, read by no step
                         published: map<nat, Script>, approved: set<nat>, reported: set<(Pid, nat)>,
                         dropped: set<(Pid, nat)>)

  ghost predicate Init(s: State) {
    && s.seqNo == Free && s.next == 1 && s.cfg == None && !s.writing && s.tpc == Idle
    && s.w.Keys == s.procs == s.status.Keys
    && (forall p :: p in s.procs ==> s.status[p] == NotAsked && s.w[p] == Worker([], Ready, None, []))
    && s.published == map[] && s.approved == {} && s.reported == {} && s.dropped == {}
  }

  function SetW(s: State, p: Pid, k: Worker): State {
    s.(w := s.w[p := k])
  }

  ghost predicate NoReaders(s: State) {
    forall p :: p in s.w ==> !s.w[p].pc.Reader()
  }

  // ----- steps of a worker (routes_reload_per_proc, routes_switch_per_proc) -----

  /** Takes a reload command and gets the read lock. */
  predicate TakeReload(s: State, s': State, p: Pid) {
    p in s.w && var k := s.w[p];
    && k.pc == Ready && k.fifo != [] && k.fifo[0].Reload? && !s.writing
    && s' == SetW(s, p, k.(fifo := k.fifo[1..], pc := Reading(k.fifo[0].n)))
  }

  /** A process that still needs its previous script refuses, without the lock. */
  predicate Refuse(s: State, s': State, p: Pid) {
    p in s.w && var k := s.w[p];
    && k.pc == Ready && k.fifo != [] && k.fifo[0].Reload?
    && s' == SetW(s, p, k.(fifo := k.fifo[1..])).(status := s.status[p := Failed])
  }

  /** Checks the sequence number; a stale command is dropped. */
  predicate CheckSeq(s: State, s': State, p: Pid) {
    p in s.w && var k := s.w[p];
    && k.pc.Reading?
    && (if s.seqNo == Active(k.pc.n) then
          s.cfg.Some? &&
          s' == SetW(s, p, k.(pc := Parsing(k.pc.n, s.cfg.value), parsed := None)).(status := s.status[p := Received])
        else s' == SetW(s, p, k.(pc := Ready)))
  }

  predicate ParseOk(s: State, s': State, p: Pid) {
    p in s.w && var k := s.w[p];
    && k.pc.Parsing?
    && s' == SetW(s, p, k.(pc := Leaving(k.pc.n), parsed := Some(Parsed(k.pc.n, k.pc.script))))
             .(status := s.status[p := Success], reported := s.reported + {(p, k.pc.n)})
  }

  predicate ParseFails(s: State, s': State, p: Pid) {
    p in s.w && var k := s.w[p];
    && k.pc.Parsing?
    && s' == SetW(s, p, k.(pc := Leaving(k.pc.n), parsed := None)).(status := s.status[p := Failed])
  }

  predicate Leave(s: State, s': State, p: Pid) {
    p in s.w && var k := s.w[p];
    && k.pc.Leaving?
    && s' == SetW(s, p, k.(pc := Ready))
  }

  /** Takes a switch command and reads the sequence number a first time. */
  predicate TakeSwitch(s: State, s': State, p: Pid) {
    p in s.w && var k := s.w[p];
    && k.pc == Ready && k.fifo != [] && k.fifo[0].Switch?
    && (if s.seqNo == Free then s' == SetW(s, p, Installed(k.(fifo := k.fifo[1..])))
        else s' == SetW(s, p, k.(fifo := k.fifo[1..], pc := Switching(k.fifo[0].n))))
  }

  /** Reads it a second time and compares. */
  predicate CompareSeq(s: State, s': State, p: Pid) {
    p in s.w && var k := s.w[p];
    && k.pc.Switching?
    && (if s.seqNo == Active(k.pc.n) then s' == SetW(s, p, Installed(k.(pc := Ready)))
        else s' == SetW(s, p, k.(pc := Ready, parsed := None)).(dropped := s.dropped + {(p, k.pc.n)}))
  }

  /** Whatever is parsed, even nothing, becomes what is in use. */
  function Installed(k: Worker): Worker {
    k.(installed := k.installed + [k.parsed], parsed := None)
  }

  predicate WorkerStep(s: State, s': State, p: Pid) {
    || TakeReload(s, s', p) || Refuse(s, s', p) || CheckSeq(s, s', p) || ParseOk(s, s', p) || ParseFails(s, s', p)
    || Leave(s, s', p) || TakeSwitch(s, s', p) || CompareSeq(s, s', p)
  }

  // ----- steps of the trigger (reload_routing_script) -----

  predicate Begin(s: State, s': State) {
    && s.tpc == Idle && s.seqNo == Free
    && s' == s.(seqNo := Active(s.next), next := s.next + 1, tpc := Preparing(s.next))
  }

  predicate PrepareFails(s: State, s': State) {
    && s.tpc.Preparing?
    && s' == s.(tpc := Failing)
  }

  predicate Publish(s: State, s': State, script: Script) {
    && s.tpc.Preparing?
    && s' == s.(cfg := Some(script), published := s.published[s.tpc.s := script],
                tpc := Sending(Reload(s.tpc.s), s.procs))
  }

  /** The status is set before the command is sent. */
  predicate Mark(s: State, s': State, p: Pid) {
    && s.tpc.Sending? && p in s.tpc.todo
    && s' == s.(status := s.status[p := Sent], tpc := Marked(s.tpc.cmd, s.tpc.todo - {p}, p))
  }

  /** The trigger runs its own command itself; other commands go to the pipe,
      which may fail. */
  predicate Send(s: State, s': State, delivered: bool) {
    s.tpc.Marked? && s.tpc.p in s.w &&
    var p, cmd := s.tpc.p, s.tpc.cmd;
    var queued := SetW(s, p, s.w[p].(fifo := s.w[p].fifo + [cmd]));
    if p == s.trigger then s' == queued.(tpc := Inline(cmd, s.tpc.todo))
    else if delivered then s' == queued.(tpc := Sending(cmd, s.tpc.todo))
    else s' == s.(status := s.status[p := Failed], tpc := Sending(cmd, s.tpc.todo),
                  dropped := if cmd.Switch? then s.dropped + {(p, cmd.n)} else s.dropped)
  }

  predicate InlineDone(s: State, s': State) {
    && s.tpc.Inline? && s.trigger in s.w
    && s.w[s.trigger].fifo == [] && s.w[s.trigger].pc == Ready
    && s' == s.(tpc := Sending(s.tpc.cmd, s.tpc.todo))
  }

  predicate AllSent(s: State, s': State) {
    && s.tpc.Sending? && s.tpc.todo == {}
    && s' == s.(tpc := if s.tpc.cmd.Reload? then Waiting(s.tpc.cmd.n) else Switched(s.tpc.cmd.n))
  }

  /** Waiting ends when all have answered or the time is up. */
  predicate SetWriteFlag(s: State, s': State) {
    && s.tpc.Waiting?
    && s' == s.(writing := true, tpc := Locking(s.tpc.s))
  }

  ghost predicate GetWriteLock(s: State, s': State) {
    && s.tpc.Locking? && NoReaders(s)
    && s' == s.(tpc := Locked(s.tpc.s))
  }

  ghost predicate AllSucceeded(s: State) {
    forall p :: p in s.procs ==> p in s.status && s.status[p] == Success
  }

  ghost predicate Approve(s: State, s': State) {
    && s.tpc.Locked? && AllSucceeded(s)
    && s' == s.(approved := s.approved + {s.tpc.s}, tpc := Sending(Switch(s.tpc.s), s.procs))
  }

  ghost predicate Reject(s: State, s': State) {
    && s.tpc.Locked? && !AllSucceeded(s)
    && s' == s.(seqNo := Spoiled, tpc := Spoiling(s.tpc.s))
  }

  predicate UnlockSpoiled(s: State, s': State) {
    && s.tpc.Spoiling?
    && s' == s.(writing := false, tpc := Failing)
  }

  /** reset_script_reload_ctx: the sequence number is freed last. */
  ghost predicate Clear(s: State, s': State) {
    && (s.tpc.Switched? || s.tpc.Failing?)
    && s' == s.(cfg := None, status := map p | p in s.procs :: NotAsked,
                tpc := if s.tpc.Switched? then Cleared(s.tpc.s) else FailCleared)
  }

  predicate FreeSeq(s: State, s': State) {
    && (s.tpc.Cleared? || s.tpc.FailCleared?)
    && s' == s.(seqNo := Free, tpc := if s.tpc.Cleared? then Unlocking else Idle)
  }

  predicate Unlock(s: State, s': State) {
    && s.tpc.Unlocking?
    && s' == s.(writing := false, tpc := Idle)
  }

  ghost predicate TriggerStep(s: State, s': State, p: Pid, script: Script, delivered: bool) {
    || Begin(s, s') || PrepareFails(s, s') || Publish(s, s', script) || Mark(s, s', p)
    || Send(s, s', delivered) || InlineDone(s, s') || AllSent(s, s') || SetWriteFlag(s, s')
    || GetWriteLock(s, s') || Approve(s, s') || Reject(s, s') || UnlockSpoiled(s, s')
    || Clear(s, s') || FreeSeq(s, s') || Unlock(s, s')
  }

  ghost predicate Next(s: State, s': State) {
    || (exists p :: WorkerStep(s, s', p))
    || (exists p, script, delivered :: TriggerStep(s, s', p, script, delivered))
  }

  ghost predicate Run(r: seq<State>) {
    |r| > 0 && Init(r[0]) && forall i :: 0 <= i < |r| - 1 ==> Next(r[i], r[i + 1])
  }

  // ----- the invariant -----

  /** The sequence number of the reload whose script is being handed out. */
  predicate HandingOut(t: TriggerPc) {
    || (t.Sending? && t.cmd.Reload?) || (t.Marked? && t.cmd.Reload?) || (t.Inline? && t.cmd.Reload?)
    || t.Waiting? || t.Locking? || t.Locked?
  }

  predicate SwitchingOver(t: TriggerPc) {
    || (t.Sending? && t.cmd.Switch?) || (t.Marked? && t.cmd.Switch?) || (t.Inline? && t.cmd.Switch?)
    || t.Switched?
  }

  function Seq(t: TriggerPc): nat
    requires HandingOut(t) || SwitchingOver(t)
  {
    if t.Sending? || t.Marked? || t.Inline? then t.cmd.n else t.s
  }

  /** The current command has not reached `p` yet. */
  predicate Pending(t: TriggerPc, p: Pid) {
    || (t.Sending? && p in t.todo) || (t.Marked? && (p == t.p || p in t.todo)) || (t.Inline? && p in t.todo)
  }

  predicate HoldsLock(t: TriggerPc) {
    t.Locked? || SwitchingOver(t) || t.Cleared? || t.Unlocking? || t.Spoiling?
  }

  /** The shared context fits the trigger's position. */
  ghost predicate TriggerInv(s: State) {
    && s.w.Keys == s.procs == s.status.Keys && s.next >= 1
    && (s.tpc.Idle? || s.tpc.Unlocking? ==> s.seqNo == Free)
    && (s.tpc.Preparing? ==> s.seqNo == Active(s.tpc.s) && s.tpc.s + 1 == s.next && s.tpc.s !in s.published)
    && (HandingOut(s.tpc) || SwitchingOver(s.tpc) ==>
          && s.seqNo == Active(Seq(s.tpc)) && Seq(s.tpc) + 1 == s.next
          && Seq(s.tpc) in s.published && s.cfg == Some(s.published[Seq(s.tpc)]))
    && (SwitchingOver(s.tpc) ==> Seq(s.tpc) in s.approved)
    && (s.tpc.Cleared? ==> s.seqNo == Active(s.tpc.s) && s.tpc.s + 1 == s.next)
    && (s.tpc.Spoiling? || s.tpc.Failing? || s.tpc.FailCleared? ==> s.seqNo != Free)
    && ((s.tpc.Failing? || s.tpc.FailCleared?) && s.seqNo.Active? ==> s.seqNo.n + 1 == s.next)
    && (s.tpc.Spoiling? ==> s.seqNo == Spoiled)
    && (s.writing <==> s.tpc.Locking? || HoldsLock(s.tpc))
    && (forall n :: n in s.published ==> n < s.next)
    && (forall n :: n in s.approved ==> n < s.next && n in s.published)
    && (s.tpc.Preparing? || HandingOut(s.tpc) ==> s.next - 1 !in s.approved)
    && (s.tpc.Sending? || s.tpc.Marked? || s.tpc.Inline? ==> s.tpc.todo <= s.procs)
    && (s.tpc.Marked? ==> s.tpc.p in s.procs && s.tpc.p !in s.tpc.todo)
    && (s.tpc.Inline? ==> s.trigger !in s.tpc.todo)
  }

  /** A script was published under `n` and every process reported to have parsed it. */
  ghost predicate Endorsed(s: State, n: nat) {
    n in s.published && forall p :: p in s.procs ==> (p, n) in s.reported
  }

  ghost predicate HistoryInv(s: State) {
    forall n :: n in s.approved ==> Endorsed(s, n)
  }

  /** What a worker holds is what was published under that number. */
  predicate Holds(s: State, p: Pid, n: nat)
    requires p in s.w
  {
    n in s.published && s.w[p].parsed == Some(Parsed(n, s.published[n]))
  }

  /** Commands wait in the order they were issued. */
  ghost predicate Queued(s: State, p: Pid)
    requires p in s.w
  {
    var k := s.w[p];
    && (forall i, j :: 0 <= i < j < |k.fifo| ==> k.fifo[i].Rank() < k.fifo[j].Rank())
    && (forall i :: 0 <= i < |k.fifo| ==> k.fifo[i].Rank() < Bound(s, p))
    && (k.pc.Reader() ==> 2 * k.pc.n < Bound(s, p) && forall i :: 0 <= i < |k.fifo| ==> 2 * k.pc.n < k.fifo[i].Rank())
    && (forall i :: 0 <= i < |k.fifo| && k.fifo[i].Switch? ==> i == 0 && k.pc == Ready)
  }

  /** Above every command issued to `p` so far. */
  function Bound(s: State, p: Pid): nat {
    if s.tpc.Preparing? then 2 * s.tpc.s
    else if (s.tpc.Failing? || s.tpc.FailCleared?) && s.seqNo.Active? then 2 * s.seqNo.n
    else if HandingOut(s.tpc) then 2 * Seq(s.tpc) + if Pending(s.tpc, p) then 0 else 1
    else 2 * s.next
  }

  /** No answer of `p` can be on record yet. */
  predicate Unasked(t: TriggerPc, p: Pid) {
    || t.Idle? || t.Preparing? || t.Cleared? || t.Unlocking? || t.FailCleared?
    || (HandingOut(t) && Pending(t, p))
  }

  ghost predicate WorkerInv(s: State, p: Pid)
    requires p in s.w && p in s.status
  {
    var k := s.w[p];
    && Queued(s, p)
    // parsing happens only while the buffer is being handed out, on that buffer
    && (k.pc.Parsing? || k.pc.Leaving? ==> HandingOut(s.tpc) && k.pc.n == Seq(s.tpc))
    && (k.pc.Parsing? ==> s.cfg == Some(k.pc.script))
    && (HoldsLock(s.tpc) ==> !k.pc.Reader())
    // reports
    && (s.status[p] == Success && HandingOut(s.tpc) ==>
          Holds(s, p, Seq(s.tpc)) && k.fifo == [] && (k.pc == Ready || k.pc == Leaving(Seq(s.tpc)))
          && (p, Seq(s.tpc)) in s.reported)
    && (Unasked(s.tpc, p) ==> s.status[p] != Success)
    // switches
    && (k.fifo != [] && k.fifo[0].Switch? ==> k.fifo[0].n in s.approved && Holds(s, p, k.fifo[0].n))
    && (k.pc.Switching? ==> k.pc.n in s.approved && Holds(s, p, k.pc.n))
    && (SwitchingOver(s.tpc) && Pending(s.tpc, p) ==> k.fifo == [] && k.pc == Ready && Holds(s, p, Seq(s.tpc)))
    && InstalledInv(s, k)
  }

  /** Only approved scripts are installed, as published, and never an older after a newer one. */
  ghost predicate InstalledInv(s: State, k: Worker) {
    && (forall i :: 0 <= i < |k.installed| ==> k.installed[i].Some? && Genuine(s, k.installed[i].value))
    && (forall i, j :: 0 <= i < j < |k.installed| ==> Older(k.installed[i], k.installed[j]))
    && (k.parsed.Some? ==> forall i :: 0 <= i < |k.installed| ==> Older(k.installed[i], k.parsed))
  }

  predicate Genuine(s: State, r: Parsed) {
    r.n in s.approved && r.n in s.published && s.published[r.n] == r.script
  }

  predicate Older(a: Option<Parsed>, b: Option<Parsed>) {
    a.Some? && b.Some? && a.value.n < b.value.n
  }

  ghost predicate Inv(s: State) {
    TriggerInv(s) && HistoryInv(s) && forall p :: p in s.procs ==> WorkerInv(s, p)
  }

  lemma InitInv(s: State)
    requires Init(s)
    ensures Inv(s)
  {
  }

  /** A worker that does not move stays in order while the context stays. */
  lemma OthersKeep(s: State, s': State, p: Pid, r: Pid)
    requires p != r && r in s.w && r in s.status && WorkerInv(s, r)
    requires s'.tpc == s.tpc && s'.seqNo == s.seqNo && s'.next == s.next && s'.cfg == s.cfg
    requires s'.published == s.published && s'.approved == s.approved && s.reported <= s'.reported
    requires r in s'.w && s'.w[r] == s.w[r] && r in s'.status && s'.status[r] == s.status[r]
    ensures WorkerInv(s', r)
  {
  }

  lemma TakeReloadInv(s: State, s': State, p: Pid)
    requires TriggerInv(s) && p in s.procs && WorkerInv(s, p) && TakeReload(s, s', p)
    ensures WorkerInv(s', p)
  {
  }

  lemma RefuseInv(s: State, s': State, p: Pid)
    requires TriggerInv(s) && p in s.procs && WorkerInv(s, p) && Refuse(s, s', p)
    ensures WorkerInv(s', p)
  {
  }

  lemma CheckSeqInv(s: State, s': State, p: Pid)
    requires TriggerInv(s) && p in s.procs && WorkerInv(s, p) && CheckSeq(s, s', p)
    ensures WorkerInv(s', p)
  {
  }

  lemma QueueHead(s: State, p: Pid)
    requires p in s.w && Queued(s, p) && s.w[p].pc.Reader() && s.w[p].fifo != []
    ensures 2 * s.w[p].pc.n < s.w[p].fifo[0].Rank() < Bound(s, p)
  {
  }

  /** A process that works on the latest command has none waiting. */
  lemma QueueEmpty(s: State, p: Pid)
    requires p in s.w && Queued(s, p) && s.w[p].pc.Reader() && HandingOut(s.tpc) && s.w[p].pc.n == Seq(s.tpc)
    ensures s.w[p].fifo == []
  {
    hide Queued;
    if s.w[p].fifo != [] {
      QueueHead(s, p);
      assert false;
    }
  }

  lemma ParseOkInv(s: State, s': State, p: Pid)
    requires TriggerInv(s) && p in s.procs && WorkerInv(s, p) && ParseOk(s, s', p)
    ensures WorkerInv(s', p)
  {
    QueueEmpty(s, p);
  }

  lemma ParseFailsInv(s: State, s': State, p: Pid)
    requires TriggerInv(s) && p in s.procs && WorkerInv(s, p) && ParseFails(s, s', p)
    ensures WorkerInv(s', p)
  {
  }

  lemma LeaveInv(s: State, s': State, p: Pid)
    requires TriggerInv(s) && p in s.procs && WorkerInv(s, p) && Leave(s, s', p)
    ensures WorkerInv(s', p)
  {
  }

  lemma SwitchNowInv(s: State, s': State, p: Pid)
    requires TriggerInv(s) && p in s.procs && WorkerInv(s, p) && TakeSwitch(s, s', p) && s.seqNo == Free
    ensures WorkerInv(s', p)
  {
  }

  lemma SwitchLaterInv(s: State, s': State, p: Pid)
    requires TriggerInv(s) && p in s.procs && WorkerInv(s, p) && TakeSwitch(s, s', p) && s.seqNo != Free
    ensures WorkerInv(s', p)
  {
    hide Installed;
  }

  lemma TakeSwitchInv(s: State, s': State, p: Pid)
    requires TriggerInv(s) && p in s.procs && WorkerInv(s, p) && TakeSwitch(s, s', p)
    ensures p in s'.w && p in s'.status && WorkerInv(s', p)
  {
    hide WorkerInv;
    if s.seqNo == Free {
      SwitchNowInv(s, s', p);
    } else {
      SwitchLaterInv(s, s', p);
    }
  }

  lemma ObeyInv(s: State, s': State, p: Pid)
    requires TriggerInv(s) && p in s.procs && WorkerInv(s, p) && CompareSeq(s, s', p) && s.seqNo == Active(s.w[p].pc.n)
    ensures p in s'.w && p in s'.status && WorkerInv(s', p)
  {
  }

  lemma DropInv(s: State, s': State, p: Pid)
    requires TriggerInv(s) && p in s.procs && WorkerInv(s, p) && CompareSeq(s, s', p) && s.seqNo != Active(s.w[p].pc.n)
    ensures p in s'.w && p in s'.status && WorkerInv(s', p)
  {
    hide Installed;
  }

  lemma CompareSeqInv(s: State, s': State, p: Pid)
    requires TriggerInv(s) && p in s.procs && WorkerInv(s, p) && CompareSeq(s, s', p)
    ensures p in s'.w && p in s'.status && WorkerInv(s', p)
  {
    hide WorkerInv;
    if s.seqNo == Active(s.w[p].pc.n) {
      ObeyInv(s, s', p);
    } else {
      DropInv(s, s', p);
    }
  }

  lemma WorkerStepSelf(s: State, s': State, p: Pid)
    requires Inv(s) && WorkerStep(s, s', p)
    ensures p in s'.w && p in s'.status && WorkerInv(s', p)
  {
    hide WorkerInv;
    if TakeReload(s, s', p) {
      TakeReloadInv(s, s', p);
    } else if Refuse(s, s', p) {
      RefuseInv(s, s', p);
    } else if CheckSeq(s, s', p) {
      CheckSeqInv(s, s', p);
    } else if ParseOk(s, s', p) {
      ParseOkInv(s, s', p);
    } else if ParseFails(s, s', p) {
      ParseFailsInv(s, s', p);
    } else if Leave(s, s', p) {
      LeaveInv(s, s', p);
    } else if TakeSwitch(s, s', p) {
      TakeSwitchInv(s, s', p);
    } else {
      CompareSeqInv(s, s', p);
    }
  }

  lemma CommandFrame(s: State, s': State, p: Pid)
    requires TakeReload(s, s', p) || Refuse(s, s', p) || CheckSeq(s, s', p) || TakeSwitch(s, s', p)
    ensures s' == s.(w := s'.w, status := s'.status)
  {
  }

  lemma ReplyFrame(s: State, s': State, p: Pid)
    requires ParseOk(s, s', p) || ParseFails(s, s', p) || Leave(s, s', p) || CompareSeq(s, s', p)
    ensures s' == s.(w := s'.w, status := s'.status, reported := s'.reported, dropped := s'.dropped)
    ensures s.reported <= s'.reported
  {
  }

  /** What a worker's step leaves alone. */
  lemma WorkerFrame(s: State, s': State, p: Pid)
    requires WorkerStep(s, s', p)
    ensures s' == s.(w := s'.w, status := s'.status, reported := s'.reported, dropped := s'.dropped)
    ensures s.reported <= s'.reported
  {
    hide TakeReload, Refuse, CheckSeq, TakeSwitch, ParseOk, ParseFails, Leave, CompareSeq;
    if ParseOk(s, s', p) || ParseFails(s, s', p) || Leave(s, s', p) || CompareSeq(s, s', p) {
      ReplyFrame(s, s', p);
    } else {
      CommandFrame(s, s', p);
    }
  }

  lemma WorkerMaps(s: State, s': State, p: Pid, r: Pid)
    requires s.w.Keys == s.procs == s.status.Keys && WorkerStep(s, s', p)
    ensures p in s.procs && s'.w.Keys == s.procs == s'.status.Keys
    ensures r != p && r in s.procs ==> s'.w[r] == s.w[r] && s'.status[r] == s.status[r]
  {
    hide TakeReload, Refuse, CheckSeq, TakeSwitch, ParseOk, ParseFails, Leave, CompareSeq;
    if ParseOk(s, s', p) || ParseFails(s, s', p) || Leave(s, s', p) || CompareSeq(s, s', p) {
      ReplyMaps(s, s', p, r);
    } else {
      CommandMaps(s, s', p, r);
    }
  }

  lemma CommandMaps(s: State, s': State, p: Pid, r: Pid)
    requires s.w.Keys == s.procs == s.status.Keys
    requires TakeReload(s, s', p) || Refuse(s, s', p) || CheckSeq(s, s', p) || TakeSwitch(s, s', p)
    ensures p in s.procs && s'.w.Keys == s.procs == s'.status.Keys
    ensures r != p && r in s.procs ==> s'.w[r] == s.w[r] && s'.status[r] == s.status[r]
  {
  }

  lemma ReplyMaps(s: State, s': State, p: Pid, r: Pid)
    requires s.w.Keys == s.procs == s.status.Keys
    requires ParseOk(s, s', p) || ParseFails(s, s', p) || Leave(s, s', p) || CompareSeq(s, s', p)
    ensures p in s.procs && s'.w.Keys == s.procs == s'.status.Keys
    ensures r != p && r in s.procs ==> s'.w[r] == s.w[r] && s'.status[r] == s.status[r]
  {
  }

  lemma ContextKept(s: State, s': State)
    requires TriggerInv(s) && s'.w.Keys == s'.procs == s'.status.Keys && s'.procs == s.procs
    requires s'.tpc == s.tpc && s'.seqNo == s.seqNo && s'.next == s.next && s'.cfg == s.cfg
    requires s'.writing == s.writing && s'.trigger == s.trigger
    requires s'.published == s.published && s'.approved == s.approved
    ensures TriggerInv(s')
  {
  }

  lemma WorkerStepInv(s: State, s': State, p: Pid)
    requires Inv(s) && WorkerStep(s, s', p)
    ensures Inv(s')
  {
    hide WorkerInv, WorkerStep, TriggerInv;
    TriggerKeys(s);
    WorkerFrame(s, s', p);
    WorkerMaps(s, s', p, p);
    ContextKept(s, s');
    WorkerStepSelf(s, s', p);
    forall r | r in s'.procs ensures WorkerInv(s', r) {
      if r != p {
        WorkerMaps(s, s', p, r);
        OthersKeep(s, s', p, r);
      }
    }
    forall n | n in s'.approved ensures Endorsed(s', n) {
      assert Endorsed(s, n);
    }
  }

  lemma TriggerKeys(s: State)
    requires TriggerInv(s)
    ensures s.w.Keys == s.procs == s.status.Keys
  {
  }

  lemma BeginInv(s: State, s': State, p: Pid)
    requires TriggerInv(s) && p in s.procs && WorkerInv(s, p) && Begin(s, s')
    ensures p in s'.w && p in s'.status && WorkerInv(s', p)
  {
  }

  lemma PrepareFailsInv(s: State, s': State, p: Pid)
    requires TriggerInv(s) && p in s.procs && WorkerInv(s, p) && PrepareFails(s, s')
    ensures p in s'.w && p in s'.status && WorkerInv(s', p)
  {
  }

  lemma PublishInv(s: State, s': State, script: Script, p: Pid)
    requires TriggerInv(s) && p in s.procs && WorkerInv(s, p) && Publish(s, s', script)
    ensures p in s'.w && p in s'.status && WorkerInv(s', p)
  {
  }

  lemma MarkInv(s: State, s': State, q: Pid, p: Pid)
    requires TriggerInv(s) && p in s.procs && WorkerInv(s, p) && Mark(s, s', q)
    ensures p in s'.w && p in s'.status && WorkerInv(s', p)
  {
  }

  /** Sending leaves the queue in order. */
  lemma SendQueued(s: State, s': State, p: Pid)
    requires TriggerInv(s) && s.tpc.Marked? && s.tpc.p == p && p in s.w && Queued(s, p)
    requires s.tpc.cmd.Switch? ==> s.w[p].fifo == [] && s.w[p].pc == Ready
    requires s'.tpc == Sending(s.tpc.cmd, s.tpc.todo) || s'.tpc == Inline(s.tpc.cmd, s.tpc.todo)
    requires s'.seqNo == s.seqNo && s'.next == s.next && p in s'.w
    requires s'.w[p] == s.w[p].(fifo := s.w[p].fifo + [s.tpc.cmd])
    ensures Queued(s', p)
  {
    assert s.tpc.cmd.Rank() < Bound(s', p) && Bound(s, p) <= Bound(s', p);
    assert s.tpc.cmd.Reload? ==> Bound(s, p) <= s.tpc.cmd.Rank();
  }

  lemma SendDelivers(s: State, s': State, p: Pid)
    requires TriggerInv(s) && s.tpc.Marked? && s.tpc.p == p && p in s.w && p in s.status && WorkerInv(s, p)
    requires s' == SetW(s, p, s.w[p].(fifo := s.w[p].fifo + [s.tpc.cmd])).(tpc := Sending(s.tpc.cmd, s.tpc.todo))
          || s' == SetW(s, p, s.w[p].(fifo := s.w[p].fifo + [s.tpc.cmd])).(tpc := Inline(s.tpc.cmd, s.tpc.todo))
    ensures WorkerInv(s', p)
  {
    SendQueued(s, s', p);
    hide Queued;
  }

  lemma SendFails(s: State, s': State, p: Pid)
    requires TriggerInv(s) && s.tpc.Marked? && s.tpc.p == p && p in s.w && p in s.status && WorkerInv(s, p)
    requires s' == s.(status := s.status[p := Failed], tpc := Sending(s.tpc.cmd, s.tpc.todo), dropped := s'.dropped)
    ensures WorkerInv(s', p)
  {
  }

  lemma SendOthers(s: State, s': State, p: Pid)
    requires TriggerInv(s) && s.tpc.Marked? && s.tpc.p != p && p in s.w && p in s.status && WorkerInv(s, p)
    requires p in s'.w && p in s'.status && s'.w[p] == s.w[p] && s'.status[p] == s.status[p]
    requires s' == s.(w := s'.w, status := s'.status, tpc := s'.tpc, dropped := s'.dropped)
    requires s'.tpc == Sending(s.tpc.cmd, s.tpc.todo) || s'.tpc == Inline(s.tpc.cmd, s.tpc.todo)
    ensures WorkerInv(s', p)
  {
  }

  lemma SendInv(s: State, s': State, delivered: bool, p: Pid)
    requires TriggerInv(s) && p in s.procs && WorkerInv(s, p) && Send(s, s', delivered)
    ensures p in s'.w && p in s'.status && WorkerInv(s', p)
  {
    hide TriggerInv, WorkerInv;
    TriggerKeys(s);
    if s.tpc.p != p {
      SendOthers(s, s', p);
    } else if p == s.trigger || delivered {
      SendDelivers(s, s', p);
    } else {
      SendFails(s, s', p);
    }
  }

  lemma InlineDoneInv(s: State, s': State, p: Pid)
    requires TriggerInv(s) && p in s.procs && WorkerInv(s, p) && InlineDone(s, s')
    ensures p in s'.w && p in s'.status && WorkerInv(s', p)
  {
  }

  lemma AllSentInv(s: State, s': State, p: Pid)
    requires TriggerInv(s) && p in s.procs && WorkerInv(s, p) && AllSent(s, s')
    ensures p in s'.w && p in s'.status && WorkerInv(s', p)
  {
  }

  lemma SetWriteFlagInv(s: State, s': State, p: Pid)
    requires TriggerInv(s) && p in s.procs && WorkerInv(s, p) && SetWriteFlag(s, s')
    ensures p in s'.w && p in s'.status && WorkerInv(s', p)
  {
  }

  lemma GetWriteLockInv(s: State, s': State, p: Pid)
    requires TriggerInv(s) && p in s.procs && WorkerInv(s, p) && GetWriteLock(s, s')
    ensures p in s'.w && p in s'.status && WorkerInv(s', p)
  {
  }

  lemma ApproveInv(s: State, s': State, p: Pid)
    requires TriggerInv(s) && p in s.procs && WorkerInv(s, p) && Approve(s, s')
    ensures p in s'.w && p in s'.status && WorkerInv(s', p)
  {
  }

  lemma RejectInv(s: State, s': State, p: Pid)
    requires TriggerInv(s) && p in s.procs && WorkerInv(s, p) && Reject(s, s')
    ensures p in s'.w && p in s'.status && WorkerInv(s', p)
  {
  }

  lemma UnlockSpoiledInv(s: State, s': State, p: Pid)
    requires TriggerInv(s) && p in s.procs && WorkerInv(s, p) && UnlockSpoiled(s, s')
    ensures p in s'.w && p in s'.status && WorkerInv(s', p)
  {
  }

  lemma ClearInv(s: State, s': State, p: Pid)
    requires TriggerInv(s) && p in s.procs && WorkerInv(s, p) && Clear(s, s')
    ensures p in s'.w && p in s'.status && WorkerInv(s', p)
  {
  }

  lemma FreeSeqInv(s: State, s': State, p: Pid)
    requires TriggerInv(s) && p in s.procs && WorkerInv(s, p) && FreeSeq(s, s')
    ensures p in s'.w && p in s'.status && WorkerInv(s', p)
  {
  }

  lemma UnlockInv(s: State, s': State, p: Pid)
    requires TriggerInv(s) && p in s.procs && WorkerInv(s, p) && Unlock(s, s')
    ensures p in s'.w && p in s'.status && WorkerInv(s', p)
  {
  }

  lemma TriggerStepWorker(s: State, s': State, q: Pid, script: Script, delivered: bool, p: Pid)
    requires TriggerInv(s) && p in s.procs && WorkerInv(s, p) && TriggerStep(s, s', q, script, delivered)
    ensures p in s'.w && p in s'.status && WorkerInv(s', p)
  {
    hide WorkerInv, TriggerInv, Begin, PrepareFails, Publish, Mark, Send, InlineDone, AllSent, SetWriteFlag,
         GetWriteLock, Approve, Reject, UnlockSpoiled, Clear, FreeSeq, Unlock;
    if Begin(s, s') {
      BeginInv(s, s', p);
    } else if PrepareFails(s, s') {
      PrepareFailsInv(s, s', p);
    } else if Publish(s, s', script) {
      PublishInv(s, s', script, p);
    } else if Mark(s, s', q) {
      MarkInv(s, s', q, p);
    } else if Send(s, s', delivered) {
      SendInv(s, s', delivered, p);
    } else if InlineDone(s, s') {
      InlineDoneInv(s, s', p);
    } else if AllSent(s, s') {
      AllSentInv(s, s', p);
    } else if SetWriteFlag(s, s') {
      SetWriteFlagInv(s, s', p);
    } else if GetWriteLock(s, s') {
      GetWriteLockInv(s, s', p);
    } else if Approve(s, s') {
      ApproveInv(s, s', p);
    } else if Reject(s, s') {
      RejectInv(s, s', p);
    } else if UnlockSpoiled(s, s') {
      UnlockSpoiledInv(s, s', p);
    } else if Clear(s, s') {
      ClearInv(s, s', p);
    } else if FreeSeq(s, s') {
      FreeSeqInv(s, s', p);
    } else {
      UnlockInv(s, s', p);
    }
  }

  lemma PrepareContext(s: State, s': State, script: Script)
    requires TriggerInv(s)
    requires Begin(s, s') || PrepareFails(s, s') || Publish(s, s', script)
    ensures TriggerInv(s')
  {
  }

  lemma MarkContext(s: State, s': State, q: Pid)
    requires TriggerInv(s) && Mark(s, s', q)
    ensures TriggerInv(s')
  {
  }

  lemma SendContext(s: State, s': State, delivered: bool)
    requires TriggerInv(s) && Send(s, s', delivered)
    ensures TriggerInv(s')
  {
  }

  lemma DecideContext(s: State, s': State)
    requires TriggerInv(s)
    requires || InlineDone(s, s') || AllSent(s, s') || SetWriteFlag(s, s') || GetWriteLock(s, s')
             || Approve(s, s') || Reject(s, s')
    ensures TriggerInv(s')
  {
    hide NoReaders, AllSucceeded;
  }

  lemma ResetContext(s: State, s': State)
    requires TriggerInv(s)
    requires UnlockSpoiled(s, s') || Clear(s, s') || FreeSeq(s, s') || Unlock(s, s')
    ensures TriggerInv(s')
  {
  }

  lemma TriggerStepContext(s: State, s': State, q: Pid, script: Script, delivered: bool)
    requires TriggerInv(s) && TriggerStep(s, s', q, script, delivered)
    ensures TriggerInv(s')
  {
    hide TriggerInv, Begin, PrepareFails, Publish, Mark, Send, InlineDone, AllSent, SetWriteFlag,
         GetWriteLock, Approve, Reject, UnlockSpoiled, Clear, FreeSeq, Unlock;
    if UnlockSpoiled(s, s') || Clear(s, s') || FreeSeq(s, s') || Unlock(s, s') {
      ResetContext(s, s');
    } else if Begin(s, s') || PrepareFails(s, s') || Publish(s, s', script) {
      PrepareContext(s, s', script);
    } else if Mark(s, s', q) {
      MarkContext(s, s', q);
    } else if Send(s, s', delivered) {
      SendContext(s, s', delivered);
    } else {
      DecideContext(s, s');
    }
  }

  /** What the trigger's steps leave alone, but for the approval. */
  predicate Kept(s: State, s': State) {
    s'.procs == s.procs && s'.reported == s.reported && s'.approved == s.approved
    && s.published.Keys <= s'.published.Keys
  }

  lemma HandOutFrame(s: State, s': State, q: Pid, script: Script, delivered: bool)
    requires Begin(s, s') || PrepareFails(s, s') || Publish(s, s', script) || Mark(s, s', q) || Send(s, s', delivered)
    ensures Kept(s, s')
  {
  }

  lemma DecideFrame(s: State, s': State)
    requires || InlineDone(s, s') || AllSent(s, s') || SetWriteFlag(s, s') || GetWriteLock(s, s') || Reject(s, s')
    ensures Kept(s, s')
  {
    hide NoReaders, AllSucceeded;
  }

  lemma ResetFrame(s: State, s': State)
    requires UnlockSpoiled(s, s') || Clear(s, s') || FreeSeq(s, s') || Unlock(s, s')
    ensures Kept(s, s')
  {
  }

  lemma ApproveFrame(s: State, s': State)
    requires Approve(s, s')
    ensures s'.procs == s.procs && s'.reported == s.reported && s'.published == s.published
  {
    hide AllSucceeded;
  }

  lemma TriggerFrame(s: State, s': State, q: Pid, script: Script, delivered: bool)
    requires TriggerStep(s, s', q, script, delivered)
    ensures s'.procs == s.procs && s'.reported == s.reported && s.published.Keys <= s'.published.Keys
    ensures Approve(s, s') || s'.approved == s.approved
  {
    hide Begin, PrepareFails, Publish, Mark, Send, InlineDone, AllSent, SetWriteFlag, GetWriteLock, Approve, Reject,
         UnlockSpoiled, Clear, FreeSeq, Unlock;
    if Approve(s, s') {
      ApproveFrame(s, s');
    } else if UnlockSpoiled(s, s') || Clear(s, s') || FreeSeq(s, s') || Unlock(s, s') {
      ResetFrame(s, s');
    } else if || Begin(s, s') || PrepareFails(s, s') || Publish(s, s', script) || Mark(s, s', q)
              || Send(s, s', delivered) {
      HandOutFrame(s, s', q, script, delivered);
    } else {
      DecideFrame(s, s');
    }
  }

  lemma ApproveEndorsed(s: State, s': State)
    requires Inv(s) && Approve(s, s')
    ensures Endorsed(s', s.tpc.s)
  {
    forall p | p in s.procs ensures (p, s.tpc.s) in s.reported {
      assert WorkerInv(s, p);
    }
  }

  /** A script is approved only when all processes reported success. */
  lemma TriggerStepHistory(s: State, s': State, q: Pid, script: Script, delivered: bool)
    requires Inv(s) && TriggerStep(s, s', q, script, delivered)
    ensures HistoryInv(s')
  {
    hide TriggerStep, TriggerInv, WorkerInv, AllSucceeded;
    TriggerFrame(s, s', q, script, delivered);
    if Approve(s, s') {
      ApproveEndorsed(s, s');
    }
    forall n | n in s'.approved ensures Endorsed(s', n) {
      assert n in s.approved ==> Endorsed(s, n);
    }
  }

  lemma TriggerStepInv(s: State, s': State, q: Pid, script: Script, delivered: bool)
    requires Inv(s) && TriggerStep(s, s', q, script, delivered)
    ensures Inv(s')
  {
    hide WorkerInv, TriggerInv, TriggerStep, HistoryInv;
    TriggerStepContext(s, s', q, script, delivered);
    TriggerFrame(s, s', q, script, delivered);
    TriggerStepHistory(s, s', q, script, delivered);
    TriggerKeys(s);
    TriggerKeys(s');
    forall p | p in s'.procs ensures WorkerInv(s', p) {
      TriggerStepWorker(s, s', q, script, delivered, p);
    }
  }

  lemma {:induction false} AlwaysInv(r: seq<State>, i: nat)
    requires Run(r) && i < |r|
    ensures Inv(r[i])
  {
    hide Inv, WorkerStep, TriggerStep, Init;
    if i == 0 {
      InitInv(r[0]);
    } else {
      AlwaysInv(r, i - 1);
      var s, s' := r[i - 1], r[i];
      assert Next(r[i - 1], r[i - 1 + 1]);
      if exists p :: WorkerStep(s, s', p) {
        var p :| WorkerStep(s, s', p);
        WorkerStepInv(s, s', p);
      } else {
        var p, script, delivered :| TriggerStep(s, s', p, script, delivered);
        TriggerStepInv(s, s', p, script, delivered);
      }
    }
  }

  // ----- what holds in every run -----

  /**
    Whatever a process switches to was published under its number, was parsed
    successfully by every process, and follows what the process used before.
  */
  lemma InstallsAgreed(r: seq<State>, i: nat, p: Pid, j: nat)
    requires Run(r) && i < |r| && p in r[i].w && j < |r[i].w[p].installed|
    ensures var e := r[i].w[p].installed[j];
      && e.Some? && e.value.n in r[i].published && r[i].published[e.value.n] == e.value.script
      && (forall q :: q in r[i].procs ==> (q, e.value.n) in r[i].reported)
      && forall k :: 0 <= k < j ==> Older(r[i].w[p].installed[k], e)
  {
    var s := r[i];
    AlwaysInv(r, i);
    assert WorkerInv(s, p);
    assert Genuine(s, s.w[p].installed[j].value);
    assert Endorsed(s, s.w[p].installed[j].value.n);
  }

  /** While a process parses, the shared buffer is there and holds what it parses. */
  lemma ParsesSharedBuffer(r: seq<State>, i: nat, p: Pid)
    requires Run(r) && i < |r| && p in r[i].w
    ensures r[i].w[p].pc.Parsing? ==> r[i].cfg == Some(r[i].w[p].pc.script) && r[i].seqNo == Active(r[i].w[p].pc.n)
    ensures r[i].w[p].pc.Reading? && r[i].seqNo == Active(r[i].w[p].pc.n) ==> r[i].cfg.Some?
  {
    AlwaysInv(r, i);
    assert WorkerInv(r[i], p);
  }

  /** The shared buffer changes only when no process is parsing it. */
  lemma BufferStable(r: seq<State>, i: nat, p: Pid)
    requires Run(r) && i + 1 < |r| && r[i].cfg != r[i + 1].cfg && p in r[i].w
    ensures !r[i].w[p].pc.Parsing?
  {
    hide WorkerStep, Run;
    var s, s' := r[i], r[i + 1];
    assert Inv(s) && Next(s, s') by {
      hide *;
      AlwaysInv(r, i);
      RunStep(r, i);
    }
    assert WorkerInv(s, p);
    if exists q :: WorkerStep(s, s', q) {
      var q :| WorkerStep(s, s', q);
      WorkerFrame(s, s', q);
    } else {
      var q, script, delivered :| TriggerStep(s, s', q, script, delivered);
      BufferWriter(s, s', q, script, delivered);
    }
  }

  lemma RunStep(r: seq<State>, i: nat)
    requires Run(r) && i + 1 < |r|
    ensures Next(r[i], r[i + 1])
  {
  }

  lemma BufferWriter(s: State, s': State, q: Pid, script: Script, delivered: bool)
    requires TriggerStep(s, s', q, script, delivered) && s.cfg != s'.cfg
    ensures s.tpc.Preparing? || s.tpc.Switched? || s.tpc.Failing?
  {
    hide NoReaders, AllSucceeded;
  }

  /** A switch command taken while no reload is under way installs the script it names. */
  lemma SwitchTaken(s: State, s': State, p: Pid)
    requires Inv(s) && TakeSwitch(s, s', p)
    ensures var n := s.w[p].fifo[0].n;
      && n in s.approved && n in s.published
      && (s.seqNo == Free <==>
            s'.w[p].installed == s.w[p].installed + [Some(Parsed(n, s.published[n]))])
      && (s.seqNo != Free ==> s'.w[p].pc == Switching(n) && s'.w[p].parsed == s.w[p].parsed)
  {
    assert WorkerInv(s, p);
  }

  /**
    A switch command is obeyed unless, between the two reads of the sequence
    number or before both, the context was released.
  */
  lemma SwitchObeyed(s: State, s': State, p: Pid)
    requires Inv(s) && CompareSeq(s, s', p)
    ensures var n := s.w[p].pc.n;
      && n in s.approved && n in s.published
      && (s.seqNo == Active(n) <==>
            s'.w[p].installed == s.w[p].installed + [Some(Parsed(n, s.published[n]))])
      && (s'.w[p].installed == s.w[p].installed ==>
            s'.w[p].parsed == None && (s.next > n + 1 || !SwitchingOver(s.tpc)))
  {
    assert WorkerInv(s, p);
  }

  // ----- a lost switch -----

  function Last(r: seq<State>): State
    requires |r| > 0
  {
    r[|r| - 1]
  }

  lemma ByWorker(r: seq<State>, s': State, p: Pid) returns (r': seq<State>)
    requires Run(r) && WorkerStep(Last(r), s', p)
    ensures Run(r') && Last(r') == s'
  {
    r' := r + [s'];
  }

  lemma ByTrigger(r: seq<State>, s': State, p: Pid, script: Script, delivered: bool) returns (r': seq<State>)
    requires Run(r) && TriggerStep(Last(r), s', p, script, delivered)
    ensures Run(r') && Last(r') == s'
  {
    hide TriggerStep;
    r' := r + [s'];
  }

  /** One process and a trigger that needs no script itself. */
  predicate One(s: State, seqNo: SeqNo, tpc: TriggerPc, k: Worker) {
    s.procs == {1} && s.trigger == 0 && s.seqNo == seqNo && s.tpc == tpc && 1 in s.w && s.w[1] == k && s.w.Keys == {1}
  }

  lemma RunToPublished() returns (r: seq<State>)
    ensures Run(r) && One(Last(r), Active(1), Sending(Reload(1), {1}), Worker([], Ready, None, []))
    ensures 1 in Last(r).status
    ensures !Last(r).writing && Last(r).cfg == Some(7) && Last(r).approved == {} && Last(r).reported == {}
  {
    hide WorkerStep, PrepareFails, Mark, Send, InlineDone, AllSent, SetWriteFlag, GetWriteLock, Approve, Reject,
         UnlockSpoiled, Clear, FreeSeq, Unlock;
    var s0 := State({1}, 0, Free, 1, None, map[1 := NotAsked], false, map[1 := Worker([], Ready, None, [])], Idle,
                    map[], {}, {}, {});
    r := [s0];
    var s1 := s0.(seqNo := Active(1), next := 2, tpc := Preparing(1));
    r := ByTrigger(r, s1, 1, 7, true);
    var s2 := s1.(cfg := Some(7), published := s1.published[1 := 7], tpc := Sending(Reload(1), {1}));
    r := ByTrigger(r, s2, 1, 7, true);
  }

  lemma RunToQueued() returns (r: seq<State>)
    ensures Run(r) && One(Last(r), Active(1), Sending(Reload(1), {}), Worker([Reload(1)], Ready, None, []))
    ensures !Last(r).writing && Last(r).cfg == Some(7) && Last(r).approved == {} && Last(r).reported == {}
  {
    hide WorkerStep, Begin, PrepareFails, Publish, InlineDone, AllSent, SetWriteFlag, GetWriteLock, Approve, Reject,
         UnlockSpoiled, Clear, FreeSeq, Unlock, Next;
    r := RunToPublished();
    var s0 := Last(r);
    assert {1} - {1} == {};
    var s1 := s0.(status := s0.status[1 := Sent], tpc := Marked(Reload(1), {}, 1));
    r := ByTrigger(r, s1, 1, 7, true);
    assert [] + [Reload(1)] == [Reload(1)];
    var s2 := SetW(s1, 1, Worker([Reload(1)], Ready, None, [])).(tpc := Sending(Reload(1), {}));
    r := ByTrigger(r, s2, 1, 7, true);
  }

  lemma RunToParsed() returns (r: seq<State>)
    ensures Run(r) && One(Last(r), Active(1), Sending(Reload(1), {}), Worker([], Ready, Some(Parsed(1, 7)), []))
    ensures !Last(r).writing && Last(r).approved == {} && Last(r).reported == {(1, 1)}
    ensures 1 in Last(r).status && Last(r).status[1] == Success
  {
    hide TriggerStep, Refuse, TakeSwitch, CompareSeq, ParseFails, Next;
    r := RunToQueued();
    var s0 := Last(r);
    assert [Reload(1)][1..] == [];
    var s1 := SetW(s0, 1, Worker([], Reading(1), None, []));
    r := ByWorker(r, s1, 1);
    var s2 := SetW(s1, 1, Worker([], Parsing(1, 7), None, [])).(status := s1.status[1 := Received]);
    r := ByWorker(r, s2, 1);
    var s3 := SetW(s2, 1, Worker([], Leaving(1), Some(Parsed(1, 7)), []))
              .(status := s2.status[1 := Success], reported := s2.reported + {(1, 1)});
    r := ByWorker(r, s3, 1);
    var s4 := SetW(s3, 1, Worker([], Ready, Some(Parsed(1, 7)), []));
    r := ByWorker(r, s4, 1);
  }

  lemma RunToApproved() returns (r: seq<State>)
    ensures Run(r) && One(Last(r), Active(1), Sending(Switch(1), {1}), Worker([], Ready, Some(Parsed(1, 7)), []))
    ensures Last(r).approved == {1} && Last(r).reported == {(1, 1)}
  {
    hide WorkerStep, Begin, PrepareFails, Publish, Mark, Send, InlineDone, Reject, UnlockSpoiled, Clear, FreeSeq,
         Unlock, Next;
    r := RunToParsed();
    var s0 := Last(r);
    var s1 := s0.(tpc := Waiting(1));
    r := ByTrigger(r, s1, 1, 7, true);
    var s2 := s1.(writing := true, tpc := Locking(1));
    r := ByTrigger(r, s2, 1, 7, true);
    var s3 := s2.(tpc := Locked(1));
    r := ByTrigger(r, s3, 1, 7, true);
    var s4 := s3.(approved := s3.approved + {1}, tpc := Sending(Switch(1), {1}));
    r := ByTrigger(r, s4, 1, 7, true);
  }

  lemma RunToSwitched() returns (r: seq<State>)
    ensures Run(r) && One(Last(r), Active(1), Cleared(1), Worker([Switch(1)], Ready, Some(Parsed(1, 7)), []))
    ensures Last(r).approved == {1} && Last(r).reported == {(1, 1)}
  {
    hide WorkerStep, Begin, PrepareFails, Publish, InlineDone, Reject, Approve, SetWriteFlag, GetWriteLock,
         UnlockSpoiled, FreeSeq, Unlock, Next;
    r := RunToApproved();
    var s0 := Last(r);
    assert {1} - {1} == {};
    var s1 := s0.(status := s0.status[1 := Sent], tpc := Marked(Switch(1), {}, 1));
    r := ByTrigger(r, s1, 1, 7, true);
    assert [] + [Switch(1)] == [Switch(1)];
    var s2 := SetW(s1, 1, Worker([Switch(1)], Ready, Some(Parsed(1, 7)), [])).(tpc := Sending(Switch(1), {}));
    r := ByTrigger(r, s2, 1, 7, true);
    var s3 := s2.(tpc := Switched(1));
    r := ByTrigger(r, s3, 1, 7, true);
    var s4 := s3.(cfg := None, status := map p | p in s3.procs :: NotAsked, tpc := Cleared(1));
    r := ByTrigger(r, s4, 1, 7, true);
  }

  /**
    A reload that every process parsed and the trigger approved and completed
    may still leave a process with its old script and nothing pending: the
    process reads the sequence number before and after the trigger frees it.
  */
  lemma SwitchLost() returns (r: seq<State>)
    ensures Run(r) && One(Last(r), Free, Idle, Worker([], Ready, None, []))
    ensures Last(r).approved == {1} && Last(r).reported == {(1, 1)} && (1, 1) in Last(r).dropped
  {
    hide Begin, PrepareFails, Publish, Mark, Send, InlineDone, AllSent, Reject, Approve, SetWriteFlag, GetWriteLock,
         UnlockSpoiled, Clear, TakeReload, Refuse, CheckSeq, ParseOk, ParseFails, Leave, Next;
    r := RunToSwitched();
    var s0 := Last(r);
    assert [Switch(1)][1..] == [];
    var s1 := SetW(s0, 1, Worker([], Switching(1), Some(Parsed(1, 7)), []));
    r := ByWorker(r, s1, 1);
    var s2 := s1.(seqNo := Free, tpc := Unlocking);
    r := ByTrigger(r, s2, 1, 7, true);
    var s3 := SetW(s2, 1, Worker([], Ready, None, [])).(dropped := s2.dropped + {(1, 1)});
    r := ByWorker(r, s3, 1);
    var s4 := s3.(writing := false, tpc := Idle);
    r := ByTrigger(r, s4, 1, 7, true);
  }
}
