/**
 * The assertion of the rollback loop: as long as no write straddles committed and fresh memory, every
 * entry that a crash leaves is in the table that recovery loads, so that recovery gets to its end.
 */
module Managed {
  import opened Bytes
  import opened UndoEntries
  import opened Application
  import opened Protocol
  import opened ProtocolInvariant
  import opened PersistSteps
  import opened BatchSteps
  import opened RecoverSteps
  import opened Durability
  import opened Recovery

  /** The step starts to record a write that straddles committed and fresh memory. */
  ghost predicate Mixes(s: State, st: Step) {
    st == Consume(StartRecord) && AtRecord(s) && !NoneFresh(s.freshBytes, s.pc.acts[0].addr, |s.pc.acts[0].data|)
  }

  /** A batch that has no durable commit record yet. */
  predicate InBatch(pc: PC) {
    || pc.Ready? || pc.Running? || pc.Recording? || pc.Stored? || pc.Logged?
    || pc.Tabling? || pc.Flushing? || pc.Drained? || pc.CommitStored? || pc.CommitFlushed?
  }

  /** How many entries save blocks, as loads see the log. */
  function Saving(s: State): nat {
    if s.pc.Stored? then s.len + 1 else if s.pc.CommitFlushed? && s.len > 0 then s.len - 1 else s.len
  }

  /** The write that is being recorded touches no fresh memory. */
  ghost predicate RecordsOld(s: State) {
    s.pc.Recording? || s.pc.Stored? ==>
      s.pc.acts != [] && s.pc.acts[0].Write? && NoneFresh(s.freshBytes, s.pc.acts[0].addr, |s.pc.acts[0].data|)
  }

  ghost predicate AllManaged(s: State) {
    if InBatch(s.pc) then ManagedEntries(s.vlog, Saving(s), s.vdisk.table) && RecordsOld(s)
    else if s.pc.Unlinking? || s.pc.Unlinked? || s.pc.Undoing? then ManagedEntries(s.vlog, s.len, s.vdisk.table)
    else if s.pc.Down? then Manageable(s)
    else s.pc.Clearing? && s.pc.why == RecoverUndo ==> ManagedEntries(s.dlog, Scan(s.dlog), s.ddisk.table)
  }

  // ---- What a crash finds ------------------------------------------------------------------------------

  lemma ManagedPrefix(log: seq<Entry>, log': seq<Entry>, n: nat, k: nat, t: seq<Region>)
    requires ManagedEntries(log, n, t) && k <= n <= |log| == |log'| && forall i :: 0 <= i < k ==> log'[i] == log[i]
    ensures ManagedEntries(log', k, t)
  {
    forall i | 0 <= i < k
      ensures Covered(t, log'[i].addr)
    {
      assert Covered(t, log[i].addr);
    }
  }

  lemma OpenManageable(cf: Config, s: State, start: nat, n: nat)
    requires Open(cf, s, start, n) && ManagedEntries(s.vlog, n, s.vdisk.table)
    ensures Manageable(s)
  {
    ScanOpen(s.vlog, s.dlog, start, n, |s.vmem|);
    ManagedPrefix(s.vlog, s.dlog, n, Scan(s.dlog), s.vdisk.table);
  }

  lemma SealingManageable(cf: Config, s: State, n: nat)
    requires Sealing(cf, s, n) && ManagedEntries(s.vlog, n, s.vdisk.table)
    ensures Manageable(s)
  {
    ScanSealed(s.vlog, s.dlog, n, s.tail, |s.vmem|);
    ManagedPrefix(s.vlog, s.dlog, n, n, s.vdisk.table);
  }

  lemma BatchManageable(cf: Config, s: State)
    requires InvBatch(cf, s) && AllManaged(s)
    ensures Manageable(s)
  {
    if s.pc.Recording? {
      OpenManageable(cf, s, s.pc.start, s.len);
    } else if s.pc.Stored? {
      OpenManageable(cf, s, s.pc.start, s.len + 1);
    } else {
      OpenManageable(cf, s, s.len, s.len);
    }
  }

  lemma CommitManageable(cf: Config, s: State)
    requires InvCommit(cf, s) && AllManaged(s)
    ensures Manageable(s)
  {
    if s.pc.CommitStored? {
      SealingManageable(cf, s, s.len);
    } else if s.pc.CommitFlushed? {
      SealingManageable(cf, s, s.len - 1);
    } else {
      OpenManageable(cf, s, s.len, s.len);
    }
  }

  lemma CommittedManageable(cf: Config, s: State)
    requires InvCommitted(cf, s)
    ensures Manageable(s)
  {
    if !s.pc.Clearing? {
      CommittedDurable(s.vlog, s.dlog, s.len, s.tail, |s.vmem|);
      ScanCommitted(s.dlog, s.len, s.tail, |s.vmem|);
    } else if !IsNull(s.dlog[0]) {
      ScanCommitted(s.dlog, s.len, s.tail, |s.vmem|);
    }
  }

  lemma ForwardManageable(cf: Config, s: State)
    requires InvRecoverCommit(cf, s)
    ensures Manageable(s)
  {
    if s.pc.Renaming? || s.pc.Renamed? {
      CommittedDurable(s.vlog, s.dlog, s.len, s.tail, |s.vmem|);
      ScanCommitted(s.dlog, s.len, s.tail, |s.vmem|);
    } else if s.pc.Clearing? && !IsNull(s.dlog[0]) {
      ScanCommitted(s.dlog, s.len, s.tail, |s.vmem|);
    } else {
      ScanIs(s.dlog, 0);
    }
  }

  lemma UndoManageable(cf: Config, s: State)
    requires InvRecoverUndo(cf, s) && AllManaged(s)
    ensures Manageable(s)
  {
    if s.pc.Unlinking? || s.pc.Unlinked? || s.pc.Undoing? {
      ScanIs(s.dlog, s.len);
    }
  }

  lemma CrashManageable(cf: Config, s: State)
    requires Inv(cf, s) && AllManaged(s)
    ensures Manageable(s)
  {
    if InvBatch(cf, s) {
      BatchManageable(cf, s);
    } else if InvCommit(cf, s) {
      CommitManageable(cf, s);
    } else if InvCommitted(cf, s) {
      CommittedManageable(cf, s);
    } else if InvRecoverCommit(cf, s) {
      ForwardManageable(cf, s);
    } else {
      UndoManageable(cf, s);
    }
  }

  // ---- Every step but a mixed record keeps entries managed ---------------------------------------------

  lemma StoreManaged(cf: Config, s: State)
    requires s.pc.Recording? && InvRecording(cf, s, s.pc.acts, s.pc.start, s.pc.next, s.pc.fill)
    requires CanConsume(cf, s, StoreAddr) && AllManaged(s)
    ensures AllManaged(DoConsume(cf, s, StoreAddr))
  {
    var Write(addr, data) := s.pc.acts[0];
    BlockManaged(s.vdisk.table, s.regions, s.freshBytes, s.modified, BaseView(cf, s), |s.vmem|, addr, |data|,
                 s.pc.next);
    var log := DoConsume(cf, s, StoreAddr).vlog;
    ManagedPrefix(s.vlog, log, s.len, s.len, s.vdisk.table);
  }

  lemma CopyManaged(cf: Config, s: State, upto: nat)
    requires Sized(s) && CanConsume(cf, s, CopyBlock(upto)) && AllManaged(s)
    ensures AllManaged(DoConsume(cf, s, CopyBlock(upto)))
  {
    var log := DoConsume(cf, s, CopyBlock(upto)).vlog;
    assert forall i :: 0 <= i < s.len ==> log[i] == s.vlog[i];
    ManagedPrefix(s.vlog, log, s.len, s.len, s.vdisk.table);
  }

  lemma ConsumeManaged(cf: Config, s: State, st: ConsumeStep)
    requires InvBatch(cf, s) && CanConsume(cf, s, st) && AllManaged(s) && !Mixes(s, Consume(st))
    ensures AllManaged(DoConsume(cf, s, st))
  {
    match st
    case Begin =>
    case MapFresh =>
    case WriteFresh =>
    case WriteSkipped =>
    case StartRecord =>
    case CopyBlock(upto) => CopyManaged(cf, s, upto);
    case StoreAddr => StoreManaged(cf, s);
    case FlushEntry =>
    case SkipLogged =>
    case DrainRecord =>
    case WriteLogged =>
    case EndCommand =>
  }

  lemma CommitManaged(s: State, st: CommitStep)
    requires Sized(s) && InBatch(s.pc) && CanCommit(s, st) && AllManaged(s)
    ensures AllManaged(DoCommit(s, st))
  {
    if st == StoreCommit {
      ManagedPrefix(s.vlog, DoCommit(s, st).vlog, s.len, s.len, s.vdisk.table);
    }
  }

  /** After the commit record there is nothing left to manage. */
  lemma DoneManaged(s: State)
    requires s.pc.TailPending? || s.pc.TailStored? || s.pc.TailDurable? || s.pc.Renaming? || s.pc.Renamed? ||
             ClearsCommitted(s.pc) || (s.pc == Ready && s.len == 0)
    ensures AllManaged(s)
  {
  }

  lemma ClearManaged(s: State)
    requires Sized(s) && CanFinish(s, ClearEntry) && AllManaged(s) && s.pc.why == RecoverUndo
    ensures AllManaged(DoFinish(s, ClearEntry))
  {
  }

  /** Finishing steps lead to such states, or store the next zero after a rollback. */
  lemma FinishLeads(s: State, st: FinishStep)
    requires Sized(s) && CanFinish(s, st) && (s.pc == TailDurable(true) ==> s.len == 0)
    requires !(st == ClearEntry && s.pc.why == RecoverUndo)
    ensures var e := DoFinish(s, st);
      e.pc.TailPending? || e.pc.TailStored? || e.pc.TailDurable? || e.pc.Renaming? || e.pc.Renamed? ||
      ClearsCommitted(e.pc) || (e.pc == Ready && e.len == 0)
  {
  }

  lemma FinishManaged(s: State, st: FinishStep)
    requires Sized(s) && CanFinish(s, st) && AllManaged(s) && (s.pc == TailDurable(true) ==> s.len == 0)
    ensures AllManaged(DoFinish(s, st))
  {
    if st == ClearEntry && s.pc.why == RecoverUndo {
      ClearManaged(s);
    } else {
      FinishLeads(s, st);
      DoneManaged(DoFinish(s, st));
    }
  }

  lemma EmptyAtPublish(cf: Config, s: State)
    requires Inv(cf, s) && s.pc == TailDurable(true)
    ensures s.len == 0
  {
  }

  lemma StepFinishManaged(cf: Config, s: State, st: FinishStep)
    requires Inv(cf, s) && Sized(s) && CanFinish(s, st) && AllManaged(s)
    ensures AllManaged(DoFinish(s, st))
  {
    if s.pc == TailDurable(true) {
      EmptyAtPublish(cf, s);
    }
    FinishManaged(s, st);
  }

  /** What recovery that rolls back knows about log and table. */
  ghost predicate UndoFacts(s: State) {
    && Sized(s) && s.vlog == s.dlog && s.ddisk.table == s.vdisk.table
    && (s.pc.Undoing? ==> Scan(s.vlog) == s.len)
  }

  lemma UndoKnows(cf: Config, s: State)
    requires InvRecoverUndo(cf, s) && !s.pc.Clearing?
    ensures UndoFacts(s)
  {
    if s.pc.Undoing? {
      ScanIs(s.vlog, s.len);
    }
  }

  lemma RecoverManaged(s: State, st: RecoverStep)
    requires UndoFacts(s) && CanRecover(s, st) && AllManaged(s)
    ensures AllManaged(DoRecover(s, st))
  {
    match st
    case ScanLog =>
    case Unlink =>
    case SyncUnlink =>
    case Undo =>
    case DrainUndo => EvictSame(s, s.lflush);
  }

  lemma StepRecoverManaged(cf: Config, s: State, st: RecoverStep)
    requires Inv(cf, s) && Sized(s) && CanRecover(s, st) && AllManaged(s)
    ensures AllManaged(DoRecover(s, st))
  {
    RecoverPhase(cf, s, st);
    UndoKnows(cf, s);
    RecoverManaged(s, st);
  }

  lemma EvictManaged(cf: Config, s: State, bytes: set<nat>, entries: set<nat>, t: bool)
    requires Inv(cf, s) && Sized(s) && s.pc != Down && AllManaged(s)
    ensures AllManaged(EvictState(s, bytes, entries, t))
  {
    if s.pc.Clearing? && s.pc.why == RecoverUndo {
      ZeroedManaged(s.dlog, Mix(s.dlog, s.vlog, entries), s.ddisk.table);
    }
  }

  lemma ZeroedManaged(log: seq<Entry>, log': seq<Entry>, t: seq<Region>)
    requires |log'| == |log| && forall k :: 0 <= k < |log| ==> log'[k] == log[k] || IsNull(log'[k])
    requires ManagedEntries(log, Scan(log), t)
    ensures ManagedEntries(log', Scan(log'), t)
  {
    var n := Scan(log');
    assert forall k :: 0 <= k < n ==> log'[k] == log[k];
    ScanAtLeast(log, n);
    ManagedPrefix(log, log', Scan(log), n, t);
  }

  lemma HalfManaged(cf: Config, s: State, k: nat, head: bool)
    requires Inv(cf, s) && CanEvictHalf(s, k, head) && s.pc.why == RecoverUndo && AllManaged(s)
    ensures AllManaged(s.(dlog := s.dlog[k := HalfEntry(s.dlog[k], s.vlog[k], head)]))
  {
    var log := s.dlog[k := HalfEntry(s.dlog[k], s.vlog[k], head)];
    if head {
      ZeroedManaged(s.dlog, log, s.ddisk.table);
    } else {
      ScanIs(log, Scan(s.dlog));
      ManagedPrefix(s.dlog, log, Scan(s.dlog), Scan(s.dlog), s.ddisk.table);
    }
  }

  lemma EnvManaged(cf: Config, s: State, st: EnvStep)
    requires Inv(cf, s) && Sized(s) && CanEnv(s, st) && AllManaged(s)
    ensures AllManaged(DoEnv(s, st))
  {
    match st
    case Evict(bytes, entries, t) => EvictManaged(cf, s, bytes, entries, t);
    case EvictHalf(k, head) =>
      if s.pc.why == RecoverUndo {
        HalfManaged(cf, s, k, head);
      }
    case SyncDisk =>
    case SyncFile(rows) =>
      if s.pc == Down {
        SyncFileSame(s, rows);
      }
  }

  lemma KeepsManaged(cf: Config, s: State, st: Step)
    requires Inv(cf, s) && Enabled(cf, s, st) && AllManaged(s) && !Mixes(s, st)
    ensures AllManaged(After(cf, s, st))
  {
    match st
    case Env(e) => EnvManaged(cf, s, e);
    case Crash => CrashManageable(cf, s);
    case Produce(c) =>
    case Consume(c) =>
      ConsumePhase(cf, s, c);
      ConsumeManaged(cf, s, c);
    case Commit(c) => CommitManaged(s, c);
    case Finish(f) => StepFinishManaged(cf, s, f);
    case Recover(r) => StepRecoverManaged(cf, s, r);
  }

  /** A run in which no write straddles committed and fresh memory. */
  ghost predicate NoMixed(cf: Config, s: State, steps: seq<Step>)
    requires IsRun(cf, s, steps)
    decreases |steps|
  {
    steps == [] || (!Mixes(s, steps[0]) && NoMixed(cf, After(cf, s, steps[0]), steps[1..]))
  }

  lemma {:induction false} RunManaged(cf: Config, s: State, steps: seq<Step>)
    requires Inv(cf, s) && AllManaged(s) && IsRun(cf, s, steps) && NoMixed(cf, s, steps)
    ensures Inv(cf, End(cf, s, steps)) && AllManaged(End(cf, s, steps))
    decreases |steps|
  {
    if steps != [] {
      KeepsManaged(cf, s, steps[0]);
      Keeps(cf, s, steps[0]);
      RunManaged(cf, After(cf, s, steps[0]), steps[1..]);
    }
  }

  /** After any run without such writes, with any number of crashes, recovery gets to its end. */
  lemma NeverAborts(cf: Config, s0: State, run: seq<Step>)
    requires Initial(cf, s0) && IsRun(cf, s0, run) && NoMixed(cf, s0, run)
    ensures Manageable(End(cf, s0, run))
  {
    InitialInv(cf, s0);
    RunManaged(cf, s0, run);
    CrashManageable(cf, End(cf, s0, run));
  }
}
