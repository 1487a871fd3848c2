/** The durability theorems: every run of the background protocol, every crash point. */
module Durability {
  import opened Options
  import opened UndoEntries
  import opened Application
  import opened Protocol
  import opened ProtocolInvariant
  import opened PersistSteps
  import opened BatchSteps
  import opened CommitSteps
  import opened RecoverSteps

  // ---- Every state is recoverable ----------------------------------------------------------------

  /** What a crash in `s` leaves: a consistent memory, and its own tail unless the tail was lost. */
  ghost predicate Safe(cf: Config, s: State) {
    && Shape(s) && Recoverable(cf, s)
    && (RecTail(s) == Included(s) <==> !TailLost(s))
    && s.ptail <= RecTail(s)
    && (TailLost(s) ==> RecTail(s) == s.dtail == s.base < s.tail == Included(s))
    && (Included(s) == s.base || Included(s) == s.tail)
  }

  lemma SafeBatch(cf: Config, s: State)
    requires InvBatch(cf, s)
    ensures Safe(cf, s)
  {
    if s.pc.Recording? {
      RecoverableOpen(cf, s, s.pc.start, s.len);
    } else if s.pc.Stored? {
      RecoverableOpen(cf, s, s.pc.start, s.len + 1);
    } else {
      RecoverableOpen(cf, s, s.len, s.len);
    }
  }

  lemma SafeCommit(cf: Config, s: State)
    requires InvCommit(cf, s)
    ensures Safe(cf, s)
  {
    if s.pc.CommitStored? {
      RecoverableSealing(cf, s, s.len);
    } else if s.pc.CommitFlushed? {
      RecoverableSealing(cf, s, s.len - 1);
    } else {
      RecoverableOpen(cf, s, s.len, s.len);
    }
  }

  lemma SafeCommitted(cf: Config, s: State)
    requires InvCommitted(cf, s)
    ensures Safe(cf, s)
  {
    if s.pc.Clearing? {
      RecoverableClearing(cf, s);
    } else {
      CommittedDurable(s.vlog, s.dlog, s.len, s.tail, |s.vmem|);
      RecoverableCommitted(cf, s);
    }
  }

  lemma SafeRecoverCommit(cf: Config, s: State)
    requires InvRecoverCommit(cf, s)
    ensures Safe(cf, s)
  {
    if s.pc.TailPending? || s.pc.TailStored? || s.pc.TailDurable? {
      ScanIs(s.dlog, 0);
      RecoverableEmpty(cf, s);
    } else if s.pc.Clearing? {
      RecoverableClearing(cf, s);
    } else {
      CommittedDurable(s.vlog, s.dlog, s.len, s.tail, |s.vmem|);
      RecoverableCommitted(cf, s);
    }
  }

  lemma SafeRecoverUndo(cf: Config, s: State)
    requires InvRecoverUndo(cf, s)
    ensures Safe(cf, s)
  {
    if s.pc.Clearing? {
      RecoverableUndone(cf, s, s.pc.i);
    } else if !s.pc.Down? {
      RecoverableUndoing(cf, s);
    }
  }

  lemma AlwaysSafe(cf: Config, s: State)
    requires Inv(cf, s)
    ensures Safe(cf, s)
  {
    if InvBatch(cf, s) {
      SafeBatch(cf, s);
    } else if InvCommit(cf, s) {
      SafeCommit(cf, s);
    } else if InvCommitted(cf, s) {
      SafeCommitted(cf, s);
    } else if InvRecoverCommit(cf, s) {
      SafeRecoverCommit(cf, s);
    } else {
      SafeRecoverUndo(cf, s);
    }
  }

  lemma KeepsCrash(cf: Config, s: State)
    requires Safe(cf, s) && CleanCrash(s)
    ensures InvDown(cf, CrashState(s))
  {
  }

  // ---- Every step keeps the invariant --------------------------------------------------------------

  lemma KeepsEnv(cf: Config, s: State, st: EnvStep)
    requires Inv(cf, s) && Sized(s) && CanEnv(s, st)
    ensures Inv(cf, DoEnv(s, st))
  {
    match st
    case Evict(bytes, entries, t) => KeepsEvict(cf, s, bytes, entries, t);
    case EvictHalf(k, head) => KeepsEvictHalf(cf, s, k, head);
    case SyncDisk => KeepsSyncDisk(cf, s);
    case SyncFile(rows) => KeepsSyncFile(cf, s, rows);
  }

  lemma KeepsConsume(cf: Config, s: State, st: ConsumeStep)
    requires InvBatch(cf, s) && CanConsume(cf, s, st)
    ensures InvBatch(cf, DoConsume(cf, s, st))
  {
    match st
    case Begin => KeepsBegin(cf, s);
    case MapFresh => KeepsMapFresh(cf, s);
    case WriteFresh => KeepsWriteFresh(cf, s);
    case WriteSkipped => KeepsWriteSkipped(cf, s);
    case StartRecord => KeepsStartRecord(cf, s);
    case CopyBlock(upto) => KeepsCopyBlock(cf, s, upto);
    case StoreAddr => KeepsStoreAddr(cf, s);
    case FlushEntry => KeepsFlushEntry(cf, s);
    case SkipLogged => KeepsSkipLogged(cf, s);
    case DrainRecord => KeepsDrainRecord(cf, s);
    case WriteLogged => KeepsWriteLogged(cf, s);
    case EndCommand => KeepsEndCommand(cf, s);
  }

  lemma KeepsCommit(cf: Config, s: State, st: CommitStep)
    requires InvBatch(cf, s) || InvCommit(cf, s)
    requires CanCommit(s, st)
    ensures InvCommit(cf, DoCommit(s, st)) || InvCommitted(cf, DoCommit(s, st))
  {
    match st
    case StartCommit => KeepsStartCommit(cf, s);
    case WriteRow => KeepsWriteRow(cf, s);
    case SyncTable => KeepsSyncTable(cf, s);
    case FlushLine(line) => KeepsFlushLine(cf, s, line);
    case DrainData => KeepsDrainData(cf, s);
    case StoreCommit => KeepsStoreCommit(cf, s);
    case FlushCommit => KeepsFlushCommit(cf, s);
    case DrainCommit => KeepsDrainCommit(cf, s);
  }

  lemma KeepsFinish(cf: Config, s: State, st: FinishStep)
    requires InvCommitted(cf, s) || InvRecoverCommit(cf, s) || InvRecoverUndo(cf, s)
    requires CanFinish(s, st) && 1 < |s.vlog|
    ensures Inv(cf, DoFinish(s, st))
  {
    match st
    case StoreTail => KeepsStoreTail(cf, s);
    case DrainTail => KeepsDrainTail(cf, s);
    case Publish => KeepsPublish(cf, s);
    case Rename => KeepsRename(cf, s);
    case SyncRename => KeepsSyncRename(cf, s);
    case ClearEntry =>
      if s.pc.why == RecoverUndo {
        KeepsClearUndone(cf, s);
      } else {
        KeepsClearCommitted(cf, s);
      }
    case EndClear => KeepsEndClear(cf, s);
  }

  lemma KeepsRecover(cf: Config, s: State, st: RecoverStep)
    requires InvRecoverUndo(cf, s) && CanRecover(s, st)
    ensures InvRecoverCommit(cf, DoRecover(s, st)) || InvRecoverUndo(cf, DoRecover(s, st))
  {
    match st
    case ScanLog => KeepsScanLog(cf, s);
    case Unlink => KeepsUnlink(cf, s);
    case SyncUnlink => KeepsSyncUnlink(cf, s);
    case Undo => KeepsUndo(cf, s);
    case DrainUndo => KeepsDrainUndo(cf, s);
  }

  lemma ConsumePhase(cf: Config, s: State, st: ConsumeStep)
    requires Inv(cf, s) && CanConsume(cf, s, st)
    ensures InvBatch(cf, s)
  {
  }

  lemma CommitPhase(cf: Config, s: State, st: CommitStep)
    requires Inv(cf, s) && CanCommit(s, st)
    ensures InvBatch(cf, s) || InvCommit(cf, s)
  {
  }

  lemma FinishPhase(cf: Config, s: State, st: FinishStep)
    requires Inv(cf, s) && CanFinish(s, st)
    ensures InvCommitted(cf, s) || InvRecoverCommit(cf, s) || InvRecoverUndo(cf, s)
  {
  }

  lemma RecoverPhase(cf: Config, s: State, st: RecoverStep)
    requires Inv(cf, s) && CanRecover(s, st)
    ensures InvRecoverUndo(cf, s)
  {
  }

  lemma StepConsume(cf: Config, s: State, st: ConsumeStep)
    requires Inv(cf, s) && Sized(s) && CanConsume(cf, s, st)
    ensures Inv(cf, DoConsume(cf, s, st))
  {
    ConsumePhase(cf, s, st);
    KeepsConsume(cf, s, st);
  }

  lemma StepCommit(cf: Config, s: State, st: CommitStep)
    requires Inv(cf, s) && Sized(s) && CanCommit(s, st)
    ensures Inv(cf, DoCommit(s, st))
  {
    CommitPhase(cf, s, st);
    KeepsCommit(cf, s, st);
  }

  lemma StepFinish(cf: Config, s: State, st: FinishStep)
    requires Inv(cf, s) && Sized(s) && CanFinish(s, st)
    ensures Inv(cf, DoFinish(s, st))
  {
    FinishPhase(cf, s, st);
    KeepsFinish(cf, s, st);
  }

  lemma StepRecover(cf: Config, s: State, st: RecoverStep)
    requires Inv(cf, s) && Sized(s) && CanRecover(s, st)
    ensures Inv(cf, DoRecover(s, st))
  {
    RecoverPhase(cf, s, st);
    KeepsRecover(cf, s, st);
  }

  lemma StepCrash(cf: Config, s: State)
    requires Inv(cf, s) && CleanCrash(s)
    ensures Inv(cf, CrashState(s))
  {
    AlwaysSafe(cf, s);
    KeepsCrash(cf, s);
  }

  /** The invariant is inductive. */
  lemma Keeps(cf: Config, s: State, st: Step)
    requires Inv(cf, s) && Enabled(cf, s, st)
    ensures Inv(cf, After(cf, s, st))
  {
    match st
    case Env(e) => KeepsEnv(cf, s, e);
    case Crash => StepCrash(cf, s);
    case Produce(c) => KeepsProduce(cf, s, c);
    case Consume(c) => StepConsume(cf, s, c);
    case Commit(c) => StepCommit(cf, s, c);
    case Finish(f) => StepFinish(cf, s, f);
    case Recover(r) => StepRecover(cf, s, r);
  }

  lemma InitialInv(cf: Config, s: State)
    requires Initial(cf, s)
    ensures Inv(cf, s)
  {
    assert s.cmds[..0] == [];
    SettledIsReady(cf, s);
  }

  lemma {:induction false} RunInv(cf: Config, s: State, steps: seq<Step>)
    requires Inv(cf, s) && IsRun(cf, s, steps)
    ensures Inv(cf, End(cf, s, steps))
    decreases |steps|
  {
    if steps != [] {
      Keeps(cf, s, steps[0]);
      RunInv(cf, After(cf, s, steps[0]), steps[1..]);
    }
  }

  // ---- Theorems ------------------------------------------------------------------------------------

  /** The recovered view is the reference semantics of the commands the memory includes. */
  lemma RecoveredView(cf: Config, s: State)
    requires Recoverable(cf, s)
    ensures CanRollBack(s) && RecView(s) == Fold(cf, s.cmds[..Included(s)])
  {
    if !Accepts(s.dlog) {
      var n := Scan(s.dlog);
      var es := s.dlog[..n];
      var v := Fold(cf, s.cmds[..Included(s)]);
      forall a | a in v
        ensures RecMem(s)[a] == v[a]
      {
        assert forall i :: 0 <= i < n ==> es[i] == s.dlog[i];
        assert Held(es, n, a) == Held(s.dlog, n, a);
        forall i | 0 <= i < n && First(es, i, a)
          ensures es[i].blk[a - es[i].addr] == v[a]
        {
          assert First(s.dlog, i, a);
        }
        RollbackRestores(s.dmem, es, a, v[a]);
      }
      assert RecView(s).Keys == v.Keys;
    }
  }

  /**
   * Exactly-once durability. After any run, with any number of clean crashes, a further crash at
   * any point - clean or not - leaves a memory that recovery turns into the effect of exactly the
   * commands before the recovered tail, so that replaying from the tail executes every durably
   * committed command once. The one exception is a crash in the window in which recovery has
   * cleared a commit record whose tail is not yet durable: there the memory includes the batch and
   * the recovered tail is the one before it, so that replay executes the batch again.
   */
  lemma ExactlyOnce(cf: Config, s0: State, steps: seq<Step>)
    requires Initial(cf, s0) && IsRun(cf, s0, steps)
    ensures var s := End(cf, s0, steps);
      && CanRollBack(s) && s.ptail <= RecTail(s) <= |s.cmds| && s.tail <= |s.cmds|
      && (!TailLost(s) ==> RecView(s) == Fold(cf, s.cmds[..RecTail(s)])
                           && Replay(cf, RecView(s), s.cmds[RecTail(s)..]) == Fold(cf, s.cmds))
      && (TailLost(s) ==> RecView(s) == Fold(cf, s.cmds[..s.tail]) && RecTail(s) == s.dtail < s.tail)
  {
    InitialInv(cf, s0);
    RunInv(cf, s0, steps);
    var s := End(cf, s0, steps);
    AlwaysSafe(cf, s);
    RecoveredView(cf, s);
    if !TailLost(s) {
      ReplayFrom(cf, s.cmds, RecTail(s));
    }
  }

  /** A run can be cut anywhere: the theorems hold at every point of it. */
  lemma EveryPoint(cf: Config, s: State, steps: seq<Step>, k: nat)
    requires Inv(cf, s) && IsRun(cf, s, steps) && k <= |steps|
    ensures IsRun(cf, s, steps[..k]) && Safe(cf, End(cf, s, steps[..k]))
  {
    RunPrefix(cf, s, steps, k);
    RunInv(cf, s, steps[..k]);
    AlwaysSafe(cf, End(cf, s, steps[..k]));
  }

  lemma {:induction false} RunPrefix(cf: Config, s: State, steps: seq<Step>, k: nat)
    requires IsRun(cf, s, steps) && k <= |steps|
    ensures IsRun(cf, s, steps[..k])
    decreases k
  {
    if k > 0 {
      RunPrefix(cf, After(cf, s, steps[0]), steps[1..], k - 1);
      assert steps[..k][1..] == steps[1..][..k - 1];
    }
  }

  /**
   * Batch atomicity: a crash yields the state before the batch, with the tail before it, or the
   * state after it, with the tail after it - except in the tail window, where the tail is old.
   */
  lemma BatchAtomic(cf: Config, s0: State, steps: seq<Step>)
    requires Initial(cf, s0) && IsRun(cf, s0, steps)
    ensures var s := End(cf, s0, steps);
      CanRollBack(s) && s.base <= s.tail <= |s.cmds| &&
      ((RecView(s) == Fold(cf, s.cmds[..s.base]) && RecTail(s) == s.base) ||
       (RecView(s) == Fold(cf, s.cmds[..s.tail]) && RecTail(s) == if TailLost(s) then s.base else s.tail))
  {
    InitialInv(cf, s0);
    RunInv(cf, s0, steps);
    AlwaysSafe(cf, End(cf, s0, steps));
    RecoveredView(cf, End(cf, s0, steps));
  }

  /** Normal operation, as opposed to recovery. */
  predicate Operating(s: State) {
    && !s.pc.Down? && !s.pc.Unlinking? && !s.pc.Unlinked? && !s.pc.Undoing?
    && s.pc !in {TailPending(true), TailStored(true), TailDurable(true), Renaming(true), Renamed(true)}
    && (s.pc.Clearing? ==> s.pc.why == Cleanup)
  }

  /** `t` is the table before the batch: it lacks exactly the memory that the batch has mapped. */
  ghost predicate TableBefore(t: seq<Region>, regions: seq<Region>, bytes: set<nat>) {
    t <= regions && forall a: nat :: Covered(t, a) <==> Covered(regions, a) && a !in bytes
  }

  lemma OpenTableBefore(t: seq<Region>, regions: seq<Region>, bytes: set<nat>, modified: bool, v: View, size: nat)
    requires OpenTable(t, regions, bytes, modified, v, size)
    ensures TableBefore(t, regions, bytes)
  {
    forall a: nat | Covered(regions, a)
      ensures Covered(t, a) <==> a !in bytes
    {
      var i :| 0 <= i < |regions| && Within(regions[i], a);
      if i < |t| {
        assert Within(t[i], a);
        assert a in v;
      } else if Covered(t, a) {
        assert a in v;
      }
    }
    forall a: nat | Covered(t, a)
      ensures Covered(regions, a)
    {
      var i :| 0 <= i < |t| && Within(t[i], a);
      assert Within(regions[i], a);
    }
  }

  /** Recovery that accepts a commit record. */
  predicate RollsForward(pc: PC) {
    || pc in {TailPending(true), TailStored(true), TailDurable(true), Renaming(true), Renamed(true)}
    || (pc.Clearing? && pc.why == RecoverCommit)
  }

  /** Recovery that rolls back. */
  predicate RollsBack(pc: PC) {
    pc.Unlinking? || pc.Unlinked? || pc.Undoing? || (pc.Clearing? && pc.why == RecoverUndo)
  }

  /** The table that recovery has loaded, or is about to load from the files. */
  function Loaded(s: State): seq<Region> {
    match s.pc
    case Down => RecTable(s)
    case Renaming(_) => RenameNew(s.vdisk).table
    case Renamed(_) => s.vdisk.table
    case Unlinking => s.vdisk.table
    case Unlinked => s.vdisk.table
    case _ => s.regions
  }

  /** Which table recovery from a crash in `s` loads. */
  ghost predicate Decided(s: State) {
    && (s.pc.Ready? || s.pc.Running? ==> s.vdisk.newTable == None && s.ddisk.newTable == None)
    && (Operating(s) && (Accepts(s.dlog) || s.pc.Clearing?) ==> RecTable(s) == s.regions)
    && (Operating(s) && !Accepts(s.dlog) && !s.pc.Clearing? ==>
          TableBefore(RecTable(s), s.regions, s.freshBytes) && (!s.modified ==> RecTable(s) == s.regions))
    && (!Operating(s) ==> RecTable(s) == Loaded(s))
  }

  lemma TableOfBatch(cf: Config, s: State)
    requires InvBatch(cf, s)
    ensures Decided(s)
  {
    OpenTableBefore(s.vdisk.table, s.regions, s.freshBytes, s.modified, BaseView(cf, s), |s.vmem|);
    if s.pc.Recording? {
      ScanOpen(s.vlog, s.dlog, s.pc.start, s.len, |s.vmem|);
    } else if s.pc.Stored? {
      ScanOpen(s.vlog, s.dlog, s.pc.start, s.len + 1, |s.vmem|);
    } else {
      ScanOpen(s.vlog, s.dlog, s.len, s.len, |s.vmem|);
    }
  }

  lemma TableOfCommit(cf: Config, s: State)
    requires InvCommit(cf, s)
    ensures Decided(s)
  {
    OpenTableBefore(s.vdisk.table, s.regions, s.freshBytes, s.modified, BaseView(cf, s), |s.vmem|);
    if !s.pc.CommitStored? && !s.pc.CommitFlushed? {
      ScanOpen(s.vlog, s.dlog, s.len, s.len, |s.vmem|);
    }
  }

  lemma TableOfCommitted(cf: Config, s: State)
    requires InvCommitted(cf, s)
    ensures Decided(s)
  {
    if !s.pc.Clearing? {
      CommittedDurable(s.vlog, s.dlog, s.len, s.tail, |s.vmem|);
      ScanCommitted(s.dlog, s.len, s.tail, |s.vmem|);
    }
  }

  lemma TableOfRollForward(cf: Config, s: State)
    requires InvRecoverCommit(cf, s)
    ensures Decided(s)
  {
    if s.pc == Renaming(true) || s.pc == Renamed(true) {
      CommittedDurable(s.vlog, s.dlog, s.len, s.tail, |s.vmem|);
      ScanCommitted(s.dlog, s.len, s.tail, |s.vmem|);
    }
  }

  lemma TableOfRollBack(cf: Config, s: State)
    requires InvRecoverUndo(cf, s)
    ensures Decided(s)
  {
    if s.pc.Clearing? {
      RecoverableUndone(cf, s, s.pc.i);
    } else if !s.pc.Down? {
      ScanIs(s.dlog, s.len);
    }
  }

  lemma TableOf(cf: Config, s: State)
    requires Inv(cf, s)
    ensures Decided(s)
  {
    if InvBatch(cf, s) {
      TableOfBatch(cf, s);
    } else if InvCommit(cf, s) {
      TableOfCommit(cf, s);
    } else if InvCommitted(cf, s) {
      TableOfCommitted(cf, s);
    } else if InvRecoverCommit(cf, s) {
      TableOfRollForward(cf, s);
    } else {
      TableOfRollBack(cf, s);
    }
  }

  lemma BranchForward(cf: Config, s: State)
    requires Inv(cf, s) && RollsForward(s.pc)
    ensures Included(s) == s.tail
  {
    assert InvRecoverCommit(cf, s);
    ForwardIncludes(cf, s);
  }

  lemma ForwardIncludes(cf: Config, s: State)
    requires InvRecoverCommit(cf, s)
    ensures Included(s) == s.tail
  {
    if s.pc == Renaming(true) || s.pc == Renamed(true) {
      CommittedDurable(s.vlog, s.dlog, s.len, s.tail, |s.vmem|);
      ScanCommitted(s.dlog, s.len, s.tail, |s.vmem|);
    } else if s.pc.Clearing? {
      RecoverableClearing(cf, s);
    } else {
      ScanIs(s.dlog, 0);
    }
  }

  lemma BranchBack(cf: Config, s: State)
    requires Inv(cf, s) && RollsBack(s.pc)
    ensures Included(s) == s.base
  {
    assert InvRecoverUndo(cf, s);
    if s.pc.Clearing? {
      RecoverableUndone(cf, s, s.pc.i);
    } else {
      RecoverableUndoing(cf, s);
    }
  }

  /**
   * The region table and the undo log decide together, at every crash point. In normal operation
   * recovery would load the batch's complete table once the commit record is durable, also while
   * the installed table's log is being cleared, and the table before the batch otherwise. During
   * recovery, another recovery would load the table that this one loads. Whichever it is covers
   * exactly the memory that the recovered commands manage, and no new table exists when a batch
   * starts.
   */
  lemma TableDecides(cf: Config, s0: State, steps: seq<Step>)
    requires Initial(cf, s0) && IsRun(cf, s0, steps)
    ensures var s := End(cf, s0, steps);
      var k := if TailLost(s) then s.tail else RecTail(s);
      && k <= |s.cmds| && (forall a: nat :: a < |s.dmem| && Covered(RecTable(s), a) <==> a in Fold(cf, s.cmds[..k]))
      && Decided(s) && (RollsForward(s.pc) ==> k == s.tail) && (RollsBack(s.pc) ==> k == s.base)
  {
    InitialInv(cf, s0);
    RunInv(cf, s0, steps);
    var s := End(cf, s0, steps);
    AlwaysSafe(cf, s);
    RecoveredView(cf, s);
    TableOf(cf, s);
    if RollsForward(s.pc) {
      BranchForward(cf, s);
    } else if RollsBack(s.pc) {
      BranchBack(cf, s);
    }
    assert RecView(s).Keys == Fold(cf, s.cmds[..Included(s)]).Keys;
  }

  /** A crash decides the table: no step of recovery, no eviction and no further crash changes it. */
  lemma TableStays(cf: Config, s: State, st: Step)
    requires Inv(cf, s) && !Operating(s) && Enabled(cf, s, st)
    ensures RecTable(After(cf, s, st)) == RecTable(s)
  {
    Keeps(cf, s, st);
    TableOf(cf, s);
    TableOf(cf, After(cf, s, st));
    RecoveryStarts(cf, s);
    StepLoads(cf, s, st);
    LoadsSame(s, After(cf, s, st));
  }

  /** What a step of recovery does to the loaded table: nothing, also when it is the last one. */
  ghost predicate LoadsOn(s: State, s': State) {
    if s'.pc == Ready then s'.regions == Loaded(s) && !s'.modified else !Operating(s') && Loaded(s') == Loaded(s)
  }

  lemma LoadsSame(s: State, s': State)
    requires Decided(s) && Decided(s') && !Operating(s) && LoadsOn(s, s')
    ensures RecTable(s') == RecTable(s)
  {
  }

  /** The parts of the invariant that loading the table depends on. */
  ghost predicate Recovering(s: State) {
    !Operating(s) && !s.modified && (s.pc == Down ==> s.vdisk == s.ddisk && s.vlog == s.dlog)
  }

  lemma RecoveryStarts(cf: Config, s: State)
    requires Inv(cf, s) && !Operating(s)
    ensures Recovering(s)
  {
  }

  lemma StepLoads(cf: Config, s: State, st: Step)
    requires Recovering(s) && Decided(s) && Enabled(cf, s, st)
    ensures LoadsOn(s, After(cf, s, st))
  {
    match st
    case Env(e) => EnvLoads(s, e);
    case Crash =>
    case Produce(_) =>
    case Finish(f) => FinishLoads(s, f);
    case Recover(r) => RecoverLoads(s, r);
  }

  lemma EnvLoads(s: State, st: EnvStep)
    requires Sized(s) && Recovering(s) && CanEnv(s, st)
    ensures LoadsOn(s, DoEnv(s, st))
  {
    if s.pc == Down && st.SyncFile? {
      PersistSteps.SyncFileSame(s, st.rows);
    }
  }

  lemma FinishLoads(s: State, st: FinishStep)
    requires Sized(s) && Recovering(s) && CanFinish(s, st)
    ensures LoadsOn(s, DoFinish(s, st))
  {
  }

  lemma RecoverLoads(s: State, st: RecoverStep)
    requires Sized(s) && Recovering(s) && CanRecover(s, st)
    ensures LoadsOn(s, DoRecover(s, st))
  {
    if st == ScanLog {
      ScanLoads(s);
    }
  }

  lemma ScanLoads(s: State)
    requires Sized(s) && Recovering(s) && s.pc == Down
    ensures LoadsOn(s, DoRecover(s, ScanLog))
  {
  }
}
