/**
 * Recovery as a run of its own steps, from what any crash leaves - also a crash that leaves stale
 * entries in the undo log - to the state in which the background goes on.
 */
module Recovery {
  import opened Bytes
  import opened Options
  import opened UndoEntries
  import opened Application
  import opened Protocol
  import opened ProtocolInvariant
  import BatchSteps
  import opened CommitSteps
  import opened Durability
  import opened Runs

  /** undo_log_clear: the entries from `i` up to `n` are zeroed. */
  function Cleared(log: seq<Entry>, i: nat, n: nat): (r: seq<Entry>)
    requires i <= n <= |log|
    ensures |r| == |log|
    ensures forall k :: 0 <= k < |log| ==> r[k] == if i <= k < n then NullEntry else log[k]
  {
    seq(|log|, k requires 0 <= k < |log| => if i <= k < n then NullEntry else log[k])
  }

  /** The steps of recovery, as opposed to those of other processes and of the hardware. */
  predicate RecoveryOnly(steps: seq<Step>) {
    forall i :: 0 <= i < |steps| ==> steps[i].Recover? || steps[i].Finish?
  }

  /** Where recovery from a crash in `s` ends. */
  function Recovered(s: State): State
    requires CanRollBack(s)
  {
    var log, disk, tail := Cleared(s.dlog, 0, Scan(s.dlog)), Disk(RecTable(s), None), RecTail(s);
    s.(vmem := RecMem(s), dmem := RecMem(s), mflush := {}, vlog := log, dlog := log, lflush := {},
       vtail := tail, dtail := tail, tflush := false, vdisk := disk, ddisk := disk,
       len := 0, freshBytes := {}, regions := RecTable(s), modified := false,
       ptail := tail, tail := tail, base := tail, pc := Ready)
  }

  // ---- Clearing ------------------------------------------------------------------------------------

  /** Every remaining entry is zeroed, but not yet drained. */
  function ClearedState(s: State): State
    requires Sized(s) && s.pc.Clearing? && s.pc.i <= s.len <= |s.vlog|
  {
    s.(vlog := Cleared(s.vlog, s.pc.i, s.len), lflush := s.lflush + Indices(s.pc.i, s.len - s.pc.i),
       pc := Clearing(s.len, s.pc.why))
  }

  lemma {:induction false} ClearLeads(cf: Config, s: State) returns (steps: seq<Step>)
    requires Sized(s) && s.pc.Clearing? && s.pc.i <= s.len <= |s.vlog|
    ensures Leads(cf, s, steps, ClearedState(s)) && RecoveryOnly(steps)
    decreases s.len - s.pc.i
  {
    if s.pc.i == s.len {
      steps := [];
      assert Cleared(s.vlog, s.len, s.len) == s.vlog && s.lflush + {} == s.lflush;
    } else {
      var st := Finish(ClearEntry);
      var s' := After(cf, s, st);
      LeadsStep(cf, s, st);
      var rest := ClearLeads(cf, s');
      assert Cleared(s'.vlog, s'.pc.i, s.len) == Cleared(s.vlog, s.pc.i, s.len);
      assert s'.lflush + Indices(s'.pc.i, s.len - s'.pc.i) == s.lflush + Indices(s.pc.i, s.len - s.pc.i);
      LeadsBoth(cf, s, [st], s', rest, ClearedState(s));
      steps := [st] + rest;
    }
  }

  /** The drain makes the zeros durable. */
  lemma ClearedDurable(log: seq<Entry>, n: nat)
    requires n <= |log|
    ensures Mix(log, Cleared(log, 0, n), {} + Indices(0, n)) == Cleared(log, 0, n)
  {
  }

  /** Nothing is pending: what loads see is durable. */
  ghost predicate Quiet(s: State) {
    s.vmem == s.dmem && s.vlog == s.dlog && s.mflush == {} && s.lflush == {} && !s.tflush
  }

  /** undo_log_clear is done. */
  function ClearDone(s: State): State
    requires s.pc.Clearing? && s.len <= |s.vlog|
  {
    var log := Cleared(s.vlog, 0, s.len);
    var t := s.(vlog := log, dlog := log, len := 0, freshBytes := {}, modified := false);
    match s.pc.why
    case Cleanup => t.(base := s.tail, pc := Ready)
    case RecoverCommit => t.(pc := TailPending(true))
    case RecoverUndo => t.(pc := Ready)
  }

  lemma ClearAllLeads(cf: Config, s: State) returns (steps: seq<Step>)
    requires Sized(s) && Quiet(s) && s.pc.Clearing? && s.pc.i == 0 && s.len <= |s.vlog|
    ensures Leads(cf, s, steps, ClearDone(s)) && RecoveryOnly(steps)
  {
    var a := ClearLeads(cf, s);
    var s1 := ClearedState(s);
    ClearedDurable(s.vlog, s.len);
    MixSame(s.dmem, OnLines(|s.vmem|, {}));
    LeadsOn(cf, s, a, s1, Finish(EndClear));
    steps := a + [Finish(EndClear)];
  }

  // ---- The commit branch -----------------------------------------------------------------------------

  /** The scan finds a commit record: up to the clear. */
  lemma AcceptLeads(cf: Config, s: State) returns (steps: seq<Step>)
    requires Sized(s) && Accepts(s.dlog)
    ensures RecoveryOnly(steps)
    ensures Leads(cf, CrashState(s), steps,
      CrashState(s).(len := Scan(s.dlog), vdisk := RenameNew(s.ddisk), ddisk := RenameNew(s.ddisk),
                     regions := RecTable(s), pc := Clearing(0, RecoverCommit)))
  {
    var c := CrashState(s);
    var scan, rename, sync := Recover(ScanLog), Finish(Rename), Finish(SyncRename);
    LeadsStep(cf, c, scan);
    var c1 := After(cf, c, scan);
    LeadsOn(cf, c, [scan], c1, rename);
    LeadsOn(cf, c, [scan] + [rename], After(cf, c1, rename), sync);
    steps := [scan] + [rename] + [sync];
  }

  /** From the clear on: the recovered tail becomes durable. */
  lemma TailLeads(cf: Config, s: State) returns (steps: seq<Step>)
    requires Sized(s) && s.pc == TailPending(true) && s.vmem == s.dmem && s.vlog == s.dlog
    ensures RecoveryOnly(steps)
    ensures Leads(cf, s, steps,
      s.(mflush := {}, lflush := {}, vtail := s.tail, dtail := s.tail, tflush := false, ptail := s.tail, base := s.tail,
         pc := Ready))
  {
    var s1 := After(cf, s, Finish(StoreTail));
    LeadsStep(cf, s, Finish(StoreTail));
    MixSame(s.dmem, OnLines(|s.vmem|, s.mflush));
    MixSame(s.dlog, s.lflush);
    var s2 := After(cf, s1, Finish(DrainTail));
    LeadsOn(cf, s, [Finish(StoreTail)], s1, Finish(DrainTail));
    steps := [Finish(StoreTail)] + [Finish(DrainTail)];
    LeadsOn(cf, s, steps, s2, Finish(Publish));
    steps := steps + [Finish(Publish)];
  }

  lemma CommitBranch(cf: Config, s: State) returns (steps: seq<Step>)
    requires Sized(s) && Accepts(s.dlog)
    ensures Leads(cf, CrashState(s), steps, Recovered(s)) && RecoveryOnly(steps)
  {
    var c := CrashState(s);
    var a := AcceptLeads(cf, s);
    var s1 := c.(len := Scan(s.dlog), vdisk := RenameNew(s.ddisk), ddisk := RenameNew(s.ddisk),
                 regions := RecTable(s), pc := Clearing(0, RecoverCommit));
    var b := ClearAllLeads(cf, s1);
    LeadsBoth(cf, c, a, s1, b, ClearDone(s1));
    var d := TailLeads(cf, ClearDone(s1));
    LeadsBoth(cf, c, a + b, ClearDone(s1), d, Recovered(s));
    steps := a + b + d;
  }

  // ---- The rollback branch ---------------------------------------------------------------------------

  function LinesOf(log: seq<Entry>, n: nat): set<nat>
    requires n <= |log|
  {
    set i | 0 <= i < n :: LineOf(log[i].addr)
  }

  /** Every entry of the log can be undone: it saves a block, in a region of the loaded table. */
  ghost predicate CanUndo(log: seq<Entry>, n: nat, t: seq<Region>, size: nat) {
    PlainUpTo(log, 0, n, size) && ManagedEntries(log, n, t)
  }

  /** The rest of the rollback loop. */
  function UndoneState(s: State): State
    requires s.pc.Undoing? && PlainUpTo(s.vlog, 0, s.pc.i, |s.vmem|)
  {
    s.(vmem := Rollback(s.vmem, s.vlog[..s.pc.i]), mflush := s.mflush + LinesOf(s.vlog, s.pc.i), pc := Undoing(0))
  }

  lemma {:induction false} UndoLeads(cf: Config, s: State) returns (steps: seq<Step>)
    requires Sized(s) && s.pc.Undoing? && CanUndo(s.vlog, s.pc.i, s.regions, |s.vmem|)
    ensures Leads(cf, s, steps, UndoneState(s)) && RecoveryOnly(steps)
    decreases s.pc.i
  {
    var i := s.pc.i;
    if i == 0 {
      steps := [];
      assert LinesOf(s.vlog, 0) == {};
    } else {
      var st := Recover(Undo);
      var s' := After(cf, s, st);
      LeadsStep(cf, s, st);
      var rest := UndoLeads(cf, s');
      UndoneNext(s);
      LeadsBoth(cf, s, [st], s', rest, UndoneState(s));
      steps := [st] + rest;
    }
  }

  lemma UndoneNext(s: State)
    requires Sized(s) && s.pc.Undoing? && 0 < s.pc.i && CanRecover(s, Undo) && PlainUpTo(s.vlog, 0, s.pc.i, |s.vmem|)
    ensures UndoneState(DoRecover(s, Undo)) == UndoneState(s)
  {
    var i := s.pc.i;
    assert s.vlog[..i][..i - 1] == s.vlog[..i - 1];
    assert LinesOf(s.vlog, i) == LinesOf(s.vlog, i - 1) + {LineOf(s.vlog[i - 1].addr)};
  }

  /** Draining the flushed lines makes the rolled back memory durable. */
  lemma UndoneDurable(mem: seq<Byte>, log: seq<Entry>, n: nat)
    requires PlainUpTo(log, 0, n, |mem|)
    ensures var back := Rollback(mem, log[..n]); Mix(mem, back, OnLines(|mem|, LinesOf(log, n))) == back
  {
    var back := Rollback(mem, log[..n]);
    forall a: nat | a < |mem| && back[a] != mem[a]
      ensures LineOf(a) in LinesOf(log, n)
    {
      RollbackByte(mem, log[..n], a);
      var i :| 0 <= i < n && Holds(log[..n][i], a);
      BlockOnOneLine(log[i].addr, a);
    }
  }

  /** The scan finds no commit record: up to the rollback loop. */
  lemma RejectLeads(cf: Config, s: State) returns (steps: seq<Step>)
    requires Sized(s) && !Accepts(s.dlog)
    ensures RecoveryOnly(steps)
    ensures Leads(cf, CrashState(s), steps,
      CrashState(s).(len := Scan(s.dlog), vdisk := Disk(RecTable(s), None), ddisk := Disk(RecTable(s), None),
                     regions := RecTable(s), pc := Undoing(Scan(s.dlog))))
  {
    var c := CrashState(s);
    var scan, unlink, sync := Recover(ScanLog), Recover(Unlink), Recover(SyncUnlink);
    LeadsStep(cf, c, scan);
    var c1 := After(cf, c, scan);
    LeadsOn(cf, c, [scan], c1, unlink);
    LeadsOn(cf, c, [scan] + [unlink], After(cf, c1, unlink), sync);
    steps := [scan] + [unlink] + [sync];
  }

  lemma DrainLeads(cf: Config, s: State)
    requires Sized(s) && s.pc == Undoing(0) && s.vlog == s.dlog && s.vtail == s.dtail
    requires Mix(s.dmem, s.vmem, OnLines(|s.vmem|, s.mflush)) == s.vmem
    ensures Leads(cf, s, [Recover(DrainUndo)],
      s.(dmem := s.vmem, mflush := {}, lflush := {}, tflush := false, pc := Clearing(0, RecoverUndo)))
  {
    MixSame(s.dlog, s.lflush);
    LeadsStep(cf, s, Recover(DrainUndo));
  }

  /** From the scan to the end of the drained rollback. */
  lemma RollbackLeads(cf: Config, s: State) returns (steps: seq<Step>)
    requires Sized(s) && !Accepts(s.dlog) && CanUndo(s.dlog, Scan(s.dlog), RecTable(s), |s.dmem|)
    ensures RecoveryOnly(steps)
    ensures Leads(cf, CrashState(s), steps,
      CrashState(s).(vmem := RecMem(s), dmem := RecMem(s), len := Scan(s.dlog), vdisk := Disk(RecTable(s), None),
                     ddisk := Disk(RecTable(s), None), regions := RecTable(s), pc := Clearing(0, RecoverUndo)))
  {
    var c, n := CrashState(s), Scan(s.dlog);
    var a := RejectLeads(cf, s);
    var s1 := c.(len := n, vdisk := Disk(RecTable(s), None), ddisk := Disk(RecTable(s), None),
                 regions := RecTable(s), pc := Undoing(n));
    var b := UndoLeads(cf, s1);
    LeadsBoth(cf, c, a, s1, b, UndoneState(s1));
    UndoneDurable(s.dmem, s.dlog, n);
    assert {} + LinesOf(s.dlog, n) == LinesOf(s.dlog, n);
    DrainLeads(cf, UndoneState(s1));
    steps := a + b + [Recover(DrainUndo)];
    LeadsBoth(cf, c, a + b, UndoneState(s1), [Recover(DrainUndo)],
              s1.(vmem := RecMem(s), dmem := RecMem(s), pc := Clearing(0, RecoverUndo)));
  }

  lemma RollbackBranch(cf: Config, s: State) returns (steps: seq<Step>)
    requires Sized(s) && !Accepts(s.dlog) && CanUndo(s.dlog, Scan(s.dlog), RecTable(s), |s.dmem|)
    ensures CanRollBack(s) && Leads(cf, CrashState(s), steps, Recovered(s)) && RecoveryOnly(steps)
  {
    var c, n := CrashState(s), Scan(s.dlog);
    var a := RollbackLeads(cf, s);
    var s1 := c.(vmem := RecMem(s), dmem := RecMem(s), len := n, vdisk := Disk(RecTable(s), None),
                 ddisk := Disk(RecTable(s), None), regions := RecTable(s), pc := Clearing(0, RecoverUndo));
    var b := ClearAllLeads(cf, s1);
    LeadsBoth(cf, c, a, s1, b, Recovered(s));
    steps := a + b;
  }

  // ---- Stale entries do not matter to recovery itself --------------------------------------------------

  /** `log` without the entries that survived past the first null one. */
  function Scrubbed(log: seq<Entry>): (r: seq<Entry>)
    ensures |r| == |log|
    ensures forall i :: 0 <= i < |log| ==> r[i] == if i < Scan(log) || IsNull(log[i]) then log[i] else NullEntry
  {
    seq(|log|, i requires 0 <= i < |log| => if i < Scan(log) || IsNull(log[i]) then log[i] else NullEntry)
  }

  lemma ScrubbedScan(log: seq<Entry>)
    ensures Scan(Scrubbed(log)) == Scan(log) && Accepts(Scrubbed(log)) == Accepts(log)
    ensures NullBeyondScan(Scrubbed(log))
    ensures Scrubbed(log) == log <==> NullBeyondScan(log)
  {
    ScanIs(Scrubbed(log), Scan(log));
    if Scrubbed(log) == log {
      forall i | Scan(log) <= i < |log|
        ensures IsNull(log[i])
      {
        assert Scrubbed(log)[i] == log[i];
      }
    }
  }

  /** What is left is the cleared log itself exactly if no entry survived. */
  lemma ScrubbedClears(log: seq<Entry>)
    ensures Cleared(Scrubbed(log), 0, Scan(log)) == Cleared(log, 0, Scan(log)) <==> NullBeyondScan(log)
  {
    var n := Scan(log);
    if Cleared(Scrubbed(log), 0, n) == Cleared(log, 0, n) {
      forall i | n <= i < |log|
        ensures IsNull(log[i])
      {
        assert Cleared(Scrubbed(log), 0, n)[i] == Cleared(log, 0, n)[i];
      }
    }
  }

  /** What a crash in `s` leaves, apart from stale entries. */
  function Restart(s: State): State { CrashState(s).(vlog := Scrubbed(s.dlog), dlog := Scrubbed(s.dlog)) }

  lemma PrefixRollsBack(log: seq<Entry>, log': seq<Entry>, n: nat, mem: seq<Byte>, t: seq<Region>, v: View)
    requires n <= |log| == |log'| && (forall i :: 0 <= i < n ==> log'[i] == log[i])
    requires RollsBackTo(log, n, mem, t, v)
    ensures RollsBackTo(log', n, mem, t, v)
  {
    BatchSteps.SamePrefix(log, log', n, n, mem, mem, v);
  }

  lemma RestartRecoverable(cf: Config, s: State)
    requires Safe(cf, s) && !TailLost(s)
    ensures Recoverable(cf, Restart(s)) && RecTail(Restart(s)) == RecTail(s)
  {
    ScrubbedScan(s.dlog);
    ScrubbedRecovers(s.dlog, s.dmem, s.ddisk, Fold(cf, s.cmds[..Included(s)]));
  }

  /** The part of Recoverable that is about the log, the memory and the table files. */
  ghost predicate RecoversTo(log: seq<Entry>, mem: seq<Byte>, disk: Disk, v: View) {
    && Scan(log) < |log|
    && if Accepts(log)
       then log[Scan(log) - 1].addr == 0 && RollsForwardTo(log, Scan(log), mem, RenameNew(disk).table, v)
       else RollsBackTo(log, Scan(log), mem, disk.table, v)
  }

  lemma ScrubbedRecovers(log: seq<Entry>, mem: seq<Byte>, disk: Disk, v: View)
    requires RecoversTo(log, mem, disk, v)
    ensures RecoversTo(Scrubbed(log), mem, disk, v)
  {
    ScrubbedScan(log);
    if !Accepts(log) {
      PrefixRollsBack(log, Scrubbed(log), Scan(log), mem, disk.table, v);
    }
  }

  /** After any crash outside the tail window, recovery starts from a state that has the invariant. */
  lemma RestartInv(cf: Config, s: State)
    requires Safe(cf, s) && !TailLost(s) && 1 < |s.dlog|
    ensures Inv(cf, Restart(s))
  {
    ScrubbedScan(s.dlog);
    RestartRecoverable(cf, s);
    assert WellSized(Scrubbed(s.dlog));
    assert InvDown(cf, Restart(s));
  }

  // ---- Theorems ----------------------------------------------------------------------------------------

  /** Recovery can go on from the state it ends in exactly if no entry survived past the first null one. */
  lemma RecoveredInvIff(cf: Config, s: State)
    requires Safe(cf, s) && !TailLost(s) && 1 < |s.dlog|
    ensures CanRollBack(s) && (Inv(cf, Recovered(s)) <==> NullBeyondScan(s.dlog))
  {
    RecoveredView(cf, s);
    var r := Recovered(s);
    if NullBeyondScan(s.dlog) {
      assert Settled(cf, r) && Emptied(r);
      SettledIsReady(cf, r);
    }
    if Inv(cf, r) {
      forall i | Scan(s.dlog) <= i < |s.dlog|
        ensures IsNull(s.dlog[i])
      {
        assert r.vlog[i] == s.dlog[i];
      }
    }
  }

  /** The assertions of recovery hold: it accepts the log, or its table manages every scanned entry. */
  ghost predicate Manageable(s: State) {
    Accepts(s.dlog) || ManagedEntries(s.dlog, Scan(s.dlog), RecTable(s))
  }

  /** Recovery that rolls back entries of `log`, of which entry `j` is outside the table `t`. */
  ghost predicate Doomed(m: State, j: nat, log: seq<Entry>, t: seq<Region>) {
    && m.vlog == log && j < Scan(log) && !Accepts(log) && !Covered(t, log[j].addr)
    && match m.pc
       case Down => m.dlog == log && m.vdisk.table == t
       case Unlinking => m.vdisk.table == t && m.len == Scan(log)
       case Unlinked => m.vdisk.table == t && m.len == Scan(log)
       case Undoing(i) => m.regions == t && j < i
       case _ => false
  }

  lemma DoomedStep(cf: Config, m: State, j: nat, log: seq<Entry>, t: seq<Region>, st: Step)
    requires Doomed(m, j, log, t) && Enabled(cf, m, st) && (st.Recover? || st.Finish?)
    ensures Doomed(After(cf, m, st), j, log, t)
  {
    assert st.Recover?;
    DoomedRecover(m, j, log, t, st.recover);
  }

  lemma DoomedRecover(m: State, j: nat, log: seq<Entry>, t: seq<Region>, st: RecoverStep)
    requires Sized(m) && Doomed(m, j, log, t) && CanRecover(m, st)
    ensures Doomed(DoRecover(m, st), j, log, t)
  {
    match st
    case ScanLog =>
    case Unlink =>
    case SyncUnlink =>
    case Undo =>
  }

  lemma {:induction false} DoomedRun(cf: Config, m: State, j: nat, log: seq<Entry>, t: seq<Region>, rec: seq<Step>)
    requires Doomed(m, j, log, t) && IsRun(cf, m, rec) && RecoveryOnly(rec)
    ensures End(cf, m, rec).pc != Ready
    decreases |rec|
  {
    if rec != [] {
      DoomedStep(cf, m, j, log, t, rec[0]);
      DoomedRun(cf, After(cf, m, rec[0]), j, log, t, rec[1..]);
    }
  }

  /** With an entry outside the table, no run of recovery's steps gets to its end. */
  lemma NeverReady(cf: Config, s: State, rec: seq<Step>, e: State)
    requires Sized(s) && !Manageable(s) && Leads(cf, CrashState(s), rec, e) && RecoveryOnly(rec)
    ensures e.pc != Ready
  {
    var j :| 0 <= j < Scan(s.dlog) && !Covered(RecTable(s), s.dlog[j].addr);
    DoomedRun(cf, CrashState(s), j, s.dlog, RecTable(s), rec);
  }

  /**
   * After any run and a crash anywhere - clean or not - recovery's own steps get to their end if
   * and only if the log is accepted or every scanned entry is in the recovered table. They end in a
   * state that shows the recovered view, with the recovered table and tail durable and published
   * and with the scanned entries cleared. Outside the tail window that state has the invariant, so
   * that every theorem about runs applies to what follows, if and only if no entry survived past
   * the first null one.
   */
  lemma RecoveryEnds(cf: Config, s0: State, run: seq<Step>) returns (steps: seq<Step>)
    requires Initial(cf, s0) && IsRun(cf, s0, run)
    ensures var s := End(cf, s0, run);
      && CanRollBack(s) && ViewOf(Recovered(s).vmem, Recovered(s).regions) == RecView(s)
      && (Manageable(s) ==> Leads(cf, CrashState(s), steps, Recovered(s)) && RecoveryOnly(steps))
      && (!Manageable(s) ==> forall rec, e :: RecoveryOnly(rec) && Leads(cf, CrashState(s), rec, e) ==> e.pc != Ready)
      && (!TailLost(s) ==> Shows(cf, Recovered(s).vmem, Recovered(s).regions, s.cmds, Recovered(s).tail))
      && (!TailLost(s) ==> (Inv(cf, Recovered(s)) <==> NullBeyondScan(s.dlog)))
  {
    var s := End(cf, s0, run);
    InitialInv(cf, s0);
    RunInv(cf, s0, run);
    AlwaysSafe(cf, s);
    RecoveredView(cf, s);
    if Manageable(s) {
      steps := Completes(cf, s);
    } else {
      steps := [];
      forall rec, e | RecoveryOnly(rec) && Leads(cf, CrashState(s), rec, e)
        ensures e.pc != Ready
      {
        NeverReady(cf, s, rec, e);
      }
    }
    if !TailLost(s) {
      RecoveredInvIff(cf, s);
    }
  }

  lemma Completes(cf: Config, s: State) returns (steps: seq<Step>)
    requires Sized(s) && Recoverable(cf, s) && Manageable(s)
    ensures CanRollBack(s) && Leads(cf, CrashState(s), steps, Recovered(s)) && RecoveryOnly(steps)
  {
    if Accepts(s.dlog) {
      steps := CommitBranch(cf, s);
    } else {
      steps := RollbackBranch(cf, s);
    }
  }
}
