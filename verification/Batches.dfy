/** A command of one write, from a state at rest to its durable commit record, as a run of its steps. */
module Batches {
  import opened Bytes
  import opened Options
  import opened UndoEntries
  import opened Application
  import opened Protocol
  import opened ProtocolInvariant
  import opened Runs

  /** Between two batches, with everything durable. The undo log may hold stale entries. */
  ghost predicate AtRest(s: State) {
    && Sized(s) && s.pc == Ready && s.vmem == s.dmem && s.vlog == s.dlog && |s.vmem| % 64 == 0 && WellSized(s.vlog)
    && s.mflush == {} && s.lflush == {} && !s.tflush && s.len == 0 && s.freshBytes == {} && !s.modified
    && s.vdisk == s.ddisk == Disk(s.regions, None) && s.vtail == s.dtail == s.ptail == s.tail == s.base
  }

  /** The entries that `w` needs. */
  function EntriesOf(mem: seq<Byte>, w: Action): seq<Entry>
    requires w.Write?
  {
    AllEntries(mem, BlockOf(w.addr), w.addr + |w.data|)
  }

  /** The next command of `s` is the single write `w`, for which memory and undo log have room. */
  ghost predicate Next(cf: Config, s: State, w: Action) {
    && s.tail < |s.cmds| && cf.app(s.cmds[s.tail], ViewOf(s.vmem, s.regions)) == [w]
    && w.Write? && w.data != [] && AllCovered(s.regions, w.addr, |w.data|) && w.addr + |w.data| <= |s.vmem|
    && |EntriesOf(s.vmem, w)| + 1 < |s.vlog|
  }

  // ---- Executing the command -----------------------------------------------------------------------

  lemma BeginLeads(cf: Config, s: State, w: Action) returns (steps: seq<Step>)
    requires AtRest(s) && Next(cf, s, w)
    ensures Leads(cf, s, steps, s.(pc := Recording([w], 0, BlockOf(w.addr), 0)))
  {
    assert [w][1..] == [];
    assert GoodActs([w], s.regions, |s.vmem|);
    var s1 := After(cf, s, Consume(Begin));
    LeadsStep(cf, s, Consume(Begin));
    assert w.addr !in s1.freshBytes;
    LeadsOn(cf, s, [Consume(Begin)], s1, Consume(StartRecord));
    steps := [Consume(Begin)] + [Consume(StartRecord)];
  }

  /** undo_log_record is done. */
  function Logs(s: State, w: Action): State
    requires w.Write? && |EntriesOf(s.vmem, w)| <= |s.vlog|
  {
    var es := EntriesOf(s.vmem, w);
    var log := Spliced(s.vlog, 0, es);
    s.(vlog := log, dlog := log, len := |es|, pc := Logged([w]))
  }

  lemma LogLeads(cf: Config, s: State, w: Action) returns (steps: seq<Step>)
    requires AtRest(s) && Next(cf, s, w)
    ensures Leads(cf, s, steps, Logs(s, w))
  {
    var a := BeginLeads(cf, s, w);
    var s1 := s.(pc := Recording([w], 0, BlockOf(w.addr), 0));
    var es := EntriesOf(s.vmem, w);
    var b := RecordedLeads(cf, s1, w.addr, |w.data|, es);
    MixSame(s.dmem, OnLines(|s.vmem|, {}));
    SplicedDurable(s.vlog, es);
    assert Recorded(s1, es) == Logs(s, w);
    LeadsBoth(cf, s, a, s1, b, Logs(s, w));
    steps := a + b;
  }

  lemma SplicedDurable(log: seq<Entry>, es: seq<Entry>)
    requires |es| <= |log|
    ensures Mix(log, Spliced(log, 0, es), {} + Indices(0, |es|)) == Spliced(log, 0, es)
  {
  }

  /** The command is done. */
  function Executes(s: State, w: Action): State
    requires w.Write? && |EntriesOf(s.vmem, w)| <= |s.vlog| && w.addr + |w.data| <= |s.vmem|
  {
    Logs(s, w).(vmem := Store(s.vmem, w.addr, w.data), tail := s.tail + 1, pc := Ready)
  }

  lemma ExecuteLeads(cf: Config, s: State, w: Action) returns (steps: seq<Step>)
    requires AtRest(s) && Next(cf, s, w)
    ensures Leads(cf, s, steps, Executes(s, w))
  {
    var a := LogLeads(cf, s, w);
    var s1 := Logs(s, w);
    var s2 := After(cf, s1, Consume(WriteLogged));
    LeadsOn(cf, s, a, s1, Consume(WriteLogged));
    assert [w][1..] == [];
    assert s2.mflush == {};
    LeadsOn(cf, s, a + [Consume(WriteLogged)], s2, Consume(EndCommand));
    steps := a + [Consume(WriteLogged)] + [Consume(EndCommand)];
  }

  // ---- Committing it -------------------------------------------------------------------------------

  /** The lines of the entries from `k` on. */
  function LinesFrom(log: seq<Entry>, k: nat, n: nat): set<nat>
    requires k <= n <= |log|
    decreases n - k
  {
    if k == n then {} else {LineOf(log[k].addr)} + LinesFrom(log, k + 1, n)
  }

  lemma {:induction false} LinesFromHas(log: seq<Entry>, k: nat, n: nat, i: nat)
    requires k <= i < n <= |log|
    ensures LineOf(log[i].addr) in LinesFrom(log, k, n)
    decreases n - k
  {
    if k < i {
      LinesFromHas(log, k + 1, n, i);
    }
  }

  lemma {:induction false} FlushLeads(cf: Config, s: State, k: nat) returns (steps: seq<Step>)
    requires Sized(s) && s.pc == Flushing && k <= s.len <= |s.vlog|
    ensures Leads(cf, s, steps, s.(mflush := s.mflush + LinesFrom(s.vlog, k, s.len)))
    decreases s.len - k
  {
    if k == s.len {
      steps := [];
      assert s.mflush + {} == s.mflush;
    } else {
      var st := Commit(FlushLine(LineOf(s.vlog[k].addr)));
      var s' := After(cf, s, st);
      LeadsStep(cf, s, st);
      var rest := FlushLeads(cf, s', k + 1);
      assert s'.mflush + LinesFrom(s.vlog, k + 1, s.len) == s.mflush + LinesFrom(s.vlog, k, s.len);
      LeadsBoth(cf, s, [st], s', rest, s.(mflush := s.mflush + LinesFrom(s.vlog, k, s.len)));
      steps := [st] + rest;
    }
  }

  /** Every byte of a write is on the line of one of its entries. */
  lemma {:induction false} LineLogged(mem: seq<Byte>, b: nat, end: nat, a: nat) returns (i: nat)
    requires |mem| % 64 == 0 && OnBlock(b) && b <= a < end <= |mem|
    ensures i < |AllEntries(mem, b, end)| && LineOf(AllEntries(mem, b, end)[i].addr) == LineOf(a)
    decreases end - b
  {
    AllEntriesNext(mem, b, end);
    if a < b + BLOCK {
      BlockOnOneLine(b, a);
      i := 0;
    } else {
      var j := LineLogged(mem, b + BLOCK, end, a);
      i := j + 1;
    }
  }

  /** Flushing the lines of its entries makes the write durable. */
  lemma WriteDurable(s: State, w: Action)
    requires w.Write? && w.data != [] && |s.vmem| % 64 == 0 && w.addr + |w.data| <= |s.vmem|
    requires |EntriesOf(s.vmem, w)| <= |s.vlog|
    ensures var log, n := Spliced(s.vlog, 0, EntriesOf(s.vmem, w)), |EntriesOf(s.vmem, w)|;
      var now := Store(s.vmem, w.addr, w.data);
      Mix(s.vmem, now, OnLines(|s.vmem|, LinesFrom(log, 0, n))) == now
  {
    var es := EntriesOf(s.vmem, w);
    var log := Spliced(s.vlog, 0, es);
    forall a: nat | w.addr <= a < w.addr + |w.data|
      ensures LineOf(a) in LinesFrom(log, 0, |es|)
    {
      var i := LineLogged(s.vmem, BlockOf(w.addr), w.addr + |w.data|, a);
      LinesFromHas(log, 0, |es|, i);
    }
  }

  /** The batch's data is durable. */
  lemma DataLeads(cf: Config, s: State, w: Action) returns (steps: seq<Step>)
    requires AtRest(s) && Next(cf, s, w)
    ensures Leads(cf, s, steps, Executes(s, w).(dmem := Store(s.vmem, w.addr, w.data), pc := Drained))
  {
    var a := ExecuteLeads(cf, s, w);
    var s1 := Executes(s, w);
    LeadsOn(cf, s, a, s1, Commit(StartCommit));
    var s2 := s1.(pc := Flushing);
    var b := FlushLeads(cf, s2, 0);
    var lines := LinesFrom(s2.vlog, 0, s2.len);
    assert {} + lines == lines;
    LeadsBoth(cf, s, a + [Commit(StartCommit)], s2, b, s2.(mflush := lines));
    WriteDurable(s, w);
    forall i | 0 <= i < s2.len
      ensures LineOf(s2.vlog[i].addr) in lines
    {
      LinesFromHas(s2.vlog, 0, s2.len, i);
    }
    MixSame(s2.dlog, {});
    LeadsOn(cf, s, a + [Commit(StartCommit)] + b, s2.(mflush := lines), Commit(DrainData));
    steps := a + [Commit(StartCommit)] + b + [Commit(DrainData)];
  }

  /** The log of a committed write: its entries and the commit record. */
  function CommitLog(s: State, w: Action): seq<Entry>
    requires w.Write? && |EntriesOf(s.vmem, w)| < |s.vlog|
  {
    var n := |EntriesOf(s.vmem, w)|;
    Spliced(s.vlog, 0, EntriesOf(s.vmem, w))[n := s.vlog[n].(addr := 0, commit := s.tail + 2)]
  }

  /** The commit record is durable. */
  function Commits(s: State, w: Action): State
    requires w.Write? && |EntriesOf(s.vmem, w)| < |s.vlog| && w.addr + |w.data| <= |s.vmem|
  {
    var now, log := Store(s.vmem, w.addr, w.data), CommitLog(s, w);
    s.(vmem := now, dmem := now, vlog := log, dlog := log, len := |EntriesOf(s.vmem, w)| + 1, tail := s.tail + 1,
       pc := TailPending(false))
  }

  lemma CommitLeads(cf: Config, s: State, w: Action) returns (steps: seq<Step>)
    requires AtRest(s) && Next(cf, s, w)
    ensures Leads(cf, s, steps, Commits(s, w))
  {
    var a := DataLeads(cf, s, w);
    var s1 := Executes(s, w).(dmem := Store(s.vmem, w.addr, w.data), pc := Drained);
    var b := SealLeads(cf, s1);
    assert s1.vlog[s1.len := s1.vlog[s1.len].(addr := 0, commit := s1.tail + 1)] == CommitLog(s, w);
    LeadsBoth(cf, s, a, s1, b, Commits(s, w));
    steps := a + b;
  }

  /** Storing and draining the commit record. */
  lemma SealLeads(cf: Config, s: State) returns (steps: seq<Step>)
    requires Sized(s) && s.pc == Drained && s.len < |s.vlog| && s.vmem == s.dmem && s.vlog == s.dlog
    requires s.mflush == {} && s.lflush == {} && !s.tflush
    ensures var log := s.vlog[s.len := s.vlog[s.len].(addr := 0, commit := s.tail + 1)];
      Leads(cf, s, steps, s.(vlog := log, dlog := log, len := s.len + 1, pc := TailPending(false)))
  {
    var log := s.vlog[s.len := s.vlog[s.len].(addr := 0, commit := s.tail + 1)];
    var s1 := After(cf, s, Commit(StoreCommit));
    LeadsStep(cf, s, Commit(StoreCommit));
    assert s1 == s.(vlog := log, pc := CommitStored);
    var s2 := After(cf, s1, Commit(FlushCommit));
    LeadsOn(cf, s, [Commit(StoreCommit)], s1, Commit(FlushCommit));
    MixSame(s.dmem, OnLines(|s.vmem|, {}));
    assert Mix(s.dlog, log, {s.len}) == log;
    assert s2.lflush == {s.len};
    steps := [Commit(StoreCommit)] + [Commit(FlushCommit)];
    LeadsOn(cf, s, steps, s2, Commit(DrainCommit));
    steps := steps + [Commit(DrainCommit)];
  }

  // ---- Finishing it --------------------------------------------------------------------------------

  /** From the durable commit record to the clear: the tail and the table. */
  lemma FinishLeads(cf: Config, s: State) returns (steps: seq<Step>)
    requires Sized(s) && s.pc == TailPending(false) && s.vmem == s.dmem && s.vlog == s.dlog
    requires s.mflush == {} && s.lflush == {} && !s.tflush && s.vdisk == s.ddisk && s.vdisk.newTable == None
    ensures Leads(cf, s, steps, s.(vtail := s.tail, dtail := s.tail, ptail := s.tail, pc := Clearing(0, Cleanup)))
  {
    var s1 := After(cf, s, Finish(StoreTail));
    LeadsStep(cf, s, Finish(StoreTail));
    MixSame(s.dmem, OnLines(|s.vmem|, {}));
    MixSame(s.dlog, {});
    LeadsOn(cf, s, [Finish(StoreTail)], s1, Finish(DrainTail));
    var s2 := s.(vtail := s.tail, dtail := s.tail, pc := TailDurable(false));
    steps := [Finish(StoreTail)] + [Finish(DrainTail)];
    LeadsOn(cf, s, steps, s2, Finish(Publish));
    steps := steps + [Finish(Publish)];
    var rest := RenameLeads(cf, s2.(ptail := s.tail, pc := Renaming(false)));
    LeadsBoth(cf, s, steps, s2.(ptail := s.tail, pc := Renaming(false)), rest,
              s2.(ptail := s.tail, pc := Clearing(0, Cleanup)));
    steps := steps + rest;
  }

  lemma RenameLeads(cf: Config, s: State) returns (steps: seq<Step>)
    requires Sized(s) && s.pc == Renaming(false) && s.vdisk == s.ddisk && s.vdisk.newTable == None
    ensures Leads(cf, s, steps, s.(pc := Clearing(0, Cleanup)))
  {
    LeadsStep(cf, s, Finish(Rename));
    LeadsOn(cf, s, [Finish(Rename)], s.(pc := Renamed(false)), Finish(SyncRename));
    steps := [Finish(Rename)] + [Finish(SyncRename)];
  }
}
