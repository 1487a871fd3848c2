/**
 * What happens if the streaming stores of undo_log_clear persist in some other order than the one
 * the protocol relies on: the exact condition under which a crash in the clear is still harmless.
 */
module ClearOrder {
  import opened Bytes
  import opened Options
  import opened UndoEntries
  import opened Application
  import opened Protocol
  import opened ProtocolInvariant
  import opened RecoverSteps
  import opened Runs
  import opened Recovery
  import opened Batches
  import opened Limits
  import opened StaleEntries
  import opened StaleBlocks

  /** `d` after the heads (address and commit tail) and the blocks of some entries of `v` have persisted. */
  function Persisted(d: seq<Entry>, v: seq<Entry>, heads: set<nat>, blks: set<nat>): (r: seq<Entry>)
    requires |d| == |v|
    ensures |r| == |d|
    ensures forall k: nat :: k < |d| ==> r[k] == TornEntry(d[k], v[k], k in heads, k in blks)
  {
    seq(|d|, k requires 0 <= k < |d| => TornEntry(d[k], v[k], k in heads, k in blks))
  }

  function TornEntry(d: Entry, v: Entry, head: bool, blk: bool): Entry {
    Entry(if blk then v.blk else d.blk, if head then v.addr else d.addr, if head then v.commit else d.commit)
  }

  /** The state in which the zeros `heads` and `blks`, of those stored so far, have persisted. */
  function TornClear(s: State, heads: set<nat>, blks: set<nat>): State
    requires Sized(s)
  {
    s.(dlog := Persisted(s.dlog, s.vlog, heads, blks))
  }

  ghost predicate Below(these: set<nat>, n: nat) { forall k :: k in these ==> k < n }

  /** Every byte that the first `n` entries save has the value of its first entry in `v`. */
  ghost predicate SavedAs(log: seq<Entry>, n: nat, v: View)
    requires n <= |log| && WellSized(log)
  {
    forall i, a {:trigger First(log, i, a)} :: 0 <= i < n && a in v && First(log, i, a) ==>
      log[i].blk[a - log[i].addr] == v[a]
  }

  // ---- Rolling back a prefix over memory that shows `v` ------------------------------------------------

  /** Rolling entries back over a memory that shows `v` still shows `v` iff they save it. */
  lemma RollbackShowsIff(mem: seq<Byte>, t: seq<Region>, log: seq<Entry>, n: nat, v: View)
    requires ViewOf(mem, t) == v && n <= |log| && WellSized(log) && AllPlain(log[..n], |mem|)
    ensures ViewOf(Rollback(mem, log[..n]), t) == v <==> SavedAs(log, n, v)
  {
    var es := log[..n];
    var back := Rollback(mem, es);
    forall a | a in v
      ensures a < |mem| && mem[a] == v[a]
      ensures !Held(es, n, a) ==> back[a] == v[a]
      ensures forall i :: 0 <= i < n && First(es, i, a) ==> back[a] == log[i].blk[a - log[i].addr]
    {
      assert a in ViewOf(mem, t);
      RollbackByte(mem, es, a);
    }
    if SavedAs(log, n, v) {
      SavedShows(back, t, log, n, v);
    }
    if ViewOf(back, t) == v {
      forall i, a | 0 <= i < n && a in v && First(log, i, a)
        ensures log[i].blk[a - log[i].addr] == v[a]
      {
        assert First(es, i, a);
        assert ViewOf(back, t)[a] == v[a];
      }
    }
  }

  lemma SavedShows(back: seq<Byte>, t: seq<Region>, log: seq<Entry>, n: nat, v: View)
    requires n <= |log| && WellSized(log) && SavedAs(log, n, v)
    requires forall a: nat :: a in v <==> a < |back| && Covered(t, a)
    requires forall a :: a in v && !Held(log[..n], n, a) ==> back[a] == v[a]
    requires forall a, i :: a in v && 0 <= i < n && First(log[..n], i, a) ==> back[a] == log[i].blk[a - log[i].addr]
    ensures ViewOf(back, t) == v
  {
    forall a | a in v
      ensures back[a] == v[a]
    {
      if Held(log[..n], n, a) {
        var i := FirstExists(log[..n], n, a);
        assert First(log, i, a);
      }
    }
  }

  // ---- The log of a committed batch ----------------------------------------------------------------------

  /** `log` is `d` with the heads in `heads` and the blocks in `blks` zeroed. */
  ghost predicate Zeroed(log: seq<Entry>, d: seq<Entry>, heads: set<nat>, blks: set<nat>) {
    && |log| == |d| && WellSized(log)
    && (forall k: nat :: k < |d| && k in heads ==> IsNull(log[k]))
    && (forall k: nat :: k < |d| && k !in heads ==> log[k].addr == d[k].addr && log[k].commit == d[k].commit)
    && (forall k: nat :: k < |d| && k !in blks ==> log[k].blk == d[k].blk)
    && (forall k: nat :: k < |d| && k in blks ==> log[k].blk == Zeros(BLOCK))
  }

  lemma PersistedZeros(d: seq<Entry>, v: seq<Entry>, heads: set<nat>, blks: set<nat>, i: nat)
    requires |d| == |v| && i <= |d| && WellSized(d) && Below(heads, i) && Below(blks, i)
    requires forall k :: 0 <= k < i ==> v[k] == NullEntry
    ensures Zeroed(Persisted(d, v, heads, blks), d, heads, blks)
  {
  }

  /** With no head zeroed the log is accepted as before. */
  lemma NoneScan(log: seq<Entry>, d: seq<Entry>, blks: set<nat>, len: nat, tail: nat, size: nat)
    requires Zeroed(log, d, {}, blks) && CommittedLog(d, len, tail, size)
    ensures Scan(log) == len && Accepts(log) && log[len - 1].commit == tail + 1
  {
    assert forall k :: 0 <= k < |d| ==> IsNull(log[k]) == IsNull(d[k]);
    ScanIs(log, len);
  }

  /** With a head zeroed the scan stops at the first such entry, before the commit record. */
  lemma SomeScan(log: seq<Entry>, d: seq<Entry>, heads: set<nat>, blks: set<nat>, k: nat, len: nat, tail: nat,
                 size: nat)
    requires Zeroed(log, d, heads, blks) && CommittedLog(d, len, tail, size) && k in heads && k < len
    ensures var n := Scan(log);
      n <= k && !Accepts(log) && AllPlain(log[..n], size) && (n == 0 <==> 0 in heads)
  {
    var n := Scan(log);
    assert IsNull(log[k]);
    forall j | 0 <= j < n
      ensures Plain(log[j], size)
    {
      assert !IsNull(log[j]) && j !in heads && Plain(d[j], size);
    }
  }

  /** Where the scan of a partly cleared committed log stops. */
  lemma TornScan(log: seq<Entry>, d: seq<Entry>, heads: set<nat>, blks: set<nat>, i: nat, len: nat, tail: nat,
                 size: nat)
    requires Zeroed(log, d, heads, blks) && CommittedLog(d, len, tail, size) && i <= len && Below(heads, i)
    ensures (Accepts(log) <==> heads == {}) && (heads == {} ==> Scan(log) > 0 && log[Scan(log) - 1].commit == tail + 1)
    ensures heads != {} ==> AllPlain(log[..Scan(log)], size) && (Scan(log) == 0 <==> 0 in heads)
  {
    if heads == {} {
      NoneScan(log, d, blks, len, tail, size);
    } else {
      var k :| k in heads;
      SomeScan(log, d, heads, blks, k, len, tail, size);
    }
  }

  lemma ClearFacts(cf: Config, s: State)
    requires Inv(cf, s) && ClearsCommitted(s.pc) && Accepts(s.dlog)
    ensures Settled(cf, s) && CommittedLog(s.dlog, s.len, s.tail, |s.vmem|) && s.pc.i <= s.len
    ensures forall k :: 0 <= k < s.pc.i ==> s.vlog[k] == NullEntry
  {
  }

  /**
   * A crash while the log of a committed batch is cleared, whatever zeros have persisted: memory
   * shows the batch exactly if no head has persisted, or that of entry 0 has, or the entries before
   * the first zeroed one save nothing that the batch changed. The tail is that of the batch unless
   * the record is gone and the tail in the log is older.
   */
  lemma CommittedClearIff(cf: Config, s: State, heads: set<nat>, blks: set<nat>)
    requires Inv(cf, s) && ClearsCommitted(s.pc) && Accepts(s.dlog) && Below(heads, s.pc.i) && Below(blks, s.pc.i)
    ensures Sized(s) && s.tail <= |s.cmds|
    ensures var e, v := TornClear(s, heads, blks), Fold(cf, s.cmds[..s.tail]);
      && CanRollBack(e) && WellSized(e.dlog) && (Accepts(e.dlog) <==> heads == {})
      && RecTail(e) == (if heads == {} then s.tail else s.dtail)
      && (RecView(e) == v <==> heads == {} || 0 in heads || SavedAs(e.dlog, Scan(e.dlog), v))
  {
    ClearFacts(cf, s);
    var e, v := TornClear(s, heads, blks), Fold(cf, s.cmds[..s.tail]);
    PersistedZeros(s.dlog, s.vlog, heads, blks, s.pc.i);
    TornScan(e.dlog, s.dlog, heads, blks, s.pc.i, s.len, s.tail, |s.vmem|);
    TornShows(e, heads, s.dmem, s.regions, v);
  }

  lemma TornShows(e: State, heads: set<nat>, mem: seq<Byte>, t: seq<Region>, v: View)
    requires e.dmem == mem && e.ddisk.table == t && e.ddisk.newTable.None? && ViewOf(mem, t) == v && WellSized(e.dlog)
    requires (Accepts(e.dlog) <==> heads == {})
    requires heads != {} ==> AllPlain(e.dlog[..Scan(e.dlog)], |mem|) && (Scan(e.dlog) == 0 <==> 0 in heads)
    ensures CanRollBack(e) && (RecView(e) == v <==> heads == {} || 0 in heads || SavedAs(e.dlog, Scan(e.dlog), v))
  {
    if heads != {} {
      RollbackShowsIff(mem, t, e.dlog, Scan(e.dlog), v);
    }
  }

  // ---- The log of a batch that was rolled back -------------------------------------------------------------

  /** The blocks that have been zeroed while their entries are still scanned held nothing but zeros. */
  ghost predicate ZeroedHarmless(log: seq<Entry>, n: nat, blks: set<nat>, v: View)
    requires n <= |log|
  {
    forall k: nat, a {:trigger First(log, k, a)} :: k in blks && k < n && a in v && First(log, k, a) ==> v[a] == 0
  }

  lemma TornPrefix(log: seq<Entry>, d: seq<Entry>, heads: set<nat>, blks: set<nat>, size: nat)
    requires Zeroed(log, d, heads, blks) && Scan(d) < |d| && Below(heads, Scan(d)) && PlainUpTo(d, 0, Scan(d), size)
    ensures Scan(log) <= Scan(d) && AllPlain(log[..Scan(log)], size)
    ensures forall k: nat :: k < Scan(log) ==> k !in heads
  {
    var n := Scan(log);
    assert IsNull(log[Scan(d)]);
    forall j | 0 <= j < n
      ensures Plain(log[j], size) && j !in heads
    {
      assert !IsNull(log[j]);
      assert Plain(d[j], size);
    }
  }

  /** The entries that are still scanned save what they saved, or zeros. */
  lemma TornFirst(log: seq<Entry>, d: seq<Entry>, heads: set<nat>, blks: set<nat>, n: nat, m: nat, v: View, k: nat,
                  a: nat)
    requires Zeroed(log, d, heads, blks) && WellSized(d) && n <= m <= |d| && FirstSaved(d, m, v) && k < n && a in v
    requires forall j: nat :: j < n ==> j !in heads
    ensures First(log, k, a) <==> First(d, k, a)
    ensures First(d, k, a) ==> log[k].blk[a - log[k].addr] == if k in blks then 0 else v[a]
  {
    assert forall j :: 0 <= j <= k ==> Holds(log[j], a) == Holds(d[j], a);
  }

  lemma TornSaves(log: seq<Entry>, d: seq<Entry>, heads: set<nat>, blks: set<nat>, n: nat, m: nat, v: View)
    requires Zeroed(log, d, heads, blks) && WellSized(d) && n <= m <= |d| && FirstSaved(d, m, v)
    requires forall j: nat :: j < n ==> j !in heads
    ensures SavedAs(log, n, v) <==> ZeroedHarmless(d, n, blks, v)
  {
    if SavedAs(log, n, v) {
      forall k: nat, a | k in blks && k < n && a in v && First(d, k, a)
        ensures v[a] == 0
      {
        TornFirst(log, d, heads, blks, n, m, v, k, a);
      }
    }
    if ZeroedHarmless(d, n, blks, v) {
      forall k, a | 0 <= k < n && a in v && First(log, k, a)
        ensures log[k].blk[a - log[k].addr] == v[a]
      {
        TornFirst(log, d, heads, blks, n, m, v, k, a);
      }
    }
  }

  lemma UndoneFacts(cf: Config, s: State)
    requires Inv(cf, s) && s.pc.Clearing? && s.pc.why == RecoverUndo && Scan(s.dlog) == s.len
    ensures InvUndone(cf, s, s.pc.i) && !Accepts(s.dlog)
  {
    RecoverableUndone(cf, s, s.pc.i);
  }

  /**
   * A crash while the log of a rolled back batch is cleared, whatever zeros have persisted: the
   * order of the heads does not matter; memory shows the last commit exactly if every block that
   * was zeroed while its entry is still scanned is the first to save only zeros.
   */
  lemma UndoneClearIff(cf: Config, s: State, heads: set<nat>, blks: set<nat>)
    requires Inv(cf, s) && s.pc.Clearing? && s.pc.why == RecoverUndo && Scan(s.dlog) == s.len
    requires Below(heads, s.pc.i) && Below(blks, s.pc.i)
    ensures Sized(s) && s.base <= |s.cmds|
    ensures var e, v := TornClear(s, heads, blks), Fold(cf, s.cmds[..s.base]);
      && CanRollBack(e) && !Accepts(e.dlog) && RecTail(e) == s.base
      && (RecView(e) == v <==> ZeroedHarmless(s.dlog, Scan(e.dlog), blks, v))
  {
    UndoneFacts(cf, s);
    var e, v := TornClear(s, heads, blks), Fold(cf, s.cmds[..s.base]);
    PersistedZeros(s.dlog, s.vlog, heads, blks, s.pc.i);
    TornPrefix(e.dlog, s.dlog, heads, blks, |s.dmem|);
    TornSaves(e.dlog, s.dlog, heads, blks, Scan(e.dlog), Scan(s.dlog), v);
    RollbackShowsIff(s.dmem, s.regions, e.dlog, Scan(e.dlog), v);
  }

  // ---- The counter loses a command -------------------------------------------------------------------------

  lemma UndoOneEntry(mem: seq<Byte>, log: seq<Entry>)
    requires Scan(log) == 1 && Plain(log[0], |mem|)
    ensures !Accepts(log) && AllPlain(log[..1], |mem|) && Rollback(mem, log[..1]) == Restore(mem, log[0])
  {
    assert log[..1][..0] == [];
  }

  /** A counter whose log has one scanned entry that saves zeros is recovered as 0. */
  lemma CounterZeroed(e: State, x: Byte)
    requires |e.dlog| > 1 && Scan(e.dlog) == 1 && e.dlog[0] == Entry(Zeros(BLOCK), 32, 0)
    requires e.dmem == Store(Zeros(64), 32, [x]) && e.ddisk.table == [Region(32, 32)]
    ensures !Accepts(e.dlog) && CanRollBack(e) && RecTail(e) == e.dtail && RecView(e) == CounterView(0)
  {
    UndoOneEntry(e.dmem, e.dlog);
    assert Restore(e.dmem, e.dlog[0]) == Store(Zeros(64), 32, [0]);
    CounterShows(0);
  }

  /** A counter at `x` whose log holds the entry for its block, with zeros, and then `next`. */
  ghost predicate CounterLog(s: State, x: Byte, next: Entry) {
    && Sized(s) && |s.dlog| > 2 && s.dlog[0] == Entry(Zeros(BLOCK), 32, 0) && s.dlog[1] == next && IsNull(s.dlog[2])
    && s.dmem == Store(Zeros(64), 32, [x]) && s.ddisk.table == [Region(32, 32)]
  }

  lemma CommittedCounterLog(n: nat, c: Cmd, s: State)
    requires 4 <= n && Next(Counter, CounterStart(n).(cmds := [c]), Write(32, [1]))
    requires s == Commits(CounterStart(n).(cmds := [c]), Write(32, [1]))
    ensures CounterLog(s, 1, NullEntry.(commit := 2)) && s.len == 2
  {
    CounterEntries(Zeros(64), 1);
    assert Zeros(64)[32..64] == Zeros(BLOCK);
  }

  /** The committed counter is about to drain its cleared log. */
  lemma CounterClearing(n: nat, c: Cmd) returns (steps: seq<Step>, s: State)
    requires 4 <= n
    ensures Leads(Counter, CounterStart(n), steps, s) && s.pc == Clearing(2, Cleanup)
    ensures s.cmds == [c] && s.ptail == s.dtail == 1 && CounterLog(s, 1, NullEntry.(commit := 2))
    ensures s.vlog[1] == NullEntry
  {
    var a, s1 := CounterCommits(n, c);
    CommittedCounterLog(n, c, s1);
    var b := FinishLeads(Counter, s1);
    var s2 := s1.(vtail := 1, dtail := 1, ptail := 1, pc := Clearing(0, Cleanup));
    LeadsBoth(Counter, CounterStart(n), a, s1, b, s2);
    var d := ClearLeads(Counter, s2);
    s := ClearedState(s2);
    LeadsBoth(Counter, CounterStart(n), a + b, s2, d, s);
    steps := a + b + d;
  }

  /**
   * A concrete run, whatever the size of the undo log: the counter has committed one increment, its
   * tail is durable and published, and its log is being cleared. If the zero of the commit record
   * persists before that of the saved block, a crash rolls the increment back, and it is lost.
   */
  lemma CounterLosesCommand(n: nat, c: Cmd) returns (steps: seq<Step>, s: State)
    requires 4 <= n
    ensures Initial(Counter, CounterStart(n)) && Leads(Counter, CounterStart(n), steps, s)
    ensures s.pc == Clearing(2, Cleanup) && s.cmds == [c] && s.ptail == 1 && Sized(s)
    ensures var e := TornClear(s, {1}, {});
      && !Accepts(e.dlog) && CanRollBack(e) && RecTail(e) == 1 && RecView(e) == CounterView(0)
      && Fold(Counter, e.cmds) == CounterView(1) != CounterView(0)
  {
    CounterInitial(n);
    steps, s := CounterClearing(n, c);
    RecordZeroed(s);
    CounterFolds(c, c);
    assert 32 in CounterView(0) && CounterView(0)[32] == 0 && 32 in CounterView(1) && CounterView(1)[32] == 1;
  }

  lemma RecordZeroed(s: State)
    requires CounterLog(s, 1, NullEntry.(commit := 2)) && s.vlog[1] == NullEntry
    ensures var e := TornClear(s, {1}, {});
      !Accepts(e.dlog) && CanRollBack(e) && RecTail(e) == s.dtail && RecView(e) == CounterView(0)
  {
    var e := TornClear(s, {1}, {});
    ScanIs(e.dlog, 1);
    CounterZeroed(e, 1);
  }

  // ---- The counter loses a committed byte --------------------------------------------------------------------

  /** Two commands arrive and the first one commits. */
  lemma CounterOneDone(n: nat, c: Cmd, d: Cmd) returns (steps: seq<Step>, s: State)
    requires 4 <= n
    ensures Leads(Counter, CounterStart(n), steps, s) && AtRest(s)
    ensures s.cmds == [c, d] && s.tail == 1 && s.vmem == Store(Zeros(64), 32, [1]) && s.regions == [Region(32, 32)]
    ensures |s.vlog| == n && forall i :: 0 <= i < n ==> s.vlog[i] == NullEntry
  {
    var s0, s1 := CounterStart(n), CounterStart(n).(cmds := [c, d]);
    LeadsStep(Counter, s0, Produce(c));
    LeadsOn(Counter, s0, [Produce(c)], s0.(cmds := [] + [c]), Produce(d));
    assert [] + [c] + [d] == [c, d];
    CounterInitial(n);
    CounterNext(s1, 0);
    var a := BatchLeads(Counter, s1, Write(32, [1]));
    s := Finished(s1, Write(32, [1]));
    LeadsBoth(Counter, s0, [Produce(c)] + [Produce(d)], s1, a, s);
    steps := [Produce(c)] + [Produce(d)] + a;
  }

  /** The second command is interrupted after its undo_log_record. */
  lemma CounterInterrupted(n: nat, s: State) returns (steps: seq<Step>, e: State)
    requires AtRest(s) && s.tail == 1 && |s.cmds| == 2 && s.regions == [Region(32, 32)] && 4 <= n == |s.vlog|
    requires s.vmem == Store(Zeros(64), 32, [1]) && forall i :: 0 <= i < n ==> s.vlog[i] == NullEntry
    ensures Leads(Counter, s, steps, e) && e.cmds == s.cmds && Sized(e) && e.pc.Logged? && e.dtail == 1
    ensures e.dmem == s.vmem && e.ddisk == s.ddisk
    ensures |e.dlog| == n && e.dlog[0] == Entry(s.vmem[32..64], 32, 0)
    ensures forall i :: 1 <= i < n ==> e.dlog[i] == NullEntry
  {
    CounterShows(1);
    CounterNext(s, 1);
    steps := LogLeads(Counter, s, Write(32, [2]));
    e := Logs(s, Write(32, [2]));
    CounterEntries(s.vmem, 2);
  }

  /** Recovery rolls it back and stores the first zero of the clear. */
  lemma CounterRollsBack(n: nat, s: State) returns (steps: seq<Step>, e: State)
    requires Sized(s) && s.pc.Logged? && s.dtail == 1 && s.dmem == Store(Zeros(64), 32, [1])
    requires s.ddisk.table == [Region(32, 32)] && |s.dlog| == n && 4 <= n
    requires s.dlog[0] == Entry(s.dmem[32..64], 32, 0) && forall i :: 1 <= i < n ==> s.dlog[i] == NullEntry
    ensures Leads(Counter, s, steps, e) && e.pc == Clearing(1, RecoverUndo) && e.cmds == s.cmds && e.dtail == 1
    ensures Sized(e) && e.dmem == s.dmem && e.dlog == s.dlog && e.vlog[0] == NullEntry
    ensures e.ddisk.table == [Region(32, 32)]
  {
    ScanIs(s.dlog, 1);
    UndoOneEntry(s.dmem, s.dlog);
    assert Restore(s.dmem, s.dlog[0]) == s.dmem;
    LeadsStep(Counter, s, Crash);
    OneRegion(Region(32, 32), 32);
    var a := RollbackLeads(Counter, s);
    var s1 := CrashState(s).(vmem := RecMem(s), dmem := RecMem(s), len := 1, vdisk := Disk(RecTable(s), None),
                             ddisk := Disk(RecTable(s), None), regions := RecTable(s), pc := Clearing(0, RecoverUndo));
    LeadsBoth(Counter, s, [Crash], CrashState(s), a, s1);
    LeadsOn(Counter, s, [Crash] + a, s1, Finish(ClearEntry));
    steps, e := [Crash] + a + [Finish(ClearEntry)], After(Counter, s1, Finish(ClearEntry));
  }

  lemma BlockZeroed(s: State)
    requires Sized(s) && |s.dlog| > 1 && s.dlog[0].addr == 32 && s.dlog[0].commit == 0 && s.dlog[1] == NullEntry
    requires s.vlog[0] == NullEntry && s.dmem == Store(Zeros(64), 32, [1]) && s.ddisk.table == [Region(32, 32)]
    ensures var e := TornClear(s, {}, {0});
      !Accepts(e.dlog) && CanRollBack(e) && RecTail(e) == s.dtail && RecView(e) == CounterView(0)
  {
    var e := TornClear(s, {}, {0});
    ScanIs(e.dlog, 1);
    CounterZeroed(e, 1);
  }

  /**
   * A concrete run, whatever the size of the undo log: the counter has committed one increment, and
   * a crash in the next one has been rolled back. If, in the clear that follows, the half line with
   * the saved block is zeroed before the half with its address, a crash rolls the block back to zero.
   */
  lemma CounterLosesBlock(n: nat, c: Cmd, d: Cmd) returns (steps: seq<Step>, s: State)
    requires 4 <= n
    ensures Initial(Counter, CounterStart(n)) && Leads(Counter, CounterStart(n), steps, s)
    ensures s.pc == Clearing(1, RecoverUndo) && s.cmds == [c, d] && Sized(s)
    ensures var e := TornClear(s, {}, {0});
      && !Accepts(e.dlog) && CanRollBack(e) && RecTail(e) == 1 && RecView(e) == CounterView(0)
      && Fold(Counter, e.cmds[..1]) == CounterView(1) != CounterView(0)
  {
    CounterInitial(n);
    var a, s1 := CounterOneDone(n, c, d);
    var b, s2 := CounterInterrupted(n, s1);
    LeadsBoth(Counter, CounterStart(n), a, s1, b, s2);
    var r;
    r, s := CounterRollsBack(n, s2);
    LeadsBoth(Counter, CounterStart(n), a + b, s2, r, s);
    steps := a + b + r;
    BlockZeroed(s);
    CounterFolds(c, d);
    assert 32 in CounterView(0) && CounterView(0)[32] == 0 && 32 in CounterView(1) && CounterView(1)[32] == 1;
  }
}
