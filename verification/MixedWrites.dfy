/**
 * Writes that straddle committed and fresh memory. undo_log_record does not find such a write
 * fresh, logs the fresh block as well, and recovery aborts on that entry.
 */
module MixedWrites {
  import opened Bytes
  import opened UndoEntries
  import opened Application
  import opened Protocol
  import opened ProtocolInvariant
  import opened BatchSteps
  import opened Durability
  import opened Runs
  import opened Recovery
  import opened Limits
  import opened StaleEntries

  /** Every block that a write touches gets an entry. */
  lemma {:induction false} EntryFor(mem: seq<Byte>, b0: nat, end: nat, b: nat) returns (i: nat)
    requires |mem| % 64 == 0 && OnBlock(b0) && OnBlock(b) && b0 <= b < end <= |mem|
    ensures i < |AllEntries(mem, b0, end)| && AllEntries(mem, b0, end)[i].addr == b
    decreases end - b0
  {
    AllEntriesNext(mem, b0, end);
    if b == b0 {
      i := 0;
    } else {
      var j := EntryFor(mem, b0 + BLOCK, end, b);
      i := j + 1;
    }
  }

  /** The log that recording `es` behind an open log leaves: all entries are durable and plain. */
  lemma RecordedLog(vlog: seq<Entry>, dlog: seq<Entry>, n: nat, es: seq<Entry>, these: set<nat>, size: nat)
    requires OpenLog(vlog, dlog, n, n, size) && AllPlain(es, size) && n + |es| < |vlog|
    ensures var log := Mix(dlog, Spliced(vlog, n, es), these + Indices(n, |es|));
      && Scan(log) == n + |es| && !Accepts(log) && PlainUpTo(log, 0, n + |es|, size)
      && forall i :: n <= i < n + |es| ==> log[i] == es[i - n]
  {
    var log := Mix(dlog, Spliced(vlog, n, es), these + Indices(n, |es|));
    assert forall i :: n <= i < n + |es| ==> log[i] == es[i - n];
    assert forall i :: 0 <= i < n ==> log[i] == vlog[i];
    ScanIs(log, n + |es|);
  }

  /** A block of the write that the committed table lacks. */
  lemma UnmanagedBlock(t: seq<Region>, regions: seq<Region>, bytes: set<nat>, modified: bool, v: View, size: nat,
                       addr: nat, len: nat) returns (b: nat)
    requires OpenTable(t, regions, bytes, modified, v, size) && AllCovered(regions, addr, len) && 0 < len
    requires !NoneFresh(bytes, addr, len)
    ensures OnBlock(b) && BlockOf(addr) <= b < addr + len && !Covered(t, b) && 0 < BlockOf(addr)
  {
    BlocksManagedIff(t, regions, bytes, modified, v, size, addr, len);
    b :| OnBlock(b) && BlockOf(addr) <= b < addr + len && !Covered(t, b);
    assert Covered(regions, addr);
    if addr in bytes {
      FreshByteUnmanaged(t, regions, bytes, modified, v, size, addr);
    } else {
      OldByteManaged(t, regions, bytes, modified, v, size, addr);
    }
  }

  /** Next is a write that touches committed and fresh memory, and the log has room for its entries. */
  ghost predicate AtMixedWrite(s: State) {
    && AtRecord(s) && !NoneFresh(s.freshBytes, s.pc.acts[0].addr, |s.pc.acts[0].data|)
    && Sized(s)
    && RecordFits(s.vmem, s.vlog, s.len, BlockOf(s.pc.acts[0].addr), s.pc.acts[0].addr + |s.pc.acts[0].data|)
  }

  /** One of the entries `es` of the mixed write is for a block that the committed table lacks. */
  ghost predicate LogsUnmanaged(s: State, es: seq<Entry>, i: nat) {
    && Sized(s) && OpenLog(s.vlog, s.dlog, s.len, s.len, |s.vmem|) && s.len + |es| < |s.vlog| && AllPlain(es, |s.vmem|)
    && i < |es| && !Covered(s.ddisk.table, es[i].addr)
  }

  function WriteEntries(s: State): seq<Entry>
    requires AtRecord(s)
  {
    AllEntries(s.vmem, BlockOf(s.pc.acts[0].addr), s.pc.acts[0].addr + |s.pc.acts[0].data|)
  }

  lemma MixedFacts(cf: Config, s: State)
    requires Inv(cf, s) && AtMixedWrite(s)
    ensures OpenLog(s.vlog, s.dlog, s.len, s.len, |s.vmem|) && s.pc.acts[0].data != [] && s.ddisk.table == s.vdisk.table
    ensures OpenTable(s.ddisk.table, s.regions, s.freshBytes, s.modified, BaseView(cf, s), |s.vmem|)
    ensures AllCovered(s.regions, s.pc.acts[0].addr, |s.pc.acts[0].data|)
  {
    assert InvRunning(cf, s, s.pc.acts);
  }

  lemma MixedEntry(cf: Config, s: State) returns (i: nat)
    requires Inv(cf, s) && AtMixedWrite(s)
    ensures LogsUnmanaged(s, WriteEntries(s), i)
  {
    var addr, data := s.pc.acts[0].addr, s.pc.acts[0].data;
    MixedFacts(cf, s);
    i := UnmanagedEntry(s.ddisk.table, s.regions, s.freshBytes, s.modified, BaseView(cf, s), s.vmem, addr, |data|);
  }

  lemma UnmanagedEntry(t: seq<Region>, regions: seq<Region>, bytes: set<nat>, modified: bool, v: View, mem: seq<Byte>,
                       addr: nat, len: nat) returns (i: nat)
    requires OpenTable(t, regions, bytes, modified, v, |mem|) && AllCovered(regions, addr, len) && 0 < len
    requires !NoneFresh(bytes, addr, len) && |mem| % 64 == 0 && addr + len <= |mem|
    ensures var es := AllEntries(mem, BlockOf(addr), addr + len);
      AllPlain(es, |mem|) && i < |es| && !Covered(t, es[i].addr)
  {
    var b := UnmanagedBlock(t, regions, bytes, modified, v, |mem|, addr, len);
    i := EntryFor(mem, BlockOf(addr), addr + len, b);
    EntriesPlain(mem, BlockOf(addr), addr + len);
  }

  /** undo_log_record puts a block into the log that the committed table lacks. */
  lemma MixedWriteLogged(cf: Config, s: State, i: nat) returns (steps: seq<Step>, e: State)
    requires AtMixedWrite(s) && LogsUnmanaged(s, WriteEntries(s), i)
    ensures Leads(cf, s, steps, e) && Sized(e) && e.cmds == s.cmds && !Manageable(e)
  {
    var es := WriteEntries(s);
    RecordedLog(s.vlog, s.dlog, s.len, es, s.lflush, |s.vmem|);
    MixedToRecord(s);
    var rest;
    rest, e := RecordedRuns(cf, BeginRecord(s), s.pc.acts[0].addr, |s.pc.acts[0].data|, es);
    LeadsStep(cf, s, Consume(StartRecord));
    LeadsBoth(cf, s, [Consume(StartRecord)], BeginRecord(s), rest, e);
    steps := [Consume(StartRecord)] + rest;
    assert e.dlog[s.len + i] == es[i];
  }

  lemma MixedToRecord(s: State)
    requires AtMixedWrite(s)
    ensures ToRecord(BeginRecord(s), s.pc.acts[0].addr, |s.pc.acts[0].data|, WriteEntries(s))
  {
  }

  /**
   * In every reachable state in front of a write that straddles committed and fresh memory: after
   * its undo_log_record a crash leaves an entry that the recovered table does not manage, and no
   * run of recovery's steps gets past it.
   */
  lemma MixedWriteAborts(cf: Config, s: State) returns (steps: seq<Step>, e: State)
    requires Inv(cf, s) && AtMixedWrite(s)
    ensures Leads(cf, s, steps, e) && e.cmds == s.cmds && !Manageable(e)
    ensures forall rec, r :: RecoveryOnly(rec) && Leads(cf, CrashState(e), rec, r) ==> r.pc != Ready
  {
    var i := MixedEntry(cf, s);
    steps, e := MixedWriteLogged(cf, s, i);
    forall rec, r | RecoveryOnly(rec) && Leads(cf, CrashState(e), rec, r)
      ensures r.pc != Ready
    {
      NeverReady(cf, e, rec, r);
    }
  }

  // ---- A concrete command ------------------------------------------------------------------------------

  /** Maps 32 bytes next to the managed ones and writes across the boundary. */
  const Straddle: seq<Action> := [Mmap(64, 32), Write(56, [1, 1, 1, 1, 1, 1, 1, 1, 1, 1, 1, 1, 1, 1, 1, 1])]

  const Straddler: Config := Config((c: Cmd, v: View) => Straddle, map a | a in Span(32, 32) :: 0)

  lemma StraddlerInitial(n: nat)
    requires 4 <= n
    ensures Initial(Straddler, FreshStart(128, Region(32, 32), n))
  {
    var v := ViewOf(Zeros(128), [Region(32, 32)]);
    forall a: nat
      ensures a in v <==> a in Straddler.init
    {
      OneRegion(Region(32, 32), a);
    }
    assert v == Straddler.init;
  }

  lemma StraddleGood()
    ensures GoodActs(Straddle, [Region(32, 32)], 128)
  {
    var t, r := [Region(32, 32)], Region(64, 32);
    forall a: nat
      ensures Covered(t, a) <==> 32 <= a < 64
      ensures Covered(t + [r], a) <==> 32 <= a < 96
    {
      OneRegion(Region(32, 32), a);
      CoveredAppend(t, r, a);
    }
    assert [r][0] == r;
    assert Straddle[1..] == [Straddle[1]] && Straddle[1..][1..] == [];
  }

  /** The command up to its write. */
  lemma StraddlerStarts(n: nat, c: Cmd) returns (steps: seq<Step>, e: State)
    requires 6 <= n
    ensures Leads(Straddler, FreshStart(128, Region(32, 32), n), steps, e) && e.cmds == [c] && AtMixedWrite(e)
  {
    var s := FreshStart(128, Region(32, 32), n);
    StraddleGood();
    LeadsStep(Straddler, s, Produce(c));
    var s1 := s.(cmds := [] + [c]);
    LeadsOn(Straddler, s, [Produce(c)], s1, Consume(Begin));
    var s2 := s1.(pc := Running(Straddle));
    steps := [Produce(c)] + [Consume(Begin)];
    LeadsOn(Straddler, s, steps, s2, Consume(MapFresh));
    steps, e := steps + [Consume(MapFresh)], After(Straddler, s2, Consume(MapFresh));
    assert 56 !in e.freshBytes && 64 in e.freshBytes;
    var mem := e.vmem;
    AllEntriesNext(mem, 32, 72);
    AllEntriesNext(mem, 64, 72);
    assert NewEntries(mem, 96, 72, {}) == [];
  }

  /** A concrete run, whatever the size of the log: a crash after the first command's record is fatal. */
  lemma StraddlerAborts(n: nat, c: Cmd) returns (steps: seq<Step>, e: State)
    requires 6 <= n
    ensures Initial(Straddler, FreshStart(128, Region(32, 32), n))
    ensures Leads(Straddler, FreshStart(128, Region(32, 32), n), steps, e) && e.cmds == [c] && !Manageable(e)
    ensures forall rec, r :: RecoveryOnly(rec) && Leads(Straddler, CrashState(e), rec, r) ==> r.pc != Ready
  {
    var s0 := FreshStart(128, Region(32, 32), n);
    StraddlerInitial(n);
    var a, s := StraddlerStarts(n, c);
    Durability.InitialInv(Straddler, s0);
    RunInv(Straddler, s0, a);
    var b;
    b, e := MixedWriteAborts(Straddler, s);
    LeadsBoth(Straddler, s0, a, s, b, e);
    steps := a + b;
  }
}
