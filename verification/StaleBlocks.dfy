/**
 * A run in which a stale undo-log entry overwrites committed memory: two commands are interrupted
 * as one batch, recovered, and executed again as batches of their own, whose entries do not reach
 * the stale one; the entries of a third command do.
 */
module StaleBlocks {
  import opened Bytes
  import opened Options
  import opened UndoEntries
  import opened Application
  import opened Protocol
  import opened Runs
  import opened Recovery
  import opened Batches
  import opened Limits
  import opened StaleEntries

  // ---- A whole batch ---------------------------------------------------------------------------------

  /** The state at rest after a command of one write. */
  function Finished(s: State, w: Action): State
    requires w.Write? && |EntriesOf(s.vmem, w)| < |s.vlog| && w.addr + |w.data| <= |s.vmem|
  {
    var now, log, tail := Store(s.vmem, w.addr, w.data), Cleared(s.vlog, 0, |EntriesOf(s.vmem, w)| + 1), s.tail + 1;
    s.(vmem := now, dmem := now, vlog := log, dlog := log, vtail := tail, dtail := tail, ptail := tail, tail := tail,
       base := tail)
  }

  lemma ClearedCommit(s: State, w: Action)
    requires w.Write? && |EntriesOf(s.vmem, w)| < |s.vlog|
    ensures Cleared(CommitLog(s, w), 0, |EntriesOf(s.vmem, w)| + 1) == Cleared(s.vlog, 0, |EntriesOf(s.vmem, w)| + 1)
  {
  }

  /** A batch of one write leaves the entries behind its own and its commit record as they were. */
  lemma BatchLeads(cf: Config, s: State, w: Action) returns (steps: seq<Step>)
    requires AtRest(s) && Next(cf, s, w)
    ensures Leads(cf, s, steps, Finished(s, w)) && AtRest(Finished(s, w))
  {
    var a := CommitLeads(cf, s, w);
    var s1 := Commits(s, w);
    var b := FinishLeads(cf, s1);
    var s2 := s1.(vtail := s1.tail, dtail := s1.tail, ptail := s1.tail, pc := Clearing(0, Cleanup));
    LeadsBoth(cf, s, a, s1, b, s2);
    var c := ClearAllLeads(cf, s2);
    ClearedCommit(s, w);
    LeadsBoth(cf, s, a + b, s2, c, Finished(s, w));
    steps := a + b + c;
  }

  // ---- The application -------------------------------------------------------------------------------

  function Fill(n: nat, x: Byte): (r: seq<Byte>)
    ensures |r| == n && forall i :: 0 <= i < n ==> r[i] == x
  {
    seq(n, i => x)
  }

  /** A command [b, n, x] sets the `n` blocks from block `b` on to `x`. */
  function Poke(c: Cmd, v: View): seq<Action> {
    if |c| == 3 then [PokeWrite(c)] else []
  }

  function PokeWrite(c: Cmd): Action
    requires |c| == 3
  {
    Write(Start(c), Fill(32 * Count(c), c[2]))
  }

  function Start(c: Cmd): nat
    requires |c| == 3
  {
    32 * (c[0] as int)
  }

  function Count(c: Cmd): nat
    requires |c| == 3
  {
    c[1] as int
  }

  /** The command sets some of blocks 1 to 4. */
  predicate InRange(c: Cmd) { |c| == 3 && 32 <= Start(c) && 0 < Count(c) && Start(c) + 32 * Count(c) <= 160 }

  /** Blocks 1 to 4 are managed. */
  const Managed: Region := Region(32, 128)

  const Poker: Config := Config(Poke, map a | a in Span(32, 128) :: 0)

  const First2: Cmd := [1, 2, 1]
  const Last2: Cmd := [3, 2, 1]
  const First3: Cmd := [1, 3, 2]
  const History: seq<Cmd> := [First2, Last2, First3]

  function PokerStart(n: nat): State { FreshStart(192, Managed, n) }

  lemma PokerInitial(n: nat)
    requires 8 <= n
    ensures Initial(Poker, PokerStart(n))
  {
    var v := ViewOf(Zeros(192), [Managed]);
    forall a: nat
      ensures a in v <==> a in Poker.init
    {
      OneRegion(Managed, a);
    }
    assert v == Poker.init;
  }

  lemma ManagedCovers(addr: nat, n: nat)
    requires 32 <= addr && addr + n <= 160
    ensures AllCovered([Managed], addr, n)
  {
    forall a: nat | addr <= a < addr + n
      ensures Covered([Managed], a)
    {
      OneRegion(Managed, a);
    }
  }

  /** Entry `i` of a write to whole blocks from `b` on saves the block at `b + 32 * i`. */
  ghost predicate SavesBlocks(es: seq<Entry>, mem: seq<Byte>, b: nat) {
    forall i :: 0 <= i < |es| ==> b + 32 * i + 32 <= |mem| && es[i] == BlockEntry(mem, b + 32 * i)
  }

  function BlockEntry(mem: seq<Byte>, b: nat): Entry
    requires b + 32 <= |mem|
  {
    Entry(mem[b..b + 32], b, 0)
  }

  lemma {:induction false} BlockEntries(mem: seq<Byte>, b: nat, n: nat)
    requires |mem| % 64 == 0 && OnBlock(b) && b + 32 * n <= |mem|
    ensures |AllEntries(mem, b, b + 32 * n)| == n && SavesBlocks(AllEntries(mem, b, b + 32 * n), mem, b)
    decreases n
  {
    if n > 0 {
      AllEntriesNext(mem, b, b + 32 * n);
      assert b + 32 + 32 * (n - 1) == b + 32 * n;
      BlockEntries(mem, b + 32, n - 1);
      SavesBlocksNext(AllEntries(mem, b + 32, b + 32 * n), mem, b);
    }
  }

  lemma SavesBlocksNext(rest: seq<Entry>, mem: seq<Byte>, b: nat)
    requires b + 32 <= |mem| && SavesBlocks(rest, mem, b + 32)
    ensures SavesBlocks([BlockEntry(mem, b)] + rest, mem, b)
  {
    var es := [BlockEntry(mem, b)] + rest;
    forall i | 0 <= i < |es|
      ensures b + 32 * i + 32 <= |mem| && es[i] == BlockEntry(mem, b + 32 * i)
    {
      if i > 0 {
        assert es[i] == rest[i - 1] == BlockEntry(mem, b + 32 + 32 * (i - 1));
      }
    }
  }

  lemma PokeEntries(mem: seq<Byte>, c: Cmd)
    requires InRange(c) && |mem| == 192
    ensures |EntriesOf(mem, PokeWrite(c))| == Count(c) && SavesBlocks(EntriesOf(mem, PokeWrite(c)), mem, Start(c))
  {
    assert BlockOf(Start(c)) == Start(c);
    BlockEntries(mem, Start(c), Count(c));
  }

  lemma PokeNext(s: State, c: Cmd)
    requires |s.vmem| == 192 && 8 <= |s.vlog| && s.regions == [Managed] && s.tail < |s.cmds| && s.cmds[s.tail] == c
    requires InRange(c)
    ensures Next(Poker, s, PokeWrite(c))
  {
    ManagedCovers(Start(c), 32 * Count(c));
    PokeEntries(s.vmem, c);
  }

  // ---- The interrupted batch -------------------------------------------------------------------------

  /** The commands arrive. */
  lemma Arrive(n: nat) returns (steps: seq<Step>)
    requires 8 <= n
    ensures Leads(Poker, PokerStart(n), steps, PokerStart(n).(cmds := History))
  {
    var s := PokerStart(n);
    LeadsStep(Poker, s, Produce(First2));
    LeadsOn(Poker, s, [Produce(First2)], s.(cmds := [] + [First2]), Produce(Last2));
    steps := [Produce(First2)] + [Produce(Last2)];
    LeadsOn(Poker, s, steps, s.(cmds := [] + [First2] + [Last2]), Produce(First3));
    steps := steps + [Produce(First3)];
    assert [] + [First2] + [Last2] + [First3] == History;
  }

  /** The second command of the batch starts to record its write. */
  lemma SecondBegins(s: State) returns (steps: seq<Step>)
    requires Sized(s) && s.pc == Ready && s.freshBytes == {} && |s.vmem| == 192 && s.regions == [Managed]
    requires s.cmds == History && s.tail == 1
    ensures Leads(Poker, s, steps, s.(pc := Recording([PokeWrite(Last2)], s.len, 96, 0)))
  {
    var w := PokeWrite(Last2);
    ManagedCovers(96, 64);
    assert [w][1..] == [];
    assert GoodActs([w], s.regions, |s.vmem|);
    var s1 := After(Poker, s, Consume(Begin));
    LeadsStep(Poker, s, Consume(Begin));
    assert w.addr !in s1.freshBytes;
    assert BlockOf(96) == 96;
    LeadsOn(Poker, s, [Consume(Begin)], s1, Consume(StartRecord));
    steps := [Consume(Begin)] + [Consume(StartRecord)];
  }

  /** Of the entries of the second command, only the last one becomes durable: slot 3, block 4. */
  lemma Interrupted(n: nat) returns (steps: seq<Step>, e: State)
    requires 8 <= n
    ensures Leads(Poker, PokerStart(n), steps, e) && Torn(e, n)
  {
    var s := PokerStart(n).(cmds := History);
    var a := Arrive(n);
    PokeNext(s, First2);
    var b := ExecuteLeads(Poker, s, PokeWrite(First2));
    var s1 := Executes(s, PokeWrite(First2));
    LeadsBoth(Poker, PokerStart(n), a, s, b, s1);
    var c := SecondBegins(s1);
    var s2 := s1.(pc := Recording([PokeWrite(Last2)], s1.len, 96, 0));
    LeadsBoth(Poker, PokerStart(n), a + b, s1, c, s2);
    PokeEntries(s.vmem, First2);
    var d;
    d, e := LastEvicted(n, s2);
    LeadsBoth(Poker, PokerStart(n), a + b + c, s2, d, e);
    steps := a + b + c + d;
  }

  /** What has reached persistent memory: nothing but the first command's entries and slot 3. */
  ghost predicate Torn(e: State, n: nat) {
    && Sized(e) && |e.dlog| == n && n >= 8 && e.dmem == Zeros(192) && e.cmds == History && e.dtail == 0
    && e.ddisk == Disk([Managed], None) && (forall i :: 0 <= i < n ==> |e.dlog[i].blk| == BLOCK)
    && e.dlog[0] == Entry(Zeros(32), 32, 0) && e.dlog[1] == Entry(Zeros(32), 64, 0)
    && e.dlog[3] == Entry(Zeros(32), 128, 0) && forall i :: 2 <= i < n && i != 3 ==> e.dlog[i] == NullEntry
  }

  lemma LastEvicted(n: nat, s: State) returns (steps: seq<Step>, e: State)
    requires Sized(s) && n >= 8 && |s.vlog| == n && s.vlog == s.dlog && s.len == 2 && |s.vmem| == 192
    requires s.pc == Recording([PokeWrite(Last2)], 2, 96, 0)
    requires s.dmem == Zeros(192) && s.vmem[128..160] == Zeros(32) && s.cmds == History && s.dtail == 0
    requires s.ddisk == Disk([Managed], None) && s.vlog[0] == Entry(Zeros(32), 32, 0)
    requires s.vlog[1] == Entry(Zeros(32), 64, 0)
    requires forall i :: 2 <= i < n ==> s.vlog[i] == NullEntry
    ensures Leads(Poker, s, steps, e) && Torn(e, n)
  {
    var es := EntriesOf(s.vmem, PokeWrite(Last2));
    PokeEntries(s.vmem, Last2);
    steps, e := SavedAndEvicted(s, es);
    EvictedLog(s.vlog, es);
    assert es[1] == BlockEntry(s.vmem, 96 + 32);
  }

  lemma SavedAndEvicted(s: State, es: seq<Entry>) returns (steps: seq<Step>, e: State)
    requires ToRecord(s, 96, 64, es)
    ensures Leads(Poker, s, steps, e) && Sized(e) && e.dmem == s.dmem && e.cmds == s.cmds && e.dtail == s.dtail
    ensures e.ddisk == s.ddisk && e.dlog == Mix(s.dlog, Spliced(s.vlog, s.len, es), {3})
  {
    var a := RecordLeads(Poker, s);
    var s1 := Saved(s, 160);
    var st := Env(Evict({}, {3}, false));
    LeadsOn(Poker, s, a, s1, st);
    steps, e := a + [st], After(Poker, s1, st);
    assert Mix(s.dmem, s.vmem, {}) == s.dmem;
  }

  lemma EvictedLog(log: seq<Entry>, es: seq<Entry>)
    requires |es| == 2 && |log| >= 8
    ensures var log' := Mix(log, Spliced(log, 2, es), {3});
      log'[3] == es[1] && forall i :: 0 <= i < |log| && i != 3 ==> log'[i] == log[i]
  {
  }

  // ---- Recovery and re-execution -----------------------------------------------------------------------

  /** Zeros roll back to zeros. */
  lemma ZerosRollBack(n: nat, es: seq<Entry>)
    requires AllPlain(es, n) && forall i :: 0 <= i < |es| ==> es[i].blk == Zeros(32)
    ensures Rollback(Zeros(n), es) == Zeros(n)
  {
    forall a: nat | a < n
      ensures Rollback(Zeros(n), es)[a] == 0
    {
      RollbackRestores(Zeros(n), es, a, 0);
    }
  }

  /** At rest with `mem`, `tail` commands done, and the stale entry for block 4 in slot 3. */
  ghost predicate Dirty(r: State, n: nat, mem: seq<Byte>, tail: nat) {
    && AtRest(r) && |r.vlog| == n && n >= 8 && |mem| == 192 && r.vmem == mem && r.cmds == History && r.tail == tail
    && r.regions == [Managed] && r.vlog[3] == Entry(Zeros(32), 128, 0) && r.vlog[4] == NullEntry
  }

  lemma TornRecovers(n: nat, e: State) returns (steps: seq<Step>)
    requires Torn(e, n)
    ensures CanRollBack(e) && Leads(Poker, CrashState(e), steps, Recovered(e)) && Dirty(Recovered(e), n, Zeros(192), 0)
  {
    ScanIs(e.dlog, 2);
    ZerosRollBack(192, e.dlog[..2]);
    forall i | 0 <= i < 2
      ensures Covered([Managed], e.dlog[i].addr)
    {
      OneRegion(Managed, e.dlog[i].addr);
    }
    steps := RollbackBranch(Poker, e);
  }

  /** A batch of two blocks does not touch the stale entry. */
  lemma DirtyBatch(n: nat, r: State, mem: seq<Byte>, tail: nat, c: Cmd) returns (steps: seq<Step>, r': State)
    requires Dirty(r, n, mem, tail) && tail < 3 && History[tail] == c
    requires InRange(c) && Count(c) == 2
    ensures Leads(Poker, r, steps, r') && Dirty(r', n, Store(mem, Start(c), Fill(64, c[2])), tail + 1)
  {
    PokeNext(r, c);
    PokeEntries(r.vmem, c);
    steps := BatchLeads(Poker, r, PokeWrite(c));
    r' := Finished(r, PokeWrite(c));
  }

  /** The third command saves three blocks, next to the stale entry, and is interrupted. */
  lemma ThirdCorrupts(n: nat, r: State, mem: seq<Byte>) returns (steps: seq<Step>, e: State)
    requires Dirty(r, n, mem, 2)
    ensures Leads(Poker, r, steps, e) && e.cmds == History && e.ddisk == Disk([Managed], None)
    ensures !Accepts(e.dlog) && CanRollBack(e) && RecTail(e) == 2 && |RecMem(e)| == 192 && RecMem(e)[128] == 0
  {
    var w := PokeWrite(First3);
    PokeNext(r, First3);
    PokeEntries(r.vmem, First3);
    var a := BeginLeads(Poker, r, w);
    assert BlockOf(32) == 32 && BlockOf(128) == 128;
    var s := r.(pc := Recording([w], 0, 32, 0));
    var b;
    b, e := StaleEntryCorrupts(Poker, s, w, EntriesOf(r.vmem, w), 128);
    LeadsBoth(Poker, r, a, s, b, e);
    steps := a + b;
  }

  lemma PokeExecutes(v: View, c: Cmd)
    requires |c| == 3
    ensures Execute(Poker, v, c) == Act(v, PokeWrite(c))
  {
    var w := PokeWrite(c);
    assert [w][1..] == [];
    assert ActAll(v, [w]) == ActAll(Act(v, w), []);
  }

  lemma PokeFold()
    ensures 128 in Fold(Poker, History[..2]) && Fold(Poker, History[..2])[128] == 1
  {
    var v := Poker.init;
    assert History[..0] == [];
    FoldNext(Poker, History, 0);
    FoldNext(Poker, History, 1);
    PokeExecutes(v, First2);
    PokeExecutes(Act(v, PokeWrite(First2)), Last2);
    assert 128 in v;
  }

  /**
   * A concrete run: a crash leaves an entry for block 4 in slot 3; recovery does not clear it; both
   * commands of the interrupted batch then commit, the second one changing block 4; and a crash in
   * the third command, before it has written anything, rolls block 4 back.
   */
  lemma CommittedBlockLost(n: nat) returns (before: seq<Step>, s: State, after: seq<Step>, e: State)
    requires 8 <= n
    ensures Initial(Poker, PokerStart(n)) && Leads(Poker, PokerStart(n), before, s)
    ensures Leads(Poker, CrashState(s), after, e) && e.cmds == History
    ensures !Accepts(e.dlog) && CanRollBack(e) && RecTail(e) == 2
    ensures 128 in RecView(e) && 128 in Fold(Poker, e.cmds[..2]) && RecView(e)[128] != Fold(Poker, e.cmds[..2])[128]
  {
    PokerInitial(n);
    before, s := Interrupted(n);
    var a := TornRecovers(n, s);
    var r0 := Recovered(s);
    var b, r1 := DirtyBatch(n, r0, Zeros(192), 0, First2);
    LeadsBoth(Poker, CrashState(s), a, r0, b, r1);
    var c, r2 := DirtyBatch(n, r1, r1.vmem, 1, Last2);
    LeadsBoth(Poker, CrashState(s), a + b, r1, c, r2);
    var d;
    d, e := ThirdCorrupts(n, r2, r2.vmem);
    LeadsBoth(Poker, CrashState(s), a + b + c, r2, d, e);
    after := a + b + c + d;
    PokeFold();
    OneRegion(Managed, 128);
  }
}
