/**
 * Where the protocol's guarantee ends: the recovery window in which a second crash makes commands
 * run twice.
 */
module Limits {
  import opened Bytes
  import opened Options
  import opened UndoEntries
  import opened Application
  import opened Protocol
  import opened ProtocolInvariant
  import opened Durability
  import opened RecoverSteps
  import opened Runs
  import opened Recovery
  import opened Batches

  // ---- The recovered tail is not durable -----------------------------------------------------------

  /** A crash right after the commit record is durable. */
  lemma CommittedCrash(cf: Config, s: State)
    requires Inv(cf, s) && s.pc == TailPending(false)
    ensures Enabled(cf, s, Crash) && Accepts(s.dlog) && s.dtail == s.base
    ensures CrashState(s).tail == s.tail
  {
    assert InvCommitted(cf, s);
    CommittedDurable(s.vlog, s.dlog, s.len, s.tail, |s.vmem|);
    ScanCommitted(s.dlog, s.len, s.tail, |s.vmem|);
  }

  /** Recovery up to the point at which the log is clear and the tail is not yet stored. */
  lemma ClearedLeads(cf: Config, s: State) returns (steps: seq<Step>, e: State)
    requires Sized(s) && Accepts(s.dlog)
    ensures Leads(cf, CrashState(s), steps, e)
    ensures e.pc == TailPending(true) && e.cmds == s.cmds && e.tail == RecTail(s) && e.dtail == e.base == s.dtail
    ensures !Accepts(e.dlog)
  {
    var c := CrashState(s);
    var a := AcceptLeads(cf, s);
    var s1 := c.(len := Scan(s.dlog), vdisk := RenameNew(s.ddisk), ddisk := RenameNew(s.ddisk),
                 regions := RecTable(s), pc := Clearing(0, RecoverCommit));
    var b := ClearAllLeads(cf, s1);
    LeadsBoth(cf, c, a, s1, b, ClearDone(s1));
    steps, e := a + b, ClearDone(s1);
    ScanIs(e.dlog, 0);
  }

  /**
   * From every state in which a batch has just committed, a crash, a recovery and a second crash
   * right after recovery has cleared the log lose the batch's tail: the recovered memory includes
   * the batch but the recovered tail is the one before it.
   */
  lemma TailWindowReachable(cf: Config, s: State) returns (steps: seq<Step>, e: State)
    requires Inv(cf, s) && s.pc == TailPending(false) && s.base < s.tail
    ensures Leads(cf, s, steps, e)
    ensures TailLost(e) && e.cmds == s.cmds && e.tail == s.tail && e.dtail == s.base
  {
    CommittedCrash(cf, s);
    LeadsStep(cf, s, Crash);
    var rest;
    rest, e := ClearedLeads(cf, s);
    LeadsBoth(cf, s, [Crash], CrashState(s), rest, e);
    steps := [Crash] + rest;
  }

  // ---- A counter that counts one command twice -------------------------------------------------------

  /** Each command adds one to the byte at address 32. */
  function Increment(c: Cmd, v: View): seq<Action> {
    if 32 in v then [Write(32, [if v[32] < 255 then v[32] + 1 else 0])] else []
  }

  function CounterView(n: Byte): View { map a | a in Span(32, 32) :: if a == 32 then n else 0 }

  const Counter: Config := Config(Increment, CounterView(0))

  function NullLog(n: nat): (log: seq<Entry>)
    ensures |log| == n && forall i :: 0 <= i < n ==> log[i] == NullEntry
  {
    seq(n, i => NullEntry)
  }

  /** A first start on zeroed memory of `size` bytes with one region, and an undo log of `n` entries. */
  function FreshStart(size: nat, r: Region, n: nat): State {
    var disk := Disk([r], None);
    State(Zeros(size), Zeros(size), {}, NullLog(n), NullLog(n), {}, 0, 0, false, disk, disk, 0, {}, [r], false,
          0, 0, [], 0, Ready)
  }

  function CounterStart(n: nat): State { FreshStart(64, Region(32, 32), n) }

  lemma OneRegion(r: Region, a: nat)
    ensures Covered([r], a) <==> Within(r, a)
  {
    assert [r][0] == r;
  }

  lemma CounterInitial(n: nat)
    requires 4 <= n
    ensures Initial(Counter, CounterStart(n))
  {
    var s := CounterStart(n);
    var v := ViewOf(s.vmem, s.regions);
    forall a: nat
      ensures a in v <==> a in CounterView(0)
    {
      OneRegion(Region(32, 32), a);
    }
    assert v == CounterView(0);
  }

  lemma IncrementView(n: Byte, c: Cmd)
    requires n < 255
    ensures Execute(Counter, CounterView(n), c) == CounterView(n + 1)
  {
    var v := CounterView(n);
    var w := Write(32, [n + 1]);
    assert 32 in v && Increment(c, v) == [w];
    assert [w][1..] == [];
    assert ActAll(v, [w]) == ActAll(Act(v, w), []);
    assert Act(v, w) == CounterView(n + 1);
  }

  /** The entry for the counter's block. */
  lemma CounterEntries(mem: seq<Byte>, x: Byte)
    requires |mem| == 64
    ensures EntriesOf(mem, Write(32, [x])) == [Entry(mem[32..64], 32, 0)]
  {
    assert BlockOf(32) == 32;
    assert NewEntries(mem, 64, 33, {}) == [];
  }

  /** A counter at rest takes the next increment as its next command. */
  lemma CounterNext(s: State, n: Byte)
    requires AtRest(s) && |s.vmem| == 64 && 4 <= |s.vlog| && s.tail < |s.cmds| && n < 255
    requires ViewOf(s.vmem, s.regions) == CounterView(n)
    ensures Next(Counter, s, Write(32, [n + 1]))
  {
    var v := ViewOf(s.vmem, s.regions);
    assert 32 in v && v[32] == n;
    CounterEntries(s.vmem, n + 1);
  }

  /** The state after the first command has arrived. */
  lemma CounterArrives(n: nat, c: Cmd)
    requires 4 <= n
    ensures Leads(Counter, CounterStart(n), [Produce(c)], CounterStart(n).(cmds := [c]))
    ensures Next(Counter, CounterStart(n).(cmds := [c]), Write(32, [1]))
  {
    CounterInitial(n);
    LeadsStep(Counter, CounterStart(n), Produce(c));
    assert [] + [c] == [c];
    CounterNext(CounterStart(n).(cmds := [c]), 0);
  }

  /** One committed increment. */
  lemma CounterCommits(n: nat, c: Cmd) returns (steps: seq<Step>, e: State)
    requires 4 <= n
    ensures Leads(Counter, CounterStart(n), steps, e) && Inv(Counter, e)
    ensures Next(Counter, CounterStart(n).(cmds := [c]), Write(32, [1]))
    ensures e == Commits(CounterStart(n).(cmds := [c]), Write(32, [1]))
  {
    var s := CounterStart(n).(cmds := [c]);
    CounterArrives(n, c);
    var a := CommitLeads(Counter, s, Write(32, [1]));
    e := Commits(s, Write(32, [1]));
    LeadsBoth(Counter, CounterStart(n), [Produce(c)], s, a, e);
    steps := [Produce(c)] + a;
    CounterInitial(n);
    Durability.InitialInv(Counter, CounterStart(n));
    RunInv(Counter, CounterStart(n), steps);
  }

  /**
   * A concrete run with two crashes after which recovery and replay execute the only committed
   * command twice, whatever the size of the undo log: the counter ends at 2 although the history
   * has one increment.
   */
  lemma CounterRunsTwice(n: nat, c: Cmd) returns (steps: seq<Step>, e: State)
    requires 4 <= n
    ensures Initial(Counter, CounterStart(n)) && Leads(Counter, CounterStart(n), steps, e)
    ensures e.cmds == [c] && CanRollBack(e) && RecTail(e) == 0
    ensures Replay(Counter, RecView(e), e.cmds[RecTail(e)..]) == CounterView(2)
    ensures Fold(Counter, e.cmds) == CounterView(1) != CounterView(2)
  {
    CounterInitial(n);
    var a, s := CounterCommits(n, c);
    var b;
    b, e := TailWindowReachable(Counter, s);
    LeadsBoth(Counter, CounterStart(n), a, s, b, e);
    steps := a + b;
    LostView(Counter, CounterStart(n), steps, e);
    assert e.cmds[..1] == [c] && e.cmds[0..] == [c];
    CounterEnds(c, e.cmds, RecView(e));
  }

  lemma LostView(cf: Config, s0: State, steps: seq<Step>, e: State)
    requires Initial(cf, s0) && Leads(cf, s0, steps, e) && TailLost(e)
    ensures CanRollBack(e) && RecTail(e) == e.dtail < e.tail <= |e.cmds| && RecView(e) == Fold(cf, e.cmds[..e.tail])
  {
    ExactlyOnce(cf, s0, steps);
  }

  lemma ReplayOne(v: View, c: Cmd)
    ensures Replay(Counter, v, [c]) == Execute(Counter, v, c)
  {
    assert [c][..0] == [];
  }

  lemma CounterEnds(c: Cmd, cs: seq<Cmd>, v: View)
    requires cs == [c] && v == Fold(Counter, [c])
    ensures Fold(Counter, cs) == CounterView(1) != CounterView(2)
    ensures Replay(Counter, v, cs) == CounterView(2)
  {
    ReplayOne(CounterView(0), c);
    ReplayOne(CounterView(1), c);
    IncrementView(0, c);
    IncrementView(1, c);
    assert 32 in CounterView(1) && CounterView(1)[32] == 1 && 32 in CounterView(2) && CounterView(2)[32] == 2;
  }
}
