/**
 * What the memory system may do, and what it does not do by itself: the adversary that the theorems
 * about runs are up against.
 */
module MemoryModel {
  import opened Bytes
  import opened UndoEntries
  import opened Application
  import opened Protocol
  import opened ProtocolInvariant
  import opened ClearOrder
  import opened Options
  import Ring
  import W = WholeSystem

  // ---- Anything may persist ------------------------------------------------------------------------------

  /** Every byte, entry and tail is the durable or the volatile one. */
  ghost predicate Mixture(s: State, mem: seq<Byte>, log: seq<Entry>, tail: nat) {
    && |mem| == |s.vmem| == |s.dmem| && |log| == |s.vlog| == |s.dlog|
    && (forall a :: 0 <= a < |mem| ==> mem[a] == s.dmem[a] || mem[a] == s.vmem[a])
    && (forall k :: 0 <= k < |log| ==> log[k] == s.dlog[k] || log[k] == s.vlog[k])
    && (tail == s.dtail || tail == s.vtail)
  }

  /** Except in the clear of a committed log, any mixture of old and new may be durable next. */
  lemma EveryMixture(cf: Config, s: State, mem: seq<Byte>, log: seq<Entry>, tail: nat)
    requires s.pc != Down && !ClearsCommitted(s.pc) && Mixture(s, mem, log, tail)
    ensures exists st: Step :: Enabled(cf, s, st) && After(cf, s, st) == s.(dmem := mem, dlog := log, dtail := tail)
  {
    var bytes, entries := NewOnes(mem, s.vmem), NewOnes(log, s.vlog);
    var st := Env(Evict(bytes, entries, tail == s.vtail));
    assert Mix(s.dmem, s.vmem, bytes) == mem;
    assert Mix(s.dlog, s.vlog, entries) == log;
    assert Enabled(cf, s, st) && After(cf, s, st) == s.(dmem := mem, dlog := log, dtail := tail);
  }

  /** Where two sequences agree. */
  function NewOnes<T(==)>(now: seq<T>, v: seq<T>): set<nat>
    requires |now| == |v|
  {
    set k: nat | k < |now| && now[k] == v[k]
  }

  /** Any mixture of old and new bytes of the log of commands may be durable next. */
  lemma EveryLogMixture(f: seq<Byte> -> nat, r: Ring.State, buf: seq<Byte>)
    requires Ring.CanStep(f, r, Ring.EvictHead) && |buf| == Ring.SIZE
    requires forall o :: 0 <= o < |buf| ==> buf[o] == r.dbuf[o] || buf[o] == r.vbuf[o]
    ensures exists st: Ring.Step :: Ring.CanStep(f, r, st) && Ring.DoStep(f, r, st) == r.(dbuf := buf)
  {
    var st := Ring.EvictBuf(NewOnes(buf, r.vbuf));
    assert Mix(r.dbuf, r.vbuf, NewOnes(buf, r.vbuf)) == buf;
    assert Ring.CanStep(f, r, st) && Ring.DoStep(f, r, st) == r.(dbuf := buf);
  }

  /** The table files may become durable as far as they are written: all at once, or the new table row by row. */
  lemma EveryFilePrefix(cf: Config, s: State, rows: nat)
    requires Sized(s)
    ensures exists st: Step :: Enabled(cf, s, st) && After(cf, s, st) == s.(ddisk := s.vdisk)
    ensures s.vdisk.newTable.Some? && s.ddisk == Disk(s.vdisk.table, None) && rows <= |s.vdisk.newTable.value| ==>
              exists st: Step :: Enabled(cf, s, st)
                && After(cf, s, st) == s.(ddisk := s.ddisk.(newTable := Some(s.vdisk.newTable.value[..rows])))
  {
    var all, some := Env(SyncDisk), Env(SyncFile(rows));
    assert Enabled(cf, s, all) && After(cf, s, all) == s.(ddisk := s.vdisk);
    if s.vdisk.newTable.Some? && s.ddisk == Disk(s.vdisk.table, None) && rows <= |s.vdisk.newTable.value| {
      assert Enabled(cf, s, some);
      assert After(cf, s, some) == s.(ddisk := s.ddisk.(newTable := Some(s.vdisk.newTable.value[..rows])));
    }
  }

  // ---- A crash leaves only what is durable -----------------------------------------------------------------

  /** Both systems have the same in persistent memory and in their files. */
  ghost predicate SameDurable(s: W.State, t: W.State) {
    && s.u.dmem == t.u.dmem && s.u.dlog == t.u.dlog && s.u.dtail == t.u.dtail && s.u.ddisk == t.u.ddisk
    && s.r.dbuf == t.r.dbuf && s.r.dhead == t.r.dhead && s.u.cmds == t.u.cmds
    && s.r.dhead <= |s.r.slots| && t.r.dhead <= |t.r.slots| && s.r.slots[..s.r.dhead] == t.r.slots[..s.r.dhead]
  }

  /** Whatever else two systems had, after a crash they go on from the same state. */
  lemma CrashForgets(cf: Config, f: seq<Byte> -> nat, s: W.State, t: W.State)
    requires SameDurable(s, t) && W.Enabled(cf, f, s, W.CrashAll) && W.Enabled(cf, f, t, W.CrashAll)
    ensures W.After(cf, f, s, W.CrashAll) == W.After(cf, f, t, W.CrashAll)
  {
  }

  // ---- Orders in which the clear persists ------------------------------------------------------------------

  /** The entries that the clear has been through are zero to loads. */
  ghost predicate InClear(s: State) {
    Sized(s) && s.pc.Clearing? && s.pc.i <= |s.vlog| && forall k :: 0 <= k < s.pc.i ==> s.vlog[k] == NullEntry
  }

  lemma ClearingFacts(cf: Config, s: State)
    requires Inv(cf, s) && s.pc.Clearing?
    ensures InClear(s)
  {
  }

  /** The orders of the clear's zeros within which the protocol runs. */
  ghost predicate Allowed(s: State, heads: set<nat>, blks: set<nat>) {
    && Sized(s) && s.pc.Clearing? && Below(heads, s.pc.i) && Below(blks, s.pc.i)
    && (ClearsCommitted(s.pc) ==> heads == {} || 0 in heads || (|s.dlog| > 0 && IsNull(s.dlog[0])))
    && (s.pc.why == RecoverUndo ==> BehindScan(s, heads, blks))
  }

  /** The blocks are those of entries that the scan does not reach once `heads` are zero. */
  ghost predicate BehindScan(s: State, heads: set<nat>, blks: set<nat>)
    requires Sized(s)
  {
    forall k: nat {:trigger Unfold(k)} :: Unfold(k) && k in blks ==> Scan(TornClear(s, heads, {}).dlog) <= k
  }

  /** Holds always; see Reaches. */
  ghost predicate Unfold(k: nat) { k >= 0 }

  /** A run leads from `s` to `t`. The body is expanded only where `Unfold(0)` is mentioned. */
  ghost predicate Reaches(cf: Config, s: State, t: State) {
    forall k: nat {:trigger Unfold(k)} :: Unfold(k) ==> exists run :: IsRun(cf, s, run) && End(cf, s, run) == t
  }

  /** All of them do occur: each leads to a state of a run. */
  lemma EveryClearOrder(cf: Config, s: State, heads: set<nat>, blks: set<nat>)
    requires Inv(cf, s) && Allowed(s, heads, blks)
    ensures Reaches(cf, s, TornClear(s, heads, blks))
  {
    ClearingFacts(cf, s);
    ReachHeads(cf, s, heads, s.pc.i);
    assert Upto(heads, s.pc.i) == heads && Upto(blks, s.pc.i) == blks;
    ReachBlocks(cf, s, heads, blks, s.pc.i);
  }

  function Upto(these: set<nat>, n: nat): set<nat> { set k | k in these && k < n }

  lemma UptoSkips(these: set<nat>, n: nat)
    requires 0 < n && n - 1 !in these
    ensures Upto(these, n) == Upto(these, n - 1)
  {
  }

  lemma UptoNone(these: set<nat>)
    ensures Upto(these, 0) == {}
  {
  }

  lemma {:induction false} ReachHeads(cf: Config, s: State, heads: set<nat>, n: nat)
    requires InClear(s) && Allowed(s, heads, {}) && n <= s.pc.i
    ensures Reaches(cf, s, TornClear(s, Upto(heads, n), {}))
  {
    if n == 0 {
      NothingYet(s, heads);
      assert IsRun(cf, s, []) && End(cf, s, []) == s;
    } else {
      ReachHeads(cf, s, heads, n - 1);
      if n - 1 in heads {
        HeadStep(cf, s, heads, n - 1);
      } else {
        UptoSkips(heads, n);
      }
    }
  }

  lemma NothingYet(s: State, heads: set<nat>)
    requires Sized(s)
    ensures TornClear(s, Upto(heads, 0), {}) == s
  {
    assert Persisted(s.dlog, s.vlog, Upto(heads, 0), {}) == s.dlog;
  }

  lemma HeadStep(cf: Config, s: State, heads: set<nat>, k: nat)
    requires InClear(s) && Allowed(s, heads, {}) && k < s.pc.i && k in heads
    requires Reaches(cf, s, TornClear(s, Upto(heads, k), {}))
    ensures Reaches(cf, s, TornClear(s, Upto(heads, k + 1), {}))
  {
    var t := TornClear(s, Upto(heads, k), {});
    ReachHalf(cf, s, t, k, true);
    assert t.dlog[k := HalfEntry(t.dlog[k], t.vlog[k], true)] == TornClear(s, Upto(heads, k + 1), {}).dlog;
  }

  lemma {:induction false} ReachBlocks(cf: Config, s: State, heads: set<nat>, blks: set<nat>, n: nat)
    requires InClear(s) && Allowed(s, heads, blks) && n <= s.pc.i && Reaches(cf, s, TornClear(s, heads, {}))
    ensures Reaches(cf, s, TornClear(s, heads, Upto(blks, n)))
  {
    if n == 0 {
      UptoNone(blks);
    } else {
      ReachBlocks(cf, s, heads, blks, n - 1);
      if n - 1 in blks {
        BlockStep(cf, s, heads, blks, n - 1);
      } else {
        UptoSkips(blks, n);
      }
    }
  }

  lemma BlockStep(cf: Config, s: State, heads: set<nat>, blks: set<nat>, k: nat)
    requires InClear(s) && Allowed(s, heads, blks) && k < s.pc.i && k in blks
    requires Reaches(cf, s, TornClear(s, heads, Upto(blks, k)))
    ensures Reaches(cf, s, TornClear(s, heads, Upto(blks, k + 1)))
  {
    var t := TornClear(s, heads, Upto(blks, k));
    SameScan(t.dlog, TornClear(s, heads, {}).dlog);
    if s.pc.why == RecoverUndo {
      BlockBehind(s, heads, blks, k);
    }
    ReachHalf(cf, s, t, k, false);
    assert t.dlog[k := HalfEntry(t.dlog[k], t.vlog[k], false)] == TornClear(s, heads, Upto(blks, k + 1)).dlog;
  }

  lemma BlockBehind(s: State, heads: set<nat>, blks: set<nat>, k: nat)
    requires Sized(s) && BehindScan(s, heads, blks) && k in blks
    ensures Scan(TornClear(s, heads, {}).dlog) <= k
  {
    assert Unfold(k);
  }

  lemma ReachHalf(cf: Config, s: State, t: State, k: nat, head: bool)
    requires Reaches(cf, s, t) && Sized(t) && CanEvictHalf(t, k, head)
    ensures Reaches(cf, s, t.(dlog := t.dlog[k := HalfEntry(t.dlog[k], t.vlog[k], head)]))
  {
    assert Unfold(0);
    var run :| IsRun(cf, s, run) && End(cf, s, run) == t;
    var st := Env(EvictHalf(k, head));
    RunAppend(cf, s, run, st);
    assert IsRun(cf, s, run + [st]) && End(cf, s, run + [st]) == After(cf, t, st);
  }

  /** The scan does not look at the saved blocks. */
  lemma SameScan(log: seq<Entry>, d: seq<Entry>)
    requires |log| == |d| && forall k :: 0 <= k < |d| ==> IsNull(log[k]) == IsNull(d[k])
    ensures Scan(log) == Scan(d)
  {
    ScanIs(log, Scan(d));
  }

  // ---- Nothing persists for certain without a flush --------------------------------------------------------

  /** Not eviction or a crash, no flush of `line`, and no new memory. */
  predicate Leaves(st: Step, line: nat) {
    !st.Env? && !st.Crash? && st != Commit(FlushLine(line)) && st != Recover(Undo) && st != Consume(MapFresh)
  }

  /** Byte `a` is no more durable in `t` than in `s`, and its line is not flushed. */
  ghost predicate NotFlushed(s: State, t: State, a: nat) {
    a < |s.dmem| == |t.dmem| && t.dmem[a] == s.dmem[a] && LineOf(a) !in t.mflush
  }

  /** A byte whose line is not flushed does not become durable, however often the code drains. */
  lemma {:induction false} NeedsFlush(cf: Config, s: State, run: seq<Step>, a: nat)
    requires IsRun(cf, s, run) && a < |s.dmem| && LineOf(a) !in s.mflush
    requires forall i :: 0 <= i < |run| ==> Leaves(run[i], LineOf(a))
    ensures NotFlushed(s, End(cf, s, run), a)
    decreases |run|
  {
    if run != [] {
      assert Leaves(run[0], LineOf(a));
      StepNeedsFlush(cf, s, run[0], a);
      NeedsFlush(cf, After(cf, s, run[0]), run[1..], a);
    }
  }

  lemma StepNeedsFlush(cf: Config, s: State, st: Step, a: nat)
    requires Enabled(cf, s, st) && a < |s.dmem| && LineOf(a) !in s.mflush && Leaves(st, LineOf(a))
    ensures NotFlushed(s, After(cf, s, st), a)
  {
    match st
    case Produce(c) =>
    case Consume(c) => ConsumeNeedsFlush(cf, s, c, a);
    case Commit(c) => CommitNeedsFlush(s, c, a);
    case Finish(f) => FinishNeedsFlush(s, f, a);
    case Recover(r) => RecoverNeedsFlush(s, r, a);
  }

  lemma ConsumeNeedsFlush(cf: Config, s: State, st: ConsumeStep, a: nat)
    requires Sized(s) && CanConsume(cf, s, st) && a < |s.dmem| && LineOf(a) !in s.mflush && st != MapFresh
    ensures NotFlushed(s, DoConsume(cf, s, st), a)
  {
  }

  lemma CommitNeedsFlush(s: State, st: CommitStep, a: nat)
    requires Sized(s) && CanCommit(s, st) && a < |s.dmem| && LineOf(a) !in s.mflush && st != FlushLine(LineOf(a))
    ensures NotFlushed(s, DoCommit(s, st), a)
  {
  }

  lemma FinishNeedsFlush(s: State, st: FinishStep, a: nat)
    requires Sized(s) && CanFinish(s, st) && a < |s.dmem| && LineOf(a) !in s.mflush
    ensures NotFlushed(s, DoFinish(s, st), a)
  {
  }

  lemma RecoverNeedsFlush(s: State, st: RecoverStep, a: nat)
    requires Sized(s) && CanRecover(s, st) && a < |s.dmem| && LineOf(a) !in s.mflush && st != Undo
    ensures NotFlushed(s, DoRecover(s, st), a)
  {
  }

  /** A store takes back the flushes of its lines: a flush must come after it. */
  lemma StoreCancels(s: State, addr: nat, data: seq<Byte>, a: nat)
    requires Sized(s) && addr + |data| <= |s.vmem| && addr <= a < addr + |data|
    ensures var t := Drain(StoreMem(s, addr, data));
      |t.dmem| == |s.dmem| && |t.vmem| == |s.vmem| && t.dmem[a] == s.dmem[a] && t.vmem[a] == data[a - addr]
  {
    assert LineOf(addr) <= LineOf(a) <= LineOf(addr + |data|);
  }

  /** The same for an entry of the undo log. */
  lemma EntryStoreCancels(s: State, i: nat, e: Entry)
    requires Sized(s) && i < |s.vlog|
    ensures var t := Drain(StoreEntry(s, i, e)); i < |t.dlog| && t.dlog[i] == s.dlog[i] && t.vlog == s.vlog[i := e]
  {
  }

  /** The same for the log of commands. */
  lemma LogNeedsFlush(f: seq<Byte> -> nat, r: Ring.State, st: Ring.Step, o: nat)
    requires Ring.CanStep(f, r, st) && o < Ring.SIZE && !st.EvictBuf?
    ensures var t := Ring.DoStep(f, r, st);
      && |t.vbuf| == |t.dbuf| == Ring.SIZE
      && (LineOf(o) !in r.bflush ==> t.dbuf[o] == r.dbuf[o])
      && (t.vbuf[o] != r.vbuf[o] ==> LineOf(o) !in t.bflush)
  {
  }
}
