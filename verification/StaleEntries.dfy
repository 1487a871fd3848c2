/**
 * Entries that survive past the first null one: recovery clears only what its scan counted, so
 * they stay in the log, and a later scan reads them as part of another batch.
 */
module StaleEntries {
  import opened Bytes
  import opened UndoEntries
  import opened Application
  import opened Protocol
  import opened ProtocolInvariant
  import opened Runs
  import opened Recovery
  import opened Batches
  import opened Limits

  // ---- What a stale entry does to the batch that reaches it --------------------------------------------

  /** `es` are the entries of write `w`, about to be recorded behind those of the batch. */
  ghost predicate ToRecordWrite(s: State, w: Action, es: seq<Entry>) {
    && w.Write? && 0 < BlockOf(w.addr) && s.pc == Recording([w], s.len, BlockOf(w.addr), 0)
    && ToRecord(s, w.addr, |w.data|, es)
  }

  /** Right behind entries `n` to `n + k` of the batch is a stale entry, and then a null one. */
  ghost predicate ReachesStale(vlog: seq<Entry>, dlog: seq<Entry>, n: nat, k: nat, size: nat) {
    && n + k + 1 < |vlog| == |dlog|
    && (forall i :: 0 <= i < n ==> dlog[i] == vlog[i] && Plain(vlog[i], size))
    && vlog[n + k] == dlog[n + k] && !IsNull(vlog[n + k]) && vlog[n + k + 1] == dlog[n + k + 1]
    && IsNull(vlog[n + k + 1])
  }

  lemma {:induction false} EntriesPlain(mem: seq<Byte>, b: nat, end: nat)
    requires |mem| % 64 == 0 && OnBlock(b) && 0 < b && end <= |mem|
    ensures AllPlain(AllEntries(mem, b, end), |mem|)
    ensures forall i :: 0 <= i < |AllEntries(mem, b, end)| ==> b <= AllEntries(mem, b, end)[i].addr < end
    decreases if end > b then end - b else 0
  {
    if b < end {
      AllEntriesNext(mem, b, end);
      EntriesPlain(mem, b + BLOCK, end);
    }
  }

  /** A scan of `log` finds the batch's `n` entries, those of the write, and the stale one. */
  ghost predicate StaleLog(log: seq<Entry>, vlog: seq<Entry>, n: nat, es: seq<Entry>, stale: Entry) {
    && Scan(log) == n + |es| + 1 && log[n + |es|] == stale && |log| == |vlog|
    && (forall i :: 0 <= i < n ==> log[i] == vlog[i])
    && (forall i :: n <= i < n + |es| ==> log[i] == es[i - n])
  }

  /** The scan of the drained log counts the stale entry as the batch's last one. */
  lemma StaleScanned(vlog: seq<Entry>, dlog: seq<Entry>, n: nat, es: seq<Entry>, these: set<nat>, size: nat)
    requires ReachesStale(vlog, dlog, n, |es|, size) && AllPlain(es, size)
    ensures StaleLog(Mix(dlog, Spliced(vlog, n, es), these + Indices(n, |es|)), vlog, n, es, vlog[n + |es|])
  {
    var log := Mix(dlog, Spliced(vlog, n, es), these + Indices(n, |es|));
    assert forall i :: n <= i < n + |es| ==> log[i] == es[i - n];
    ScanIs(log, n + |es| + 1);
  }

  /** `es` save blocks of a memory of `size` bytes that start between `lo` and `hi`. */
  ghost predicate BlocksWithin(es: seq<Entry>, size: nat, lo: nat, hi: nat) {
    AllPlain(es, size) && forall i :: 0 <= i < |es| ==> lo <= es[i].addr < hi
  }

  lemma EntriesWithin(mem: seq<Byte>, w: Action, es: seq<Entry>)
    requires w.Write? && es == EntriesOf(mem, w) && |mem| % 64 == 0 && 0 < BlockOf(w.addr) && w.addr + |w.data| <= |mem|
    ensures BlocksWithin(es, |mem|, BlockOf(w.addr), w.addr + |w.data|)
  {
    EntriesPlain(mem, BlockOf(w.addr), w.addr + |w.data|);
  }

  /** undo_log_record appends its entries right before the stale one, and drains them. */
  lemma RecordsStale(cf: Config, s: State, w: Action, es: seq<Entry>) returns (steps: seq<Step>, e: State)
    requires ToRecordWrite(s, w, es) && ReachesStale(s.vlog, s.dlog, s.len, |es|, |s.vmem|)
    ensures Leads(cf, s, steps, e) && Sized(e) && e.vmem == s.vmem && e.pc == Logged([w])
    ensures e.cmds == s.cmds && e.ddisk == s.ddisk && e.dtail == if s.tflush then s.vtail else s.dtail
    ensures StaleLog(e.dlog, s.vlog, s.len, es, s.vlog[s.len + |es|])
    ensures BlocksWithin(es, |s.vmem|, BlockOf(w.addr), w.addr + |w.data|)
  {
    EntriesWithin(s.vmem, w, es);
    StaleScanned(s.vlog, s.dlog, s.len, es, s.lflush, |s.vmem|);
    steps, e := RecordedRuns(cf, s, w.addr, |w.data|, es);
  }

  /**
   * A stale commit record: once the batch's entries reach it and the write has reached persistent
   * memory, a crash is recovered as if the batch had committed - with the tail of an earlier one.
   */
  lemma StaleRecordAccepts(cf: Config, s: State, w: Action, es: seq<Entry>) returns (steps: seq<Step>, e: State)
    requires ToRecordWrite(s, w, es) && ReachesStale(s.vlog, s.dlog, s.len, |es|, |s.vmem|)
    requires s.vlog[s.len + |es|].commit > 0
    ensures Leads(cf, s, steps, e) && e.cmds == s.cmds
    ensures Accepts(e.dlog) && RecTail(e) == s.vlog[s.len + |es|].commit - 1
    ensures RecView(e) == ViewOf(Store(s.vmem, w.addr, w.data), RenameNew(s.ddisk).table)
  {
    var a, s1 := RecordsStale(cf, s, w, es);
    var b;
    b, e := WriteReaches(cf, s1, w);
    LeadsBoth(cf, s, a, s1, b, e);
    steps := a + b;
    StaleAccepted(e, s.vlog, s.len, es, s.vlog[s.len + |es|]);
  }

  lemma StaleAccepted(e: State, vlog: seq<Entry>, n: nat, es: seq<Entry>, stale: Entry)
    requires StaleLog(e.dlog, vlog, n, es, stale) && stale.commit > 0
    ensures Accepts(e.dlog) && RecTail(e) == stale.commit - 1
    ensures RecView(e) == ViewOf(e.dmem, RenameNew(e.ddisk).table)
  {
  }

  /** The write, and its eviction. */
  lemma WriteReaches(cf: Config, s: State, w: Action) returns (steps: seq<Step>, e: State)
    requires Sized(s) && s.pc == Logged([w]) && w.Write? && w.addr + |w.data| <= |s.vmem|
    ensures Leads(cf, s, steps, e) && e.cmds == s.cmds && e.dlog == s.dlog && e.ddisk == s.ddisk
    ensures e.dmem == Store(s.vmem, w.addr, w.data)
  {
    var s1 := After(cf, s, Consume(WriteLogged));
    LeadsStep(cf, s, Consume(WriteLogged));
    var all := Indices(0, |s1.vmem|);
    var st := Env(Evict(all, {}, false));
    LeadsOn(cf, s, [Consume(WriteLogged)], s1, st);
    steps, e := [Consume(WriteLogged)] + [st], After(cf, s1, st);
    assert Mix(s1.dmem, s1.vmem, all) == s1.vmem;
    assert Mix(s1.dlog, s1.vlog, {}) == s1.dlog;
  }

  /**
   * A stale entry for a block that the batch does not touch: a crash after undo_log_record rolls
   * the block back to what it was when the entry was written, whatever was committed since.
   */
  lemma StaleEntryCorrupts(cf: Config, s: State, w: Action, es: seq<Entry>, a: nat) returns (steps: seq<Step>, e: State)
    requires ToRecordWrite(s, w, es) && ReachesStale(s.vlog, s.dlog, s.len, |es|, |s.vmem|)
    requires a < |s.vmem| && Plain(s.vlog[s.len + |es|], |s.vmem|) && Holds(s.vlog[s.len + |es|], a)
    requires !Held(s.vlog, s.len, a) && !(BlockOf(w.addr) <= BlockOf(a) < w.addr + |w.data|)
    ensures Leads(cf, s, steps, e) && e.cmds == s.cmds && e.ddisk == s.ddisk
    ensures !Accepts(e.dlog) && CanRollBack(e) && (s.dtail == s.vtail ==> RecTail(e) == s.dtail)
    ensures |RecMem(e)| == |s.vmem| && RecMem(e)[a] == s.vlog[s.len + |es|].blk[a - s.vlog[s.len + |es|].addr]
  {
    steps, e := RecordsStale(cf, s, w, es);
    StaleRecovers(e, s.vlog, s.len, es, s.vlog[s.len + |es|], BlockOf(w.addr), w.addr + |w.data|, a);
  }

  lemma StaleRecovers(e: State, vlog: seq<Entry>, n: nat, es: seq<Entry>, stale: Entry, lo: nat, hi: nat, a: nat)
    requires StaleLog(e.dlog, vlog, n, es, stale) && BlocksWithin(es, |e.dmem|, lo, hi)
    requires PlainUpTo(vlog, 0, n, |e.dmem|)
    requires a < |e.dmem| && !Held(vlog, n, a) && !(lo <= BlockOf(a) < hi) && Plain(stale, |e.dmem|) && Holds(stale, a)
    ensures !Accepts(e.dlog) && CanRollBack(e) && RecTail(e) == e.dtail
    ensures |RecMem(e)| == |e.dmem| && RecMem(e)[a] == stale.blk[a - stale.addr]
  {
    StaleOnly(vlog, e.dlog, n, es, stale, lo, hi, a, |e.dmem|);
    LastRecovers(e, n + |es|, stale, a);
  }

  lemma LastRecovers(e: State, n: nat, last: Entry, a: nat)
    requires Scan(e.dlog) == n + 1 && a < |e.dmem| && OnlyLast(e.dlog, n, last, a, |e.dmem|)
    ensures !Accepts(e.dlog) && CanRollBack(e) && RecTail(e) == e.dtail
    ensures |RecMem(e)| == |e.dmem| && RecMem(e)[a] == last.blk[a - last.addr]
  {
    LastUndone(e.dmem, e.dlog, n, a, last);
  }

  /** All `n + 1` entries of `log` are plain, and only the last one, `stale`, holds `a`. */
  ghost predicate OnlyLast(log: seq<Entry>, n: nat, stale: Entry, a: nat, size: nat) {
    && n < |log| && log[n] == stale && Holds(stale, a) && PlainUpTo(log, 0, n + 1, size)
    && forall i :: 0 <= i < n ==> !Holds(log[i], a)
  }

  lemma StaleOnly(vlog: seq<Entry>, log: seq<Entry>, n: nat, es: seq<Entry>, stale: Entry, lo: nat, hi: nat, a: nat,
                  size: nat)
    requires StaleLog(log, vlog, n, es, stale) && BlocksWithin(es, size, lo, hi) && PlainUpTo(vlog, 0, n, size)
    requires !Held(vlog, n, a) && !(lo <= BlockOf(a) < hi) && Plain(stale, size) && Holds(stale, a)
    ensures OnlyLast(log, n + |es|, stale, a, size)
  {
    forall i | 0 <= i < n + |es|
      ensures Plain(log[i], size) && !Holds(log[i], a)
    {
      if i < n {
        assert log[i] == vlog[i] && !Holds(vlog[i], a);
      } else {
        assert log[i] == es[i - n];
        if Holds(es[i - n], a) {
          BlockIsUnique(es[i - n].addr, a);
        }
      }
    }
  }

  /** Rollback gives a byte that only the last entry saves the value in that entry. */
  lemma LastUndone(mem: seq<Byte>, log: seq<Entry>, n: nat, a: nat, last: Entry)
    requires Scan(log) == n + 1 && a < |mem| && OnlyLast(log, n, last, a, |mem|)
    ensures !Accepts(log) && AllPlain(log[..Scan(log)], |mem|)
    ensures Rollback(mem, log[..Scan(log)])[a] == last.blk[a - last.addr]
  {
    assert First(log[..n + 1], n, a);
    RollbackByte(mem, log[..n + 1], a);
  }

  // ---- The counter again: a stale commit record -------------------------------------------------------

  /** The counter has committed one increment and a crash cuts the clear of its log short. */
  lemma CounterCutShort(n: nat, c: Cmd) returns (steps: seq<Step>, e: State)
    requires 4 <= n
    ensures Initial(Counter, CounterStart(n)) && Leads(Counter, CounterStart(n), steps, e)
    ensures Sized(e) && CanRollBack(e) && Scan(e.dlog) == 0 && AtRest(Recovered(e)) && CutState(Recovered(e), n, c)
  {
    CounterInitial(n);
    var a, s := CounterCommits(n, c);
    var b := FinishLeads(Counter, s);
    var s1 := s.(vtail := 1, dtail := 1, ptail := 1, pc := Clearing(0, Cleanup));
    LeadsBoth(Counter, CounterStart(n), a, s, b, s1);
    var d;
    d, e := FirstZero(Counter, s1);
    LeadsBoth(Counter, CounterStart(n), a + b, s1, d, e);
    steps := a + b + d;
    CounterCut(n, c, s, e);
  }

  /** The first zero of a clear is stored and persists. */
  lemma FirstZero(cf: Config, s: State) returns (steps: seq<Step>, e: State)
    requires Sized(s) && s.pc == Clearing(0, Cleanup) && 0 < s.len <= |s.vlog| && s.vlog == s.dlog && s.vmem == s.dmem
    ensures Leads(cf, s, steps, e)
    ensures e == s.(vlog := s.vlog[0 := NullEntry], dlog := s.dlog[0 := NullEntry], lflush := s.lflush + {0},
                    pc := Clearing(1, Cleanup))
  {
    var s1 := After(cf, s, Finish(ClearEntry));
    LeadsStep(cf, s, Finish(ClearEntry));
    var st := Env(Evict({}, {0}, false));
    LeadsOn(cf, s, [Finish(ClearEntry)], s1, st);
    steps, e := [Finish(ClearEntry)] + [st], After(cf, s1, st);
    assert Mix(s.dlog, s1.vlog, {0}) == s.dlog[0 := NullEntry];
    MixSame(s.dmem, {});
  }

  /** A counter at 1, at rest, with the record of its first increment left in slot 1. */
  ghost predicate CutState(r: State, n: nat, c: Cmd) {
    && |r.vmem| == 64 && |r.vlog| == n && r.cmds == [c] && r.tail == 1 && r.regions == [Region(32, 32)]
    && r.vmem == Store(Zeros(64), 32, [1])
    && n > 3 && IsNull(r.vlog[0]) && IsRecord(r.vlog[1], 1) && IsNull(r.vlog[2])
  }

  lemma CounterCut(n: nat, c: Cmd, s: State, e: State)
    requires 4 <= n && Next(Counter, CounterStart(n).(cmds := [c]), Write(32, [1]))
    requires s == Commits(CounterStart(n).(cmds := [c]), Write(32, [1]))
    requires e == s.(vtail := 1, dtail := 1, ptail := 1, vlog := s.vlog[0 := NullEntry], dlog := s.dlog[0 := NullEntry],
                     lflush := {0}, pc := Clearing(1, Cleanup))
    ensures Sized(e) && CanRollBack(e) && Scan(e.dlog) == 0 && AtRest(Recovered(e)) && CutState(Recovered(e), n, c)
  {
    CounterEntries(CounterStart(n).vmem, 1);
    assert Cleared(e.dlog, 0, 0) == e.dlog;
  }

  lemma CounterShows(n: Byte)
    ensures ViewOf(Store(Zeros(64), 32, [n]), [Region(32, 32)]) == CounterView(n)
  {
    var mem := Store(Zeros(64), 32, [n]);
    forall a: nat
      ensures a in ViewOf(mem, [Region(32, 32)]) <==> a in CounterView(n)
    {
      OneRegion(Region(32, 32), a);
    }
  }

  /** The next increment begins. */
  lemma CounterRestarts(n: nat, r: State, c: Cmd, d: Cmd) returns (steps: seq<Step>, e: State)
    requires AtRest(r) && CutState(r, n, c)
    ensures Leads(Counter, r, steps, e)
    ensures e == r.(cmds := [c, d], pc := Recording([Write(32, [2])], 0, BlockOf(32), 0))
  {
    LeadsStep(Counter, r, Produce(d));
    var s := r.(cmds := [c, d]);
    assert [c] + [d] == [c, d];
    CounterShows(1);
    CounterNext(s, 1);
    var a := BeginLeads(Counter, s, Write(32, [2]));
    e := s.(pc := Recording([Write(32, [2])], 0, BlockOf(32), 0));
    LeadsBoth(Counter, r, [Produce(d)], s, a, e);
    steps := [Produce(d)] + a;
  }

  /** It is interrupted once its write has reached persistent memory. */
  lemma CounterResumes(n: nat, r: State, c: Cmd, d: Cmd) returns (steps: seq<Step>, e: State)
    requires AtRest(r) && CutState(r, n, c)
    ensures Leads(Counter, r, steps, e) && e.cmds == [c, d]
    ensures Accepts(e.dlog) && RecTail(e) == 1 && RecView(e) == CounterView(2)
  {
    var a, s := CounterRestarts(n, r, c, d);
    var w, es := Write(32, [2]), [Entry(s.vmem[32..64], 32, 0)];
    CounterEntries(s.vmem, 2);
    var b;
    b, e := StaleRecordAccepts(Counter, s, w, es);
    LeadsBoth(Counter, r, a, s, b, e);
    steps := a + b;
    CounterShows(2);
    assert Store(s.vmem, 32, [2]) == Store(Zeros(64), 32, [2]);
  }

  /**
   * A concrete run: the counter commits one increment, a crash cuts the clear of its log short,
   * recovery leaves the commit record behind, and the next command is interrupted before it
   * commits. Recovery takes the stale record for the command's own: it keeps the half-done command
   * and replays it as well. This happens whatever the size of the undo log.
   */
  lemma CounterCountsWrong(n: nat, c: Cmd, d: Cmd) returns (before: seq<Step>, s: State, after: seq<Step>, e: State)
    requires 4 <= n
    ensures Initial(Counter, CounterStart(n)) && Leads(Counter, CounterStart(n), before, s)
    ensures Leads(Counter, CrashState(s), after, e)
    ensures e.cmds == [c, d] && Accepts(e.dlog) && RecTail(e) == 1 && RecView(e) == CounterView(2)
    ensures Fold(Counter, e.cmds[..1]) == CounterView(1) && Fold(Counter, e.cmds) == CounterView(2)
    ensures Replay(Counter, RecView(e), e.cmds[RecTail(e)..]) == CounterView(3)
  {
    before, s := CounterCutShort(n, c);
    var a := RollbackBranch(Counter, s);
    var b;
    b, e := CounterResumes(n, Recovered(s), c, d);
    LeadsBoth(Counter, CrashState(s), a, Recovered(s), b, e);
    after := a + b;
    CounterFolds(c, d);
  }

  lemma CounterFolds(c: Cmd, d: Cmd)
    ensures Fold(Counter, [c]) == CounterView(1) && Fold(Counter, [c, d]) == CounterView(2)
    ensures Replay(Counter, CounterView(2), [d]) == CounterView(3)
    ensures [c, d][..1] == [c] && [c, d][1..] == [d]
  {
    IncrementView(0, c);
    IncrementView(1, d);
    IncrementView(2, d);
    ReplayOne(Counter.init, c);
    ReplayOne(CounterView(1), d);
    ReplayOne(CounterView(2), d);
    assert [c] + [d] == [c, d];
    ReplaySplits(Counter, Counter.init, [c], [d]);
  }
}
