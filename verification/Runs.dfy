/** Building runs of the protocol step by step. */
module Runs {
  import opened Bytes
  import opened UndoEntries
  import opened Application
  import opened Protocol

  /** `steps` is a run from `s` to `e`. */
  ghost predicate Leads(cf: Config, s: State, steps: seq<Step>, e: State) {
    IsRun(cf, s, steps) && End(cf, s, steps) == e
  }

  lemma LeadsStep(cf: Config, s: State, st: Step)
    requires Enabled(cf, s, st)
    ensures Leads(cf, s, [st], After(cf, s, st))
  {
    assert [st][1..] == [];
    assert IsRun(cf, After(cf, s, st), []);
  }

  lemma LeadsOn(cf: Config, s: State, steps: seq<Step>, e: State, st: Step)
    requires Leads(cf, s, steps, e) && Enabled(cf, e, st)
    ensures Leads(cf, s, steps + [st], After(cf, e, st))
  {
    RunAppend(cf, s, steps, st);
  }

  lemma {:induction false} LeadsBoth(cf: Config, s: State, a: seq<Step>, m: State, b: seq<Step>, e: State)
    requires Leads(cf, s, a, m) && Leads(cf, m, b, e)
    ensures Leads(cf, s, a + b, e)
    decreases |a|
  {
    if a == [] {
      assert a + b == b;
    } else {
      LeadsBoth(cf, After(cf, s, a[0]), a[1..], m, b, e);
      assert (a + b)[1..] == a[1..] + b;
    }
  }

  /** Making durable what is durable already changes nothing. */
  lemma MixSame<T>(d: seq<T>, these: set<nat>)
    ensures Mix(d, d, these) == d
  {
  }

  // ---- undo_log_record -----------------------------------------------------------------------------

  /** `log` with the entries `es` stored from index `n` on. */
  function Spliced(log: seq<Entry>, n: nat, es: seq<Entry>): (r: seq<Entry>)
    requires n + |es| <= |log|
    ensures |r| == |log|
    ensures forall i :: n <= i < n + |es| ==> r[i] == es[i - n]
    ensures forall i :: 0 <= i < |log| && !(n <= i < n + |es|) ==> r[i] == log[i]
  {
    log[..n] + es + log[n + |es|..]
  }

  /** The `k` indices from `n` on. */
  function Indices(n: nat, k: nat): (r: set<nat>)
    ensures forall i :: i in r <==> n <= i < n + k
    decreases k
  {
    if k == 0 then {} else {n} + Indices(n + 1, k - 1)
  }

  /** The entries of a write to `mem` from block `b` on: one per block. */
  function AllEntries(mem: seq<Byte>, b: nat, end: nat): seq<Entry> { NewEntries(mem, b, end, {}) }

  /** Every block of a write fits in memory, and its entry in the log. */
  ghost predicate RecordFits(mem: seq<Byte>, log: seq<Entry>, len: nat, b: nat, end: nat) {
    && |mem| % 64 == 0 && OnBlock(b) && end <= |mem| && len + |AllEntries(mem, b, end)| + 1 < |log|
    && forall i :: len <= i < |log| ==> |log[i].blk| == BLOCK
  }

  /** The state after the entries for the rest of a write are stored and flushed. */
  function Saved(s: State, end: nat): State
    requires s.pc.Recording? && s.len + |AllEntries(s.vmem, s.pc.next, end)| <= |s.vlog|
  {
    var es := AllEntries(s.vmem, s.pc.next, end);
    s.(vlog := Spliced(s.vlog, s.len, es), lflush := s.lflush + Indices(s.len, |es|), len := s.len + |es|,
       pc := Recording(s.pc.acts, s.pc.start, s.pc.next + BLOCK * |es|, s.pc.fill))
  }

  /** The state after the entry for the next block is stored and flushed. */
  function SavedOne(s: State): State
    requires s.pc.Recording? && s.len < |s.vlog| && s.pc.next + BLOCK <= |s.vmem|
  {
    var e := Entry(s.vmem[s.pc.next..s.pc.next + BLOCK], s.pc.next, 0);
    s.(vlog := s.vlog[s.len := e], lflush := s.lflush + {s.len}, len := s.len + 1,
       pc := Recording(s.pc.acts, s.pc.start, s.pc.next + BLOCK, s.pc.fill))
  }

  lemma AllEntriesNext(mem: seq<Byte>, b: nat, end: nat)
    requires |mem| % 64 == 0 && OnBlock(b) && b < end <= |mem|
    ensures b + BLOCK <= |mem|
    ensures AllEntries(mem, b, end) == [Entry(mem[b..b + BLOCK], b, 0)] + AllEntries(mem, b + BLOCK, end)
  {
  }

  /** One block: the copy, the address, the flush. */
  lemma BlockLeads(cf: Config, s: State) returns (steps: seq<Step>)
    requires Sized(s) && s.pc.Recording? && s.pc.fill == 0 && s.pc.acts != [] && s.pc.acts[0].Write?
    requires s.pc.next < s.pc.acts[0].addr + |s.pc.acts[0].data| && s.pc.next + BLOCK <= |s.vmem|
    requires s.len + 2 < |s.vlog| && |s.vlog[s.len].blk| == BLOCK
    ensures Leads(cf, s, steps, SavedOne(s))
  {
    var copy, store, flush := Consume(CopyBlock(BLOCK)), Consume(StoreAddr), Consume(FlushEntry);
    var blk := s.vmem[s.pc.next..s.pc.next + BLOCK];
    assert blk + s.vlog[s.len].blk[BLOCK..] == blk;
    var s1 := After(cf, s, copy);
    LeadsStep(cf, s, copy);
    var s2 := After(cf, s1, store);
    LeadsOn(cf, s, [copy], s1, store);
    LeadsOn(cf, s, [copy] + [store], s2, flush);
    steps := [copy] + [store] + [flush];
    assert s2.vlog == s.vlog[s.len := Entry(blk, s.pc.next, 0)];
    assert After(cf, s2, flush).lflush == s.lflush + {s.len};
  }

  lemma SavedNext(s: State, end: nat)
    requires s.pc.Recording? && Sized(s) && RecordFits(s.vmem, s.vlog, s.len, s.pc.next, end) && s.pc.next < end
    requires s.pc.next + BLOCK <= |s.vmem|
    ensures RecordFits(s.vmem, SavedOne(s).vlog, s.len + 1, s.pc.next + BLOCK, end)
    ensures Saved(SavedOne(s), end) == Saved(s, end)
  {
    var s' := SavedOne(s);
    AllEntriesNext(s.vmem, s.pc.next, end);
    var es, es' := AllEntries(s.vmem, s.pc.next, end), AllEntries(s.vmem, s.pc.next + BLOCK, end);
    assert Spliced(s'.vlog, s'.len, es') == Spliced(s.vlog, s.len, es);
    assert s'.lflush + Indices(s'.len, |es'|) == s.lflush + Indices(s.len, |es|);
  }

  /** undo_log_record stores and flushes one entry per block. */
  lemma {:induction false} RecordLeads(cf: Config, s: State) returns (steps: seq<Step>)
    requires s.pc.Recording? && s.pc.fill == 0 && s.pc.acts != [] && s.pc.acts[0].Write?
    requires Sized(s) && RecordFits(s.vmem, s.vlog, s.len, s.pc.next, s.pc.acts[0].addr + |s.pc.acts[0].data|)
    ensures Leads(cf, s, steps, Saved(s, s.pc.acts[0].addr + |s.pc.acts[0].data|))
    ensures s.pc.acts[0].addr + |s.pc.acts[0].data| <= Saved(s, s.pc.acts[0].addr + |s.pc.acts[0].data|).pc.next
    decreases |s.vmem| - s.pc.next
  {
    var end := s.pc.acts[0].addr + |s.pc.acts[0].data|;
    if s.pc.next >= end {
      steps := [];
      assert Spliced(s.vlog, s.len, []) == s.vlog;
      assert Indices(s.len, 0) == {};
    } else {
      AllEntriesNext(s.vmem, s.pc.next, end);
      var one := BlockLeads(cf, s);
      var s' := SavedOne(s);
      SavedNext(s, end);
      var rest := RecordLeads(cf, s');
      LeadsBoth(cf, s, one, s', rest, Saved(s, end));
      steps := one + rest;
    }
  }

  /** The state after undo_log_record, with the log `log` as loads see it. */
  function Drained(s: State, log: seq<Entry>, these: set<nat>, len: nat): State
    requires Sized(s) && |log| == |s.vlog| && s.pc.Recording?
  {
    s.(vlog := log, dlog := Mix(s.dlog, log, these), dmem := Mix(s.dmem, s.vmem, OnLines(|s.vmem|, s.mflush)),
       dtail := if s.tflush then s.vtail else s.dtail, mflush := {}, lflush := {}, tflush := false, len := len,
       pc := Logged(s.pc.acts))
  }

  /** undo_log_record as a whole: the entries `es` of the write are stored, flushed and drained. */
  function Recorded(s: State, es: seq<Entry>): State
    requires Sized(s) && s.len + |es| <= |s.vlog| && s.pc.Recording?
  {
    Drained(s, Spliced(s.vlog, s.len, es), s.lflush + Indices(s.len, |es|), s.len + |es|)
  }

  /** undo_log_record(addr, size) is about to save its blocks in the entries `es`. */
  ghost predicate ToRecord(s: State, addr: nat, size: nat, es: seq<Entry>) {
    && s.pc.Recording? && s.pc.fill == 0 && s.pc.next == BlockOf(addr) && Sized(s)
    && s.pc.acts != [] && s.pc.acts[0].Write? && s.pc.acts[0].addr == addr && |s.pc.acts[0].data| == size
    && RecordFits(s.vmem, s.vlog, s.len, BlockOf(addr), addr + size)
    && es == AllEntries(s.vmem, BlockOf(addr), addr + size)
  }

  lemma RecordedLeads(cf: Config, s: State, addr: nat, size: nat, es: seq<Entry>) returns (steps: seq<Step>)
    requires ToRecord(s, addr, size, es)
    ensures Leads(cf, s, steps, Recorded(s, es))
  {
    var end := addr + size;
    var a := RecordLeads(cf, s);
    var s1 := Saved(s, end);
    DrainStep(cf, s1, s1.vlog);
    LeadsOn(cf, s, a, s1, Consume(DrainRecord));
    steps := a + [Consume(DrainRecord)];
  }

  /** The same, with what a crash then leaves. */
  lemma RecordedRuns(cf: Config, s: State, addr: nat, size: nat, es: seq<Entry>) returns (steps: seq<Step>, e: State)
    requires ToRecord(s, addr, size, es)
    ensures Leads(cf, s, steps, e) && Sized(e) && e.vmem == s.vmem && e.pc == Logged(s.pc.acts)
    ensures e.cmds == s.cmds && e.ddisk == s.ddisk && e.dtail == if s.tflush then s.vtail else s.dtail
    ensures e.dlog == Mix(s.dlog, Spliced(s.vlog, s.len, es), s.lflush + Indices(s.len, |es|))
  {
    steps := RecordedLeads(cf, s, addr, size, es);
    e := Recorded(s, es);
  }

  lemma DrainStep(cf: Config, s: State, log: seq<Entry>)
    requires Sized(s) && log == s.vlog && s.pc.Recording? && s.pc.fill == 0 && s.pc.acts != [] && s.pc.acts[0].Write?
    requires s.pc.acts[0].addr + |s.pc.acts[0].data| <= s.pc.next
    ensures Enabled(cf, s, Consume(DrainRecord))
    ensures After(cf, s, Consume(DrainRecord)) == Drained(s, log, s.lflush, s.len)
  {
  }
}
