/** Undo-log entries, the recovery scan and the rollback loop, as functions of values. */
module UndoEntries {
  import opened Bytes

  /** One cache line of the undo log. `commit` > 0 marks a commit record for tail `commit - 1`. */
  datatype Entry = Entry(blk: seq<Byte>, addr: nat, commit: nat)

  predicate IsNull(e: Entry) { e.addr == 0 && e.commit == 0 }

  /** An entry that saves a block of a memory of `n` bytes. */
  predicate Plain(e: Entry, n: nat) {
    |e.blk| == BLOCK && e.addr > 0 && e.commit == 0 && OnBlock(e.addr) && e.addr + BLOCK <= n
  }

  predicate Holds(e: Entry, a: nat) { e.addr <= a < e.addr + BLOCK }

  /** undo_log_init: the recovered length is the index of the first null entry. */
  function Scan(log: seq<Entry>): (n: nat)
    ensures n <= |log|
    ensures forall i :: 0 <= i < n ==> !IsNull(log[i])
    ensures n < |log| ==> IsNull(log[n])
  {
    if log == [] || IsNull(log[0]) then 0 else 1 + Scan(log[1..])
  }

  lemma ScanIs(log: seq<Entry>, n: nat)
    requires n <= |log|
    requires forall i :: 0 <= i < n ==> !IsNull(log[i])
    requires n < |log| ==> IsNull(log[n])
    ensures Scan(log) == n
  {
  }

  /** The last scanned entry is a commit record. */
  predicate Accepts(log: seq<Entry>) {
    Scan(log) > 0 && log[Scan(log) - 1].commit > 0
  }

  /** memcpy(entry->addr, &entry->blk, UNDO_BLK_SIZE_B) */
  function Restore(mem: seq<Byte>, e: Entry): seq<Byte>
    requires Plain(e, |mem|)
  {
    Store(mem, e.addr, e.blk)
  }

  predicate AllPlain(es: seq<Entry>, n: nat) {
    forall i :: 0 <= i < |es| ==> Plain(es[i], n)
  }

  /** The rollback loop of undo_log_recover: last entry first. */
  function Rollback(mem: seq<Byte>, es: seq<Entry>): (r: seq<Byte>)
    requires AllPlain(es, |mem|)
    ensures |r| == |mem|
    decreases |es|
  {
    if es == [] then mem else Rollback(Restore(mem, es[|es| - 1]), es[..|es| - 1])
  }

  /** The entries that save the blocks from `b` to `end` that are not in `skip`. */
  function NewEntries(mem: seq<Byte>, b: nat, end: nat, skip: set<nat>): seq<Entry>
    decreases if end > b then end - b else 0
  {
    if b >= end || b + BLOCK > |mem| then []
    else
      (if b in skip then [] else [Entry(mem[b..b + BLOCK], b, 0)]) + NewEntries(mem, b + BLOCK, end, skip)
  }

  predicate Held(es: seq<Entry>, n: nat, a: nat)
    requires n <= |es|
  {
    exists i :: 0 <= i < n && Holds(es[i], a)
  }

  /** Entry `i` is the first one that saves byte `a`. */
  predicate First(es: seq<Entry>, i: nat, a: nat)
    requires i < |es|
  {
    Holds(es[i], a) && forall j :: 0 <= j < i ==> !Holds(es[j], a)
  }

  lemma {:induction false} FirstExists(es: seq<Entry>, n: nat, a: nat) returns (i: nat)
    requires n <= |es| && Held(es, n, a)
    ensures i < n && First(es, i, a)
    decreases n
  {
    if Held(es, n - 1, a) {
      i := FirstExists(es, n - 1, a);
    } else {
      i := n - 1;
    }
  }

  /** Rollback leaves unsaved bytes alone and gives every saved byte the value in the FIRST entry for it. */
  lemma {:induction false} RollbackByte(mem: seq<Byte>, es: seq<Entry>, a: nat)
    requires AllPlain(es, |mem|) && a < |mem|
    ensures !Held(es, |es|, a) ==> Rollback(mem, es)[a] == mem[a]
    ensures forall i :: 0 <= i < |es| && First(es, i, a) ==> Rollback(mem, es)[a] == es[i].blk[a - es[i].addr]
    decreases |es|
  {
    if es != [] {
      var n := |es| - 1;
      RollbackByte(Restore(mem, es[n]), es[..n], a);
      FrontHeld(es, a);
    }
  }

  /** What the first entry for a byte is without the last entry. */
  lemma FrontHeld(es: seq<Entry>, a: nat)
    requires es != []
    ensures var n, front := |es| - 1, es[..|es| - 1];
      && (Held(es, |es|, a) <==> Held(front, n, a) || Holds(es[n], a))
      && (forall i :: 0 <= i < n && First(es, i, a) ==> First(front, i, a))
      && (First(es, n, a) ==> !Held(front, n, a))
  {
    var front := es[..|es| - 1];
    assert forall j :: 0 <= j < |front| ==> front[j] == es[j];
  }

  /**
   * Restartability: a rollback that is interrupted anywhere leaves a memory that differs from the
   * starting one only in saved bytes (in whatever mixture reached persistent memory), and rolling
   * back again from any such memory gives the same result.
   */
  lemma RollbackRestarts(mem: seq<Byte>, torn: seq<Byte>, es: seq<Entry>)
    requires AllPlain(es, |mem|) && |torn| == |mem|
    requires forall a :: 0 <= a < |mem| && !Held(es, |es|, a) ==> torn[a] == mem[a]
    ensures Rollback(torn, es) == Rollback(mem, es)
  {
    forall a: nat | a < |mem|
      ensures Rollback(torn, es)[a] == Rollback(mem, es)[a]
    {
      RollbackByte(mem, es, a);
      RollbackByte(torn, es, a);
      if Held(es, |es|, a) {
        var i := FirstExists(es, |es|, a);
      }
    }
  }

  /**
   * What makes a (partly persisted) memory roll back to `was`: unsaved bytes still have their old
   * value, and the first entry for each saved byte holds its old value.
   */
  lemma RollbackRestores(mem: seq<Byte>, es: seq<Entry>, a: nat, was: Byte)
    requires AllPlain(es, |mem|) && a < |mem|
    requires !Held(es, |es|, a) ==> mem[a] == was
    requires forall i :: 0 <= i < |es| && First(es, i, a) ==> es[i].blk[a - es[i].addr] == was
    ensures Rollback(mem, es)[a] == was
  {
    RollbackByte(mem, es, a);
    if Held(es, |es|, a) {
      var i := FirstExists(es, |es|, a);
    }
  }

  // ---- Deduplication --------------------------------------------------------------------------------

  predicate Saves(es: seq<Entry>, b: nat) { exists i :: 0 <= i < |es| && es[i].addr == b }

  /** The index of the first entry for block `b`. */
  function FirstIndex(es: seq<Entry>, b: nat): (i: nat)
    requires Saves(es, b)
    ensures i < |es| && es[i].addr == b && forall j :: 0 <= j < i ==> es[j].addr != b
  {
    if es[0].addr == b then 0 else 1 + FirstIndex(es[1..], b)
  }

  /** The log that deduplication leaves when the blocks in `known` have entries already. */
  function DedupFrom(es: seq<Entry>, known: set<nat>): seq<Entry> {
    if es == [] then []
    else if es[0].addr in known then DedupFrom(es[1..], known)
    else [es[0]] + DedupFrom(es[1..], known + {es[0].addr})
  }

  /** The log that deduplication leaves. */
  function Dedup(es: seq<Entry>): seq<Entry> { DedupFrom(es, {}) }

  /** `e` is the first entry of `es` for its block. */
  predicate IsFirst(es: seq<Entry>, e: Entry) { Saves(es, e.addr) && e == es[FirstIndex(es, e.addr)] }

  /** Block `b` has an entry before block `c` has one. */
  predicate Before(es: seq<Entry>, b: nat, c: nat) {
    Saves(es, b) && Saves(es, c) && FirstIndex(es, b) < FirstIndex(es, c)
  }

  /** `d` consists of the first entries of `es` for the blocks that are not in `known`, each once, in order. */
  ghost predicate FirstEntries(es: seq<Entry>, d: seq<Entry>, known: set<nat>) {
    && (forall b {:trigger Saves(d, b)} {:trigger Saves(es, b)} :: Saves(d, b) <==> Saves(es, b) && b !in known)
    && (forall k :: 0 <= k < |d| ==> IsFirst(es, d[k]))
    && (forall k, l :: 0 <= k < l < |d| ==> Before(es, d[k].addr, d[l].addr))
  }

  lemma SavesFirst(es: seq<Entry>, b: nat)
    requires es != []
    ensures Saves(es, b) <==> es[0].addr == b || Saves(es[1..], b)
  {
    if Saves(es[1..], b) {
      var i :| 0 <= i < |es[1..]| && es[1..][i].addr == b;
      assert es[i + 1].addr == b;
    }
    if Saves(es, b) && es[0].addr != b {
      var i :| 0 <= i < |es| && es[i].addr == b;
      assert es[1..][i - 1].addr == b;
    }
  }

  lemma FirstShift(es: seq<Entry>, b: nat)
    requires es != [] && es[0].addr != b && Saves(es[1..], b)
    ensures Saves(es, b) && FirstIndex(es, b) == 1 + FirstIndex(es[1..], b)
  {
    SavesFirst(es, b);
  }

  lemma FirstEntriesShift(es: seq<Entry>, d: seq<Entry>, known: set<nat>)
    requires es != [] && es[0].addr in known && FirstEntries(es[1..], d, known)
    ensures forall k :: 0 <= k < |d| ==> IsFirst(es, d[k]) && d[k].addr !in known
    ensures forall k, l :: 0 <= k < l < |d| ==> Before(es, d[k].addr, d[l].addr)
  {
    forall k | 0 <= k < |d|
      ensures d[k].addr !in known && Saves(es, d[k].addr) && IsFirst(es, d[k])
      ensures FirstIndex(es, d[k].addr) == 1 + FirstIndex(es[1..], d[k].addr)
    {
      assert Saves(d, d[k].addr) && IsFirst(es[1..], d[k]);
      FirstShift(es, d[k].addr);
    }
    forall k, l | 0 <= k < l < |d|
      ensures Before(es, d[k].addr, d[l].addr)
    {
      assert Before(es[1..], d[k].addr, d[l].addr);
      assert IsFirst(es, d[k]) && IsFirst(es, d[l]);
    }
  }

  /** An entry for a block that is known is left out. */
  lemma DedupKnown(es: seq<Entry>, d: seq<Entry>, known: set<nat>)
    requires es != [] && es[0].addr in known && FirstEntries(es[1..], d, known)
    ensures FirstEntries(es, d, known)
  {
    FirstEntriesShift(es, d, known);
    forall b
      ensures Saves(d, b) <==> Saves(es, b) && b !in known
    {
      SavesFirst(es, b);
    }
  }

  lemma HeadFirst(es: seq<Entry>, b: nat)
    requires es != [] && Saves(es, b) && es[0].addr != b
    ensures IsFirst(es, es[0]) && Before(es, es[0].addr, b)
  {
    assert Saves(es, es[0].addr);
  }

  /** An entry for a new block is kept. */
  lemma DedupNew(es: seq<Entry>, d: seq<Entry>, known: set<nat>)
    requires es != [] && es[0].addr !in known && FirstEntries(es[1..], d, known + {es[0].addr})
    ensures FirstEntries(es, [es[0]] + d, known)
  {
    var all := [es[0]] + d;
    FirstEntriesShift(es, d, known + {es[0].addr});
    NewSaved(es, d, known);
    forall k | 0 <= k < |all|
      ensures IsFirst(es, all[k])
    {
      if k == 0 {
        assert Saves(es, es[0].addr);
      } else {
        assert all[k] == d[k - 1];
      }
    }
    forall k, l | 0 <= k < l < |all|
      ensures Before(es, all[k].addr, all[l].addr)
    {
      HeadBefore(es, d, k, l);
    }
  }

  lemma HeadBefore(es: seq<Entry>, d: seq<Entry>, k: nat, l: nat)
    requires es != [] && k < l <= |d| && d[l - 1].addr != es[0].addr && IsFirst(es, d[l - 1])
    requires k > 0 ==> Before(es, d[k - 1].addr, d[l - 1].addr)
    ensures Before(es, ([es[0]] + d)[k].addr, ([es[0]] + d)[l].addr)
  {
    if k == 0 {
      HeadFirst(es, d[l - 1].addr);
    }
  }

  lemma NewSaved(es: seq<Entry>, d: seq<Entry>, known: set<nat>)
    requires es != [] && es[0].addr !in known && FirstEntries(es[1..], d, known + {es[0].addr})
    ensures forall b {:trigger Saves([es[0]] + d, b)} {:trigger Saves(es, b)} ::
      Saves([es[0]] + d, b) <==> Saves(es, b) && b !in known
  {
    var all := [es[0]] + d;
    assert all[1..] == d;
    forall b
      ensures Saves(all, b) <==> Saves(es, b) && b !in known
    {
      SavesFirst(es, b);
      SavesFirst(all, b);
    }
  }

  /** Deduplication leaves exactly the first entry for each block, in order. */
  lemma {:induction false} DedupIs(es: seq<Entry>, known: set<nat>)
    ensures FirstEntries(es, DedupFrom(es, known), known)
    decreases |es|
  {
    if es != [] {
      if es[0].addr in known {
        DedupIs(es[1..], known);
        DedupKnown(es, DedupFrom(es[1..], known), known);
      } else {
        DedupIs(es[1..], known + {es[0].addr});
        DedupNew(es, DedupFrom(es[1..], known + {es[0].addr}), known);
      }
    }
  }

  /** In a log of plain entries, a byte is held exactly if its block is saved. */
  lemma HeldIffSaved(es: seq<Entry>, n: nat, a: nat)
    requires AllPlain(es, n)
    ensures Held(es, |es|, a) <==> Saves(es, BlockOf(a))
    ensures forall i :: 0 <= i < |es| ==> (Holds(es[i], a) <==> es[i].addr == BlockOf(a))
  {
    forall i | 0 <= i < |es|
      ensures Holds(es[i], a) <==> es[i].addr == BlockOf(a)
    {
      if Holds(es[i], a) {
        BlockIsUnique(es[i].addr, a);
      }
    }
  }

  lemma KeptPlain(es: seq<Entry>, d: seq<Entry>, n: nat)
    requires AllPlain(es, n) && FirstEntries(es, d, {})
    ensures AllPlain(d, n)
  {
    forall k | 0 <= k < |d|
      ensures Plain(d[k], n)
    {
      assert IsFirst(es, d[k]);
    }
  }

  /** The deduplicated log rolls any memory back to the same state as the full log. */
  lemma DedupRollsBackSame(mem: seq<Byte>, es: seq<Entry>)
    requires AllPlain(es, |mem|)
    ensures AllPlain(Dedup(es), |mem|) && Rollback(mem, Dedup(es)) == Rollback(mem, es)
  {
    DedupIs(es, {});
    KeptPlain(es, Dedup(es), |mem|);
    FirstEntriesSame(es, Dedup(es));
    FirstsRollBackSame(mem, es, Dedup(es));
  }

  /** Both logs save the same blocks, with the same first entries. */
  ghost predicate SameFirsts(es: seq<Entry>, d: seq<Entry>) {
    forall b {:trigger Saves(d, b)} {:trigger Saves(es, b)} ::
      (Saves(d, b) <==> Saves(es, b)) && (Saves(d, b) && Saves(es, b) ==> FirstEntry(d, b) == FirstEntry(es, b))
  }

  function FirstEntry(es: seq<Entry>, b: nat): Entry
    requires Saves(es, b)
  {
    es[FirstIndex(es, b)]
  }

  lemma FirstEntriesSame(es: seq<Entry>, d: seq<Entry>)
    requires FirstEntries(es, d, {})
    ensures SameFirsts(es, d)
  {
    forall b | Saves(d, b) && Saves(es, b)
      ensures FirstEntry(d, b) == FirstEntry(es, b)
    {
      assert IsFirst(es, d[FirstIndex(d, b)]);
    }
  }

  /** Logs with the same first entries roll every memory back to the same state. */
  lemma FirstsRollBackSame(mem: seq<Byte>, es: seq<Entry>, d: seq<Entry>)
    requires AllPlain(es, |mem|) && AllPlain(d, |mem|) && SameFirsts(es, d)
    ensures Rollback(mem, d) == Rollback(mem, es)
  {
    forall a: nat | a < |mem|
      ensures Rollback(mem, d)[a] == Rollback(mem, es)[a]
    {
      SameByte(mem, es, d, a);
    }
  }

  lemma SameByte(mem: seq<Byte>, es: seq<Entry>, d: seq<Entry>, a: nat)
    requires AllPlain(es, |mem|) && AllPlain(d, |mem|) && SameFirsts(es, d) && a < |mem|
    ensures Rollback(mem, d)[a] == Rollback(mem, es)[a]
  {
    var b := BlockOf(a);
    HeldIffSaved(es, |mem|, a);
    HeldIffSaved(d, |mem|, a);
    RollbackByte(mem, es, a);
    RollbackByte(mem, d, a);
    assert Saves(d, b) <==> Saves(es, b);
    if Saves(es, b) {
      var i, k := FirstIndex(es, b), FirstIndex(d, b);
      assert FirstEntry(d, b) == FirstEntry(es, b);
      assert First(es, i, a) && First(d, k, a) && d[k] == es[i];
    }
  }

  // ---- Logs that leave out blocks they have --------------------------------------------------------

  lemma FirstJoins(a: seq<Entry>, b: seq<Entry>, x: nat)
    ensures Saves(a + b, x) <==> Saves(a, x) || Saves(b, x)
    ensures Saves(a, x) ==> FirstEntry(a + b, x) == FirstEntry(a, x)
    ensures !Saves(a, x) && Saves(b, x) ==> FirstEntry(a + b, x) == FirstEntry(b, x)
  {
    if Saves(a, x) {
      assert (a + b)[FirstIndex(a, x)].addr == x;
    } else if Saves(b, x) {
      assert (a + b)[|a| + FirstIndex(b, x)] == b[FirstIndex(b, x)];
      assert Saves(a + b, x);
      var i := FirstIndex(a + b, x);
      assert i >= |a| && b[i - |a|].addr == x;
    }
  }

  /** The entries of a write that leaves out the blocks in `skip`: the others, with the same contents. */
  lemma {:induction false} NewSaves(mem: seq<Byte>, b: nat, end: nat, skip: set<nat>, x: nat)
    ensures var es := NewEntries(mem, b, end, skip);
      && (Saves(es, x) <==> Saves(NewEntries(mem, b, end, {}), x) && x !in skip)
      && forall i :: 0 <= i < |es| ==> es[i].addr + BLOCK <= |mem| && es[i] == SavedBlock(mem, es[i].addr)
    decreases if end > b then end - b else 0
  {
    if b < end && b + BLOCK <= |mem| {
      NewSaves(mem, b + BLOCK, end, skip, x);
      var one := if b in skip then [] else [Entry(mem[b..b + BLOCK], b, 0)];
      FirstJoins(one, NewEntries(mem, b + BLOCK, end, skip), x);
      FirstJoins([Entry(mem[b..b + BLOCK], b, 0)], NewEntries(mem, b + BLOCK, end, {}), x);
    }
  }

  function SavedBlock(mem: seq<Byte>, b: nat): Entry
    requires b + BLOCK <= |mem|
  {
    Entry(mem[b..b + BLOCK], b, 0)
  }

  /** A write may leave out blocks that the log has: the first entries stay those of the full log. */
  lemma SkipKeepsFirsts(log: seq<Entry>, full: seq<Entry>, mem: seq<Byte>, b: nat, end: nat, skip: set<nat>)
    requires SameFirsts(full, log) && forall x :: x in skip ==> Saves(log, x)
    ensures SameFirsts(full + NewEntries(mem, b, end, {}), log + NewEntries(mem, b, end, skip))
  {
    var some, all := NewEntries(mem, b, end, skip), NewEntries(mem, b, end, {});
    forall x
      ensures Saves(log + some, x) <==> Saves(full + all, x)
      ensures Saves(log + some, x) ==> FirstEntry(log + some, x) == FirstEntry(full + all, x)
    {
      FirstJoins(log, some, x);
      FirstJoins(full, all, x);
      NewSaves(mem, b, end, skip, x);
      NewSaves(mem, b, end, {}, x);
      assert Saves(log, x) <==> Saves(full, x);
    }
  }
}
