/** What deduplication does to the undo log of a whole batch. */
module Dedup {
  import opened Bytes
  import opened UndoEntries
  import opened Application
  import opened Protocol

  /** The addresses of the blocks from `b` up to `end`. */
  function BlocksTo(b: nat, end: nat): (r: set<nat>)
    decreases if end > b then end - b else 0
  {
    if b >= end then {} else {b} + BlocksTo(b + BLOCK, end)
  }

  /** The blocks of a write. */
  function BlocksOf(addr: nat, size: nat): set<nat> { BlocksTo(BlockOf(addr), addr + size) }

  lemma {:induction false} BlocksNext(b: nat, pn: nat)
    requires OnBlock(b) && OnBlock(pn) && b <= pn
    ensures BlocksTo(b, pn + BLOCK) == BlocksTo(b, pn) + {pn}
    decreases pn - b
  {
    if b < pn {
      BlocksNext(b + BLOCK, pn);
    } else {
      assert BlocksTo(b + BLOCK, pn + BLOCK) == {};
    }
  }

  lemma {:induction false} BlocksEnd(b: nat, end: nat, pn: nat)
    requires OnBlock(b) && OnBlock(pn) && end <= pn < end + BLOCK && b <= pn
    ensures BlocksTo(b, end) == BlocksTo(b, pn)
    decreases pn - b
  {
    if b < pn {
      BlocksEnd(b + BLOCK, end, pn);
    }
  }

  lemma BlocksReach(addr: nat, size: nat, pn: nat)
    requires OnBlock(pn) && addr + size <= pn < addr + size + BLOCK && BlockOf(addr) <= pn
    ensures BlocksOf(addr, size) == BlocksTo(BlockOf(addr), pn)
  {
    BlocksEnd(BlockOf(addr), addr + size, pn);
  }

  /**
   * The table knows the blocks in `known`, and has room if `room`. Since it was `skip`, with room if
   * `roomy`, the blocks from `b0` up to `pn` have been stored in it while it had room.
   */
  ghost predicate KnownUpTo(dedup: bool, known: set<nat>, room: bool, skip: set<nat>, roomy: bool, b0: nat, pn: nat) {
    && OnBlock(b0) && OnBlock(pn) && b0 <= pn && skip <= known && (forall b :: b in known && b !in skip ==> b < pn)
    && if dedup then room ==> roomy && known == skip + BlocksTo(b0, pn) else known == {} && (room ==> roomy)
  }

  lemma KnownHere(dedup: bool, known: set<nat>, room: bool, skip: set<nat>, roomy: bool, b0: nat, pn: nat)
    requires KnownUpTo(dedup, known, room, skip, roomy, b0, pn)
    ensures pn in known <==> pn in skip
  {
  }

  lemma KnownNext(dedup: bool, known: set<nat>, room: bool, known': set<nat>, room': bool, skip: set<nat>, roomy: bool,
                  b0: nat, pn: nat)
    requires KnownUpTo(dedup, known, room, skip, roomy, b0, pn) && known <= known' <= known + {pn}
    requires (room' ==> room && (dedup ==> known' == known + {pn})) && (!dedup ==> known' == {})
    ensures KnownUpTo(dedup, known', room', skip, roomy, b0, pn + BLOCK)
  {
    BlocksNext(b0, pn);
  }

  /** The entries that undo_log_record appends: none for fresh memory, and none for blocks in `skip`. */
  ghost function EntriesFor(bytes: set<nat>, mem: seq<Byte>, addr: nat, size: nat, skip: set<nat>): seq<Entry> {
    if AllFresh(bytes, addr, size) then [] else NewEntries(mem, BlockOf(addr), addr + size, skip)
  }

  /** A write keeps the first entries those of the full log, whatever logged blocks it leaves out. */
  lemma SkipSame(log: seq<Entry>, full: seq<Entry>, bytes: set<nat>, mem: seq<Byte>, addr: nat, size: nat,
                 skip: set<nat>)
    requires SameFirsts(full, log) && forall x :: x in skip ==> LoggedBlock(log, |log|, x)
    ensures SameFirsts(full + EntriesFor(bytes, mem, addr, size, {}), log + EntriesFor(bytes, mem, addr, size, skip))
  {
    if AllFresh(bytes, addr, size) {
      assert full + [] == full && log + [] == log;
    } else {
      forall x | x in skip
        ensures Saves(log, x)
      {
        assert LoggedBlock(log, |log|, x);
      }
      SkipKeepsFirsts(log, full, mem, BlockOf(addr), addr + size, skip);
    }
  }

  /** The blocks that have entries after a write. */
  ghost function KnownAfter(bytes: set<nat>, addr: nat, size: nat, known: set<nat>): set<nat> {
    if AllFresh(bytes, addr, size) then known else known + BlocksOf(addr, size)
  }

  function MemAfter(mem: seq<Byte>, addr: nat, data: seq<Byte>): seq<Byte> {
    if addr + |data| <= |mem| then Store(mem, addr, data) else mem
  }

  /** The entries that the actions of a batch append, without deduplication. */
  ghost function FullLog(mem: seq<Byte>, bytes: set<nat>, acts: seq<Action>): seq<Entry>
    decreases |acts|
  {
    if acts == [] then []
    else match acts[0]
      case Write(addr, data) =>
        EntriesFor(bytes, mem, addr, |data|, {}) + FullLog(MemAfter(mem, addr, data), bytes, acts[1..])
      case Mmap(base, size) => FullLog(MemAfter(mem, base, Zeros(size)), bytes + Span(base, size), acts[1..])
  }

  /** With deduplication, when the blocks in `known` have entries. */
  ghost function DedupLog(mem: seq<Byte>, bytes: set<nat>, acts: seq<Action>, known: set<nat>): seq<Entry>
    decreases |acts|
  {
    if acts == [] then []
    else match acts[0]
      case Write(addr, data) =>
        EntriesFor(bytes, mem, addr, |data|, known)
        + DedupLog(MemAfter(mem, addr, data), bytes, acts[1..], KnownAfter(bytes, addr, |data|, known))
      case Mmap(base, size) => DedupLog(MemAfter(mem, base, Zeros(size)), bytes + Span(base, size), acts[1..], known)
  }

  /** The memory after the actions. */
  function MemOf(mem: seq<Byte>, acts: seq<Action>): seq<Byte>
    decreases |acts|
  {
    if acts == [] then mem
    else match acts[0]
      case Write(addr, data) => MemOf(MemAfter(mem, addr, data), acts[1..])
      case Mmap(base, size) => MemOf(MemAfter(mem, base, Zeros(size)), acts[1..])
  }

  /** Every block fits in memory. */
  predicate Fits(acts: seq<Action>, n: nat) {
    n % 64 == 0 && forall i :: 0 <= i < |acts| && acts[i].Write? ==> acts[i].addr + |acts[i].data| <= n
  }

  // ---- The deduplicated log is the deduplication of the full log ---------------------------------------

  lemma {:induction false} DedupJoins(a: seq<Entry>, b: seq<Entry>, known: set<nat>)
    ensures DedupFrom(a + b, known) == DedupFrom(a, known) + DedupFrom(b, known + Addresses(a))
    decreases |a|
  {
    if a == [] {
      assert a + b == b && known + {} == known;
    } else {
      assert (a + b)[1..] == a[1..] + b && (a + b)[0] == a[0];
      if a[0].addr in known {
        DedupJoins(a[1..], b, known);
        assert known + Addresses(a) == known + Addresses(a[1..]);
      } else {
        DedupJoins(a[1..], b, known + {a[0].addr});
        assert known + {a[0].addr} + Addresses(a[1..]) == known + Addresses(a);
      }
    }
  }

  function Addresses(es: seq<Entry>): set<nat> {
    if es == [] then {} else {es[0].addr} + Addresses(es[1..])
  }

  lemma FirstBlock(mem: seq<Byte>, b: nat, end: nat)
    requires |mem| % 64 == 0 && OnBlock(b) && b < end <= |mem|
    ensures b + BLOCK <= |mem| && OnBlock(b + BLOCK)
    ensures NewEntries(mem, b, end, {}) == [Entry(mem[b..b + BLOCK], b, 0)] + NewEntries(mem, b + BLOCK, end, {})
  {
  }

  /** One write: leaving out known blocks is deduplicating its entries. */
  lemma {:induction false} WriteDedup(mem: seq<Byte>, b: nat, end: nat, known: set<nat>, more: set<nat>)
    requires |mem| % 64 == 0 && OnBlock(b) && end <= |mem| && forall a :: a in more ==> a < b
    ensures NewEntries(mem, b, end, known) == DedupFrom(NewEntries(mem, b, end, {}), known + more)
    ensures Addresses(NewEntries(mem, b, end, {})) == BlocksTo(b, end)
    decreases if end > b then end - b else 0
  {
    if b < end {
      FirstBlock(mem, b, end);
      var e, rest := Entry(mem[b..b + BLOCK], b, 0), NewEntries(mem, b + BLOCK, end, {});
      assert ([e] + rest)[1..] == rest;
      if b in known {
        WriteDedup(mem, b + BLOCK, end, known, more);
      } else {
        WriteDedup(mem, b + BLOCK, end, known, more + {b});
        assert known + more + {b} == known + (more + {b});
      }
    }
  }

  /** Over a whole batch, the log with deduplication is the deduplicated full log. */
  lemma {:induction false} BatchDedup(mem: seq<Byte>, bytes: set<nat>, acts: seq<Action>, known: set<nat>)
    requires Fits(acts, |mem|)
    ensures DedupLog(mem, bytes, acts, known) == DedupFrom(FullLog(mem, bytes, acts), known)
    decreases |acts|
  {
    if acts != [] {
      assert Fits(acts[1..], |mem|);
      match acts[0]
      case Write(addr, data) =>
        var mem', es := MemAfter(mem, addr, data), EntriesFor(bytes, mem, addr, |data|, {});
        BatchDedup(mem', bytes, acts[1..], KnownAfter(bytes, addr, |data|, known));
        WriteDedup(mem, BlockOf(addr), addr + |data|, known, {});
        assert known + {} == known;
        DedupJoins(es, FullLog(mem', bytes, acts[1..]), known);
      case Mmap(base, size) =>
        BatchDedup(MemAfter(mem, base, Zeros(size)), bytes + Span(base, size), acts[1..], known);
    }
  }

  /** The entries of the full log save blocks. */
  lemma {:induction false} BlocksPlain(mem: seq<Byte>, b: nat, end: nat)
    requires |mem| % 64 == 0 && OnBlock(b) && 0 < b && end <= |mem|
    ensures AllPlain(NewEntries(mem, b, end, {}), |mem|)
    decreases if end > b then end - b else 0
  {
    if b < end {
      FirstBlock(mem, b, end);
      BlocksPlain(mem, b + BLOCK, end);
    }
  }

  lemma {:induction false} FullPlain(mem: seq<Byte>, bytes: set<nat>, acts: seq<Action>)
    requires Fits(acts, |mem|) && forall i :: 0 <= i < |acts| && acts[i].Write? ==> 0 < BlockOf(acts[i].addr)
    ensures AllPlain(FullLog(mem, bytes, acts), |mem|)
    decreases |acts|
  {
    if acts != [] {
      assert Fits(acts[1..], |mem|);
      match acts[0]
      case Write(addr, data) =>
        BlocksPlain(mem, BlockOf(addr), addr + |data|);
        FullPlain(MemAfter(mem, addr, data), bytes, acts[1..]);
      case Mmap(base, size) => FullPlain(MemAfter(mem, base, Zeros(size)), bytes + Span(base, size), acts[1..]);
    }
  }

  /**
   * For the same actions from the same memory, the log with deduplication rolls whatever memory
   * they leave back to the same state as the log without.
   */
  lemma BatchRollsBackSame(mem: seq<Byte>, bytes: set<nat>, acts: seq<Action>, now: seq<Byte>)
    requires Fits(acts, |mem|) && |now| == |mem|
    requires forall i :: 0 <= i < |acts| && acts[i].Write? ==> 0 < BlockOf(acts[i].addr)
    ensures var full, dedup := FullLog(mem, bytes, acts), DedupLog(mem, bytes, acts, {});
      && dedup == UndoEntries.Dedup(full) && AllPlain(full, |now|) && AllPlain(dedup, |now|)
      && Rollback(now, dedup) == Rollback(now, full)
  {
    BatchDedup(mem, bytes, acts, {});
    FullPlain(mem, bytes, acts);
    DedupRollsBackSame(now, FullLog(mem, bytes, acts));
  }
}
