/** The undo log as bytes: one cache line per entry, and undo_log_clear as a streaming memset of lines. */
module LogBytes {
  import opened Bytes
  import opened UndoEntries
  import opened Application
  import opened Protocol
  import opened Recovery
  import opened StreamingMemset

  /** A little-endian number. */
  function Number(b: seq<Byte>): nat {
    if b == [] then 0 else b[0] + 256 * Number(b[1..])
  }

  /** The entry in the 64 bytes from `at` on: the block, its address and the commit tail; the rest is padding. */
  function EntryAt(mem: seq<Byte>, at: nat): Entry
    requires at + 64 <= |mem|
  {
    Entry(mem[at..at + 32], Number(mem[at + 32..at + 40]), Number(mem[at + 40..at + 48]))
  }

  /** The log of `n` entries from `base` on. */
  function LogAt(mem: seq<Byte>, base: nat, n: nat): (log: seq<Entry>)
    requires base + 64 * n <= |mem|
    ensures |log| == n
    ensures forall k :: 0 <= k < n ==> log[k] == EntryAt(mem, base + 64 * k)
  {
    seq(n, k requires 0 <= k < n => EntryAt(mem, base + 64 * k))
  }

  lemma {:induction false} NumberZero(b: seq<Byte>)
    requires forall i :: 0 <= i < |b| ==> b[i] == 0
    ensures Number(b) == 0
    decreases |b|
  {
    if b != [] {
      NumberZero(b[1..]);
    }
  }

  /** Numbers of the same width are equal exactly if their bytes are. */
  lemma {:induction false} NumberIff(b: seq<Byte>, c: seq<Byte>)
    requires |b| == |c|
    ensures Number(b) == Number(c) <==> b == c
    decreases |b|
  {
    if b != [] {
      NumberIff(b[1..], c[1..]);
      assert b == [b[0]] + b[1..] && c == [c[0]] + c[1..];
    }
  }

  /** Entries are equal exactly if the first 48 bytes of their lines are: an entry says what its bytes are. */
  lemma EntryIff(mem: seq<Byte>, at: nat, mem': seq<Byte>, at': nat)
    requires at + 64 <= |mem| && at' + 64 <= |mem'|
    ensures EntryAt(mem, at) == EntryAt(mem', at') <==> mem[at..at + 48] == mem'[at'..at' + 48]
  {
    NumberIff(mem[at + 32..at + 40], mem'[at' + 32..at' + 40]);
    NumberIff(mem[at + 40..at + 48], mem'[at' + 40..at' + 48]);
    Parts(mem, at);
    Parts(mem', at');
  }

  lemma Parts(mem: seq<Byte>, at: nat)
    requires at + 64 <= |mem|
    ensures var line := mem[at..at + 48];
      && line == mem[at..at + 32] + mem[at + 32..at + 40] + mem[at + 40..at + 48]
      && line[..32] == mem[at..at + 32] && line[32..40] == mem[at + 32..at + 40]
      && line[40..] == mem[at + 40..at + 48]
  {
  }

  /** A zeroed line is a null entry. */
  lemma ZeroLine(mem: seq<Byte>, at: nat)
    requires at + 64 <= |mem| && forall a :: at <= a < at + 64 ==> mem[a] == 0
    ensures EntryAt(mem, at) == NullEntry
  {
    NumberZero(mem[at + 32..at + 40]);
    NumberZero(mem[at + 40..at + 48]);
    assert mem[at..at + 32] == Zeros(BLOCK);
  }

  lemma SameLine(mem: seq<Byte>, mem': seq<Byte>, at: nat)
    requires at + 64 <= |mem| == |mem'| && forall a :: at <= a < at + 64 ==> mem'[a] == mem[a]
    ensures EntryAt(mem', at) == EntryAt(mem, at)
  {
    assert mem'[at..at + 32] == mem[at..at + 32];
    assert mem'[at + 32..at + 40] == mem[at + 32..at + 40];
    assert mem'[at + 40..at + 48] == mem[at + 40..at + 48];
  }

  /** Zeroing the first lines clears the first entries and leaves the others. */
  lemma FilledClears(mem: seq<Byte>, base: nat, len: nat, n: nat)
    requires len <= n && base + 64 * n <= |mem|
    ensures LogAt(Filled(mem, base, base + 64 * len, 0), base, n) == Cleared(LogAt(mem, base, n), 0, len)
  {
    var mem' := Filled(mem, base, base + 64 * len, 0);
    forall k | 0 <= k < n
      ensures EntryAt(mem', base + 64 * k) == if k < len then NullEntry else EntryAt(mem, base + 64 * k)
    {
      if k < len {
        ZeroLine(mem', base + 64 * k);
      } else {
        SameLine(mem, mem', base + 64 * k);
      }
    }
  }

  /**
   * The memset of undo_log_clear: on bytes it is the clearing of the first `len` entries, all of it
   * by aligned streaming stores of half a line - a saved block, or an address with its commit tail -
   * which the drain after it makes durable.
   */
  method ClearLog(mem: array<Byte>, base: nat, len: nat, n: nat) returns (trace: seq<Access>)
    requires base % 64 == 0 && len <= n && base + 64 * n <= mem.Length
    modifies mem
    ensures forall i :: 0 <= i < mem.Length ==> mem[i] == if base <= i < base + 64 * len then 0 else old(mem[i])
    ensures LogAt(mem[..], base, n) == Cleared(old(LogAt(mem[..], base, n)), 0, len)
    ensures Exactly(trace, base, base + 64 * len) && AllHalves(trace) && AllAligned(trace)
  {
    ghost var was := mem[..];
    trace := Memset(mem, base, 0, 64 * len);
    FilledClears(was, base, len, n);
    assert mem[..] == Filled(was, base, base + 64 * len, 0);
  }
}
