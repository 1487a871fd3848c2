/** memset with non-temporal stores, as undo_log_clear uses it. */
module StreamingMemset {
  import opened Bytes

  /** A store of `width` bytes at `addr`; streaming stores bypass the cache and are ordered by a drain. */
  datatype Access = Access(addr: nat, width: nat, streaming: bool)

  /** A streaming store must be aligned to its width. */
  predicate Aligned(a: Access) { a.streaming ==> a.width > 0 && a.addr % a.width == 0 }

  predicate AllAligned(trace: seq<Access>) { forall i :: 0 <= i < |trace| ==> Aligned(trace[i]) }

  /** Every store is a streaming one of half a line. */
  predicate AllHalves(trace: seq<Access>) {
    forall i :: 0 <= i < |trace| ==> trace[i].streaming && trace[i].width == 32
  }

  predicate Touches(s: Access, a: nat) { s.addr <= a < s.addr + s.width }

  /** Some store of the trace writes byte `a`. */
  predicate Writes(trace: seq<Access>, a: nat) { exists k :: 0 <= k < |trace| && Touches(trace[k], a) }

  /** The stores of the trace write the bytes from `lo` to `hi` and no others. */
  ghost predicate Exactly(trace: seq<Access>, lo: nat, hi: nat) {
    forall a: nat :: Writes(trace, a) <==> lo <= a < hi
  }

  lemma ExactlyOne(s: Access)
    ensures Exactly([s], s.addr, s.addr + s.width)
  {
    forall a: nat
      ensures Writes([s], a) <==> Touches(s, a)
    {
      if Touches(s, a) {
        assert Touches([s][0], a);
      }
    }
  }

  lemma WritesBoth(s: seq<Access>, t: seq<Access>, a: nat)
    ensures Writes(s + t, a) <==> Writes(s, a) || Writes(t, a)
  {
    if Writes(s, a) {
      var k :| 0 <= k < |s| && Touches(s[k], a);
      assert Touches((s + t)[k], a);
    }
    if Writes(t, a) {
      var k :| 0 <= k < |t| && Touches(t[k], a);
      assert Touches((s + t)[|s| + k], a);
    }
  }

  /** Traces of ranges that adjoin or overlap are the trace of the whole range. */
  lemma ExactlyJoins(s: seq<Access>, t: seq<Access>, lo: nat, m1: nat, m2: nat, hi: nat)
    requires lo <= m1 <= m2 <= hi && Exactly(s, lo, m2) && Exactly(t, m1, hi)
    ensures Exactly(s + t, lo, hi)
  {
    forall a: nat
      ensures Writes(s + t, a) <==> lo <= a < hi
    {
      WritesBoth(s, t, a);
    }
  }

  /** `a` after the bytes from `lo` to `hi` are set to `c`. */
  function Filled(a: seq<Byte>, lo: nat, hi: nat, c: Byte): (r: seq<Byte>)
    requires lo <= hi <= |a|
    ensures |r| == |a| && forall i :: 0 <= i < |a| ==> r[i] == if lo <= i < hi then c else a[i]
  {
    a[..lo] + seq(hi - lo, i => c) + a[hi..]
  }

  lemma FilledJoins(a: seq<Byte>, lo: nat, mid: nat, hi: nat, c: Byte)
    requires lo <= mid <= hi <= |a|
    ensures Filled(Filled(a, lo, mid, c), mid, hi, c) == Filled(a, lo, hi, c)
  {
  }

  lemma FilledOverlaps(a: seq<Byte>, lo: nat, m1: nat, m2: nat, hi: nat, c: Byte)
    requires lo <= m1 <= m2 <= hi <= |a|
    ensures Filled(Filled(a, lo, m2, c), m1, hi, c) == Filled(a, lo, hi, c)
  {
  }

  /** One store instruction, and its record in the trace. */
  method Put(mem: array<Byte>, addr: nat, width: nat, streaming: bool, c: Byte) returns (trace: seq<Access>)
    requires addr + width <= mem.Length && width in {1, 2, 4, 8, 16, 32}
    modifies mem
    ensures mem[..] == Filled(old(mem[..]), addr, addr + width, c)
    ensures trace == [Access(addr, width, streaming)] && Exactly(trace, addr, addr + width)
  {
    forall i | addr <= i < addr + width {
      mem[i] := c;
    }
    assert forall i :: 0 <= i < mem.Length ==> mem[..][i] == Filled(old(mem[..]), addr, addr + width, c)[i];
    trace := [Access(addr, width, streaming)];
    ExactlyOne(trace[0]);
  }

  /** Two overlapping stores of `width` bytes cover `len` bytes. */
  method PutTwice(mem: array<Byte>, dest: nat, len: nat, width: nat, c: Byte) returns (trace: seq<Access>)
    requires width <= len <= 2 * width && dest + len <= mem.Length && width in {2, 4, 8, 16, 32}
    modifies mem
    ensures mem[..] == Filled(old(mem[..]), dest, dest + len, c)
    ensures Exactly(trace, dest, dest + len) && AllAligned(trace)
  {
    var first := Put(mem, dest, width, false, c);
    var second := Put(mem, dest + len - width, width, false, c);
    FilledOverlaps(old(mem[..]), dest, dest + len - width, dest + width, dest + len, c);
    ExactlyJoins(first, second, dest, dest + len - width, dest + width, dest + len);
    trace := first + second;
  }

  /** memset_small_avx: for length zero it still stores one byte. */
  method Small(mem: array<Byte>, dest: nat, len: nat, c: Byte) returns (trace: seq<Access>)
    requires len <= 64 && dest + (if len == 0 then 1 else len) <= mem.Length
    modifies mem
    ensures mem[..] == Filled(old(mem[..]), dest, dest + (if len == 0 then 1 else len), c)
    ensures Exactly(trace, dest, dest + (if len == 0 then 1 else len)) && AllAligned(trace)
  {
    if len <= 8 {
      if len <= 2 {
        if len == 2 {
          trace := Put(mem, dest, 2, false, c);
          return;
        }
        trace := Put(mem, dest, 1, false, c);
        return;
      }
      if len > 4 {
        trace := PutTwice(mem, dest, len, 4, c);
        return;
      }
      trace := PutTwice(mem, dest, len, 2, c);
      return;
    }
    if len <= 32 {
      if len > 16 {
        trace := PutTwice(mem, dest, len, 16, c);
        return;
      }
      trace := PutTwice(mem, dest, len, 8, c);
      return;
    }
    trace := PutTwice(mem, dest, len, 32, c);
  }

  /** `count` streaming stores of 32 bytes each, from an aligned address on. */
  method Stream32(mem: array<Byte>, dest: nat, count: nat, c: Byte) returns (trace: seq<Access>)
    requires dest % 32 == 0 && dest + 32 * count <= mem.Length
    modifies mem
    ensures mem[..] == Filled(old(mem[..]), dest, dest + 32 * count, c)
    ensures Exactly(trace, dest, dest + 32 * count) && AllAligned(trace) && AllHalves(trace)
  {
    trace := [];
    assert Filled(mem[..], dest, dest, c) == mem[..];
    for i := 0 to count
      invariant mem[..] == Filled(old(mem[..]), dest, dest + 32 * i, c)
      invariant Exactly(trace, dest, dest + 32 * i) && AllAligned(trace) && AllHalves(trace)
    {
      FilledJoins(old(mem[..]), dest, dest + 32 * i, dest + 32 * i + 32, c);
      var t := Put(mem, dest + 32 * i, 32, true, c);
      ExactlyJoins(trace, t, dest, dest + 32 * i, dest + 32 * i, dest + 32 * i + 32);
      trace := trace + t;
    }
  }

  /** The last, partial line: one streaming store if its length allows it, plain stores otherwise. */
  method Remainder(mem: array<Byte>, dest: nat, len: nat, c: Byte) returns (trace: seq<Access>)
    requires dest % 64 == 0 && 0 < len < 64 && dest + len <= mem.Length
    modifies mem
    ensures mem[..] == Filled(old(mem[..]), dest, dest + len, c)
    ensures Exactly(trace, dest, dest + len) && AllAligned(trace)
  {
    if len == 32 || len == 16 || len == 8 || len == 4 {
      AlignedLess(dest, len);
      trace := Put(mem, dest, len, true, c);
    } else {
      trace := Small(mem, dest, len, c);
    }
  }

  lemma AlignedLess(dest: nat, len: nat)
    requires dest % 64 == 0 && len in {4, 8, 16, 32}
    ensures dest % len == 0
  {
    var q := dest / 64;
    if len == 4 {
      assert dest == 4 * (16 * q);
    } else if len == 8 {
      assert dest == 8 * (8 * q);
    } else if len == 16 {
      assert dest == 16 * (4 * q);
    } else {
      assert dest == 32 * (2 * q);
    }
  }

  /** The bytes that a call sets: the range, or one byte too many for an empty range that is not line-aligned. */
  function Touched(dest: nat, len: nat): nat {
    if len == 0 && dest % 64 != 0 then dest + 1 else dest + len
  }

  /** The call sets exactly its range, whatever memory holds, iff the range is not empty or starts on a line. */
  lemma ExactIff(dest: nat, len: nat)
    ensures (forall a: seq<Byte>, c: Byte :: Touched(dest, len) <= |a| ==>
               Filled(a, dest, Touched(dest, len), c) == Filled(a, dest, dest + len, c))
       <==> len > 0 || dest % 64 == 0
  {
    if len == 0 && dest % 64 != 0 {
      var a: seq<Byte> := seq(dest + 1, i => 0);
      var c: Byte := 1;
      assert Filled(a, dest, Touched(dest, len), c)[dest] == 1 && Filled(a, dest, dest + len, c)[dest] == 0;
      assert Filled(a, dest, Touched(dest, len), c) != Filled(a, dest, dest + len, c);
    }
  }

  /**
   * memset_movnt_avx sets exactly the bytes of the range - if the range is not empty or starts on
   * a line - by the stores in the trace, with aligned streaming stores; whole lines are set by
   * streaming stores of half a line only, so that the drain after it covers all of them.
   */
  method Memset(mem: array<Byte>, dest: nat, c: int, len: nat) returns (trace: seq<Access>)
    requires Touched(dest, len) <= mem.Length
    modifies mem
    ensures forall i :: 0 <= i < mem.Length ==>
      mem[i] == if dest <= i < Touched(dest, len) then c % 256 else old(mem[i])
    ensures Exactly(trace, dest, Touched(dest, len)) && AllAligned(trace)
    ensures dest % 64 == 0 && len % 64 == 0 ==> AllHalves(trace)
  {
    var b: Byte := c % 256;
    ghost var was := mem[..];
    var cnt := dest % 64;
    if cnt > 0 {
      trace := Unaligned(mem, dest, len, b);
    } else {
      trace := Lines(mem, dest, len, b);
    }
    assert mem[..] == Filled(was, dest, Touched(dest, len), b);
    assert forall i :: 0 <= i < mem.Length ==> mem[i] == mem[..][i] && old(mem[i]) == was[i];
  }

  /** A range that does not start on a line: up to the next line, and then the lines. */
  method Unaligned(mem: array<Byte>, dest: nat, len: nat, c: Byte) returns (trace: seq<Access>)
    requires dest % 64 != 0 && Touched(dest, len) <= mem.Length
    modifies mem
    ensures mem[..] == Filled(old(mem[..]), dest, Touched(dest, len), c)
    ensures Exactly(trace, dest, Touched(dest, len)) && AllAligned(trace)
  {
    var cnt := 64 - dest % 64;
    if cnt > len {
      cnt := len;
    }
    trace := Small(mem, dest, cnt, c);
    if cnt < len {
      var t := Lines(mem, dest + cnt, len - cnt, c);
      FilledJoins(old(mem[..]), dest, dest + cnt, dest + len, c);
      ExactlyJoins(trace, t, dest, dest + cnt, dest + cnt, dest + len);
      trace := trace + t;
    }
  }

  /** What the stores so far have done: they have set the bytes from `dest` to `at`. */
  ghost predicate Done(now: seq<Byte>, was: seq<Byte>, dest: nat, at: nat, c: Byte, trace: seq<Access>) {
    && dest <= at <= |was| && now == Filled(was, dest, at, c)
    && Exactly(trace, dest, at) && AllAligned(trace)
  }

  /** The part of the range that starts on a line: blocks of 8, 4, 2 and 1 lines, and the remainder. */
  method Lines(mem: array<Byte>, dest: nat, len: nat, c: Byte) returns (trace: seq<Access>)
    requires Lined(dest) && dest + len <= mem.Length
    modifies mem
    ensures mem[..] == Filled(old(mem[..]), dest, dest + len, c)
    ensures Exactly(trace, dest, dest + len) && AllAligned(trace) && (Lined(len) ==> AllHalves(trace))
  {
    ghost var was := mem[..];
    var at, left := dest, len;
    trace := [];
    assert Filled(was, dest, dest, c) == was;
    while left >= 512
      invariant at + left == dest + len && Lined(at) && (Lined(left) <==> Lined(len))
      invariant Done(mem[..], was, dest, at, c, trace) && AllHalves(trace)
    {
      at, left, trace := Advance(mem, was, dest, at, left, 8, c, trace);
    }
    trace := FewLines(mem, was, dest, at, left, c, trace);
  }

  method FewLines(mem: array<Byte>, ghost was: seq<Byte>, ghost dest: nat, from: nat, len: nat, c: Byte,
                  done: seq<Access>)
    returns (trace: seq<Access>)
    requires Lined(from) && len < 512 && from + len <= mem.Length == |was|
    requires Done(mem[..], was, dest, from, c, done) && AllHalves(done)
    modifies mem
    ensures Done(mem[..], was, dest, from + len, c, trace) && (Lined(len) ==> AllHalves(trace))
  {
    var at, left := from, len;
    trace := done;
    if left >= 256 {
      at, left, trace := Advance(mem, was, dest, at, left, 4, c, trace);
    }
    if left >= 128 {
      at, left, trace := Advance(mem, was, dest, at, left, 2, c, trace);
    }
    if left >= 64 {
      at, left, trace := Advance(mem, was, dest, at, left, 1, c, trace);
    }
    trace := LastLine(mem, was, dest, at, left, c, trace);
  }

  method LastLine(mem: array<Byte>, ghost was: seq<Byte>, ghost dest: nat, at: nat, left: nat, c: Byte,
                  done: seq<Access>)
    returns (trace: seq<Access>)
    requires Lined(at) && left < 64 && at + left <= mem.Length == |was|
    requires Done(mem[..], was, dest, at, c, done) && AllHalves(done)
    modifies mem
    ensures Done(mem[..], was, dest, at + left, c, trace) && (Lined(left) ==> AllHalves(trace))
  {
    trace := done;
    if left > 0 {
      var t := Remainder(mem, at, left, c);
      FilledJoins(was, dest, at, at + left, c);
      ExactlyJoins(done, t, dest, at, at, at + left);
      trace := trace + t;
    }
  }

  /** memset_movnt8x64b and its smaller siblings: `lines` lines with two stores each. */
  method Advance(mem: array<Byte>, ghost was: seq<Byte>, ghost dest: nat, at: nat, left: nat, lines: nat, c: Byte,
                 trace: seq<Access>)
    returns (at': nat, left': nat, trace': seq<Access>)
    requires Lined(at) && 64 * lines <= left && at + left <= mem.Length == |was|
    requires Done(mem[..], was, dest, at, c, trace) && AllHalves(trace)
    modifies mem
    ensures at' == at + 64 * lines && left' == left - 64 * lines
    ensures Lined(at') && (Lined(left') <==> Lined(left))
    ensures Done(mem[..], was, dest, at', c, trace') && AllHalves(trace')
  {
    WholeLines(at, left, lines);
    var t := Stream32(mem, at, 2 * lines, c);
    FilledJoins(was, dest, at, at + 64 * lines, c);
    ExactlyJoins(trace, t, dest, at, at, at + 64 * lines);
    at', left', trace' := at + 64 * lines, left - 64 * lines, trace + t;
  }

  lemma WholeLines(at: nat, left: nat, lines: nat)
    requires Lined(at) && 64 * lines <= left
    ensures at % 32 == 0 && Lined(at + 64 * lines) && (Lined(left - 64 * lines) <==> Lined(left))
  {
  }
}
