/**
 * The circular command log. Entries are described by virtual positions that grow for ever; the
 * code works with their physical offsets, the positions modulo the size of the buffer.
 */
module Ring {
  import opened Bytes

  /** PSM_LOG_SIZE_B */
  const SIZE: nat := 0x10_0000

  /** align_to_cache_line_size */
  function Align(n: nat): (r: nat)
    ensures Lined(r) && n <= r < n + 64
  {
    64 * Lines(n)
  }

  /** The number of cache lines that `n` bytes take. */
  function Lines(n: nat): (r: nat)
    ensures n <= 64 * r < n + 64
  {
    if n == 0 then 0 else if n <= 64 then 1 else 1 + Lines(n - 64)
  }

  /** The offset in the buffer of a virtual position: the remainder modulo SIZE. */
  function Phys(p: nat): (o: nat)
    ensures o < SIZE
  {
    if p < SIZE then p else Phys(p - SIZE)
  }

  lemma {:induction false} PhysIsRemainder(p: nat)
    ensures Phys(p) == p % 0x10_0000
  {
    if p >= SIZE {
      PhysIsRemainder(p - SIZE);
    }
  }

  /** An entry and the virtual position where it starts. */
  datatype Slot = Slot(start: nat, data: seq<Byte>)

  function EndOf(s: Slot): nat { s.start + Align(|s.data|) }

  /** The virtual position after the first `k` entries: where the head or tail for them points. */
  function Pos(slots: seq<Slot>, k: nat): nat
    requires k <= |slots|
  {
    if k == 0 then 0 else EndOf(slots[k - 1])
  }

  /** The offset that the code stores for it. */
  function Off(slots: seq<Slot>, k: nat): nat
    requires k <= |slots|
  {
    Phys(Pos(slots, k))
  }

  // ---- Modular arithmetic of offsets -----------------------------------------------------------

  lemma PhysDistinct(p: nat, q: nat)
    requires p < q < p + SIZE
    ensures Phys(p) != Phys(q)
  {
    PhysIsRemainder(p);
    PhysIsRemainder(q);
  }

  lemma PhysAdd(p: nat, j: nat)
    requires Phys(p) + j < SIZE
    ensures Phys(p + j) == Phys(p) + j
  {
    PhysIsRemainder(p);
    PhysIsRemainder(p + j);
  }

  lemma PhysEnd(p: nat, j: nat)
    requires Phys(p) + j <= SIZE
    ensures Phys(p + j) == (Phys(p) + j) % 0x10_0000
  {
    PhysIsRemainder(p);
    PhysIsRemainder(p + j);
  }

  /** The next multiple of SIZE. */
  lemma PhysNextLap(p: nat)
    ensures Phys(p + (SIZE - Phys(p))) == 0
  {
    PhysIsRemainder(p);
    PhysIsRemainder(p + (SIZE - Phys(p)));
  }

  lemma PhysLined(p: nat)
    requires Lined(p)
    ensures Lined(Phys(p)) && Lined(p + (SIZE - Phys(p)))
  {
    PhysIsRemainder(p);
  }

  // ---- psm_reserve -----------------------------------------------------------------------------

  /** The space that reserving `len` aligned bytes at offset `head` takes, discarded space included. */
  function Need(head: nat, len: nat): nat
    requires head < SIZE
  {
    if head + len > SIZE then len + (SIZE - head) else len
  }

  /** The condition that ends the spin loop. */
  predicate HasRoom(tail: nat, head: nat, need: nat)
    requires head < SIZE
  {
    (tail + SIZE - head - 1) % 0x10_0000 >= need
  }

  /** The spin condition measures exactly the free space between the virtual head and tail. */
  lemma RoomIsFreeSpace(t: nat, h: nat, need: nat)
    requires t <= h < t + SIZE
    ensures HasRoom(Phys(t), Phys(h), need) <==> h + need < t + SIZE
  {
    var d := h - t;
    OneLap(SIZE - 1 - d);
    PhysMoves(t, d);
  }

  /** Moving on by less than a lap. */
  lemma PhysMoves(p: nat, d: nat)
    requires d < SIZE
    ensures Phys(p + d) == if Phys(p) + d < SIZE then Phys(p) + d else Phys(p) + d - SIZE
  {
    if Phys(p) + d < SIZE {
      PhysAdd(p, d);
    } else {
      PhysNextLap(p);
      PhysAdd(p + (SIZE - Phys(p)), Phys(p) + d - SIZE);
    }
  }

  lemma OneLap(x: nat)
    requires x < SIZE
    ensures x % 0x10_0000 == (x + SIZE) % 0x10_0000 == x
  {
  }

  /**
   * Some tail lets psm_reserve(len) through if and only if it is not the case that
   * SIZE - len < head <= len.
   */
  lemma ReserveFeasible(head: nat, len: nat)
    requires head < SIZE && Lined(head) && 0 < len < SIZE && Lined(len)
    ensures (exists tail: nat :: tail < SIZE && HasRoom(tail, head, Need(head, len))) <==> !(SIZE - len < head <= len)
  {
    assert HasRoom(head, head, SIZE - 1);
    if !(SIZE - len < head <= len) {
      assert Need(head, len) <= SIZE - 1;
      assert HasRoom(head, head, Need(head, len));
    }
  }

  /** Entries of up to half the log can always be reserved once the consumer has caught up. */
  lemma HalfAlwaysFits(head: nat, len: nat)
    requires head < SIZE && 0 < len <= SIZE / 2
    ensures HasRoom(head, head, Need(head, len))
  {
    assert (head + SIZE - head - 1) % 0x10_0000 == SIZE - 1;
  }

  /** The bound is tight: one line more, at an offset just as far in, is never let through. */
  lemma MoreThanHalfMaySpin(tail: nat)
    requires tail < SIZE
    ensures !HasRoom(tail, SIZE / 2 + 64, Need(SIZE / 2 + 64, SIZE / 2 + 64))
  {
    ReserveFeasible(SIZE / 2 + 64, SIZE / 2 + 64);
  }

  // ---- consume ---------------------------------------------------------------------------------

  /** The result of consume: no entry, a failed assertion, or an entry and the tail after it. */
  datatype Consumed = NoEntry | Aborted | Entry(at: nat, len: nat, tail: nat)

  function Consume(f: seq<Byte> -> nat, buf: seq<Byte>, head: nat, tail: nat): Consumed
    requires tail < |buf| == SIZE
    decreases tail
  {
    if tail == head then NoEntry
    else if buf[tail] == 0 then
      if tail > head then Consume(f, buf, head, 0) else Aborted
    else if !Lined(tail) then Aborted
    else
      var len := f(buf[tail..]);
      if tail + Align(len) <= SIZE then Entry(tail, len, (tail + Align(len)) % 0x10_0000) else Aborted
  }

  /** The consume function recognises where `data` ends, whatever follows it. */
  ghost predicate Delimits(f: seq<Byte> -> nat, data: seq<Byte>) {
    forall rest: seq<Byte> :: f(data + rest) == |data|
  }

  ghost predicate GoodEntry(f: seq<Byte> -> nat, data: seq<Byte>) {
    data != [] && data[0] != 0 && Align(|data|) < SIZE && Delimits(f, data)
  }

  /** The length of a line of text: up to and including the first newline. */
  function LineLength(b: seq<Byte>): nat {
    if b == [] then 0 else if b[0] == 10 then 1 else 1 + LineLength(b[1..])
  }

  lemma {:induction false} LineDelimits(data: seq<Byte>, rest: seq<Byte>)
    requires data != [] && data[|data| - 1] == 10 && forall i :: 0 <= i < |data| - 1 ==> data[i] != 10
    ensures LineLength(data + rest) == |data|
    decreases |data|
  {
    assert (data + rest)[1..] == data[1..] + rest;
    if |data| > 1 {
      LineDelimits(data[1..], rest);
    }
  }

  /** Commands that are lines of text, say, are good entries. */
  lemma TextEntry(data: seq<Byte>)
    requires data != [] && data[|data| - 1] == 10 && forall i :: 0 <= i < |data| - 1 ==> data[i] != 10
    ensures GoodEntry(LineLength, data) <==> data[0] != 0 && Align(|data|) < SIZE
  {
    forall rest: seq<Byte>
      ensures LineLength(data + rest) == |data|
    {
      LineDelimits(data, rest);
    }
  }

  // ---- The producer and the consumer -----------------------------------------------------------

  datatype ProducerPC = Idle | DataDrained | HeadStored | HeadDurable

  datatype State = State(
    vbuf: seq<Byte>, dbuf: seq<Byte>, bflush: set<nat>,  // log->buf; flushed lines
    slots: seq<Slot>,                                    // entries reserved so far; local_head is after the last
    vhead: nat, dhead: nat,                              // log->head, as a number of entries
    head: nat,                                           // psm->head
    tail: nat,                                           // psm->tail
    ltail: nat,                                          // producer_state.local_tail
    pc: ProducerPC)

  datatype Step =
    | EvictBuf(bytes: set<nat>)
    | EvictHead
    | LoadTail
    | Append(data: seq<Byte>)       // psm_reserve and filling the entry in
    | FlushBuf(line: nat)
    | DrainBuf                      // psm_commit, once its span is flushed
    | StoreHead
    | DrainHead
    | PublishHead

  predicate Padded(slots: seq<Slot>, k: nat)
    requires k < |slots|
  {
    slots[k].start != Pos(slots, k)
  }

  /** Every line that holds one of the `len` bytes from offset `at` on is in `lines`. */
  predicate SpanFlushed(at: nat, len: nat, lines: set<nat>) {
    forall o: nat :: at <= o < at + len ==> LineOf(o) in lines
  }

  /** The lines of entry `k`, and of the padding marker before it, have been flushed. */
  predicate SlotFlushed(slots: seq<Slot>, k: nat, lines: set<nat>)
    requires k < |slots|
  {
    && SpanFlushed(Phys(slots[k].start), |slots[k].data|, lines)
    && (Padded(slots, k) ==> LineOf(Off(slots, k)) in lines)
  }

  /** Where the next entry of `len` aligned bytes goes. */
  function NextStart(slots: seq<Slot>, len: nat): nat {
    var p := Pos(slots, |slots|);
    if Phys(p) + len > SIZE then p + (SIZE - Phys(p)) else p
  }

  /** The buffer after the marker (if any) and the entry are stored. */
  function AppendBuf(buf: seq<Byte>, p: nat, start: nat, data: seq<Byte>): (r: seq<Byte>)
    requires |buf| == SIZE && Phys(start) + |data| <= SIZE
    ensures |r| == SIZE
  {
    Store(if start == p then buf else buf[Phys(p) := 0], Phys(start), data)
  }

  /** A store cancels the flushes of the lines it touches. */
  function StillFlushed(lines: set<nat>, p: nat, start: nat, len: nat): set<nat> {
    set l | l in lines && !(LineOf(Phys(start)) <= l <= (Phys(start) + len - 1) / 64) &&
            (start == p || l != LineOf(Phys(p)))
  }

  ghost predicate CanStep(f: seq<Byte> -> nat, r: State, st: Step) {
    && |r.vbuf| == |r.dbuf| == SIZE && r.ltail <= |r.slots| && r.head <= |r.slots|
    && match st
    case EvictBuf(_) => true
    case EvictHead => true
    case LoadTail => r.pc == Idle
    case Append(data) =>
      && r.pc == Idle && GoodEntry(f, data)
      && HasRoom(Off(r.slots, r.ltail), Off(r.slots, |r.slots|), Need(Off(r.slots, |r.slots|), Align(|data|)))
      && Phys(NextStart(r.slots, Align(|data|))) + |data| <= SIZE
    case FlushBuf(_) => r.pc == Idle
    case DrainBuf =>
      r.pc == Idle && r.head < |r.slots| &&
      forall k {:trigger SlotFlushed(r.slots, k, r.bflush)} :: r.head <= k < |r.slots| ==>
        SlotFlushed(r.slots, k, r.bflush)
    case StoreHead => r.pc == DataDrained
    case DrainHead => r.pc == HeadStored
    case PublishHead => r.pc == HeadDurable
  }

  ghost function DoStep(f: seq<Byte> -> nat, r: State, st: Step): State
    requires CanStep(f, r, st)
  {
    match st
    case EvictBuf(bytes) => r.(dbuf := Mix(r.dbuf, r.vbuf, bytes))
    case EvictHead => r.(dhead := r.vhead)
    case LoadTail => r.(ltail := r.tail)
    case Append(data) =>
      var p := Pos(r.slots, |r.slots|);
      var start := NextStart(r.slots, Align(|data|));
      r.(vbuf := AppendBuf(r.vbuf, p, start, data), slots := r.slots + [Slot(start, data)],
         bflush := StillFlushed(r.bflush, p, start, |data|))
    case FlushBuf(line) => r.(bflush := r.bflush + {line})
    case DrainBuf => r.(dbuf := Mix(r.dbuf, r.vbuf, OnLines(SIZE, r.bflush)), bflush := {}, pc := DataDrained)
    case StoreHead => r.(vhead := |r.slots|, pc := HeadStored)
    case DrainHead => r.(dhead := r.vhead, pc := HeadDurable)
    case PublishHead => r.(head := r.vhead, pc := Idle)
  }
}
