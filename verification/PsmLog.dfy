/** The producer's side of the command log, and the replay loop, as the code has them. */
module PsmLog {
  import opened Bytes
  import opened Ring
  import opened RingInvariant
  import W = WholeSystem

  class Producer {
    ghost const f: Parser       // the consume function's idea of where an entry ends
    var buf: seq<Byte>          // log->buf, as loads see it
    var localHead: nat          // producer_state.local_head
    var localTail: nat          // producer_state.local_tail
    var logHead: nat            // log->head, as loads see it
    var head: nat               // psm->head
    ghost var r: State

    /** The stored and the published head are those of the log, also in the middle of psm_commit. */
    ghost predicate Heads()
      reads this
    {
      && r.vhead <= |r.slots| && r.head <= |r.slots|
      && logHead == Off(r.slots, r.vhead) && head == Off(r.slots, r.head)
    }

    ghost predicate Valid()
      reads this
    {
      && RingInv(f, r) && r.pc == Idle
      && buf == r.vbuf && localHead == Off(r.slots, |r.slots|) && localTail == Off(r.slots, r.ltail)
      && Heads()
    }

    /** psm_init: an empty log, or the log that a crash left. */
    constructor (ghost f: Parser, ghost r: State, buf: seq<Byte>, head: nat, tail: nat)
      requires RingInv(f, r) && r.pc == Idle && r.vhead == |r.slots| && buf == r.vbuf
      requires head == Off(r.slots, r.head) && tail == Off(r.slots, r.ltail)
      ensures Valid() && this.r == r && this.f == f
    {
      this.f, this.r := f, r;
      this.buf, this.head, logHead, localHead, localTail := buf, head, head, head, tail;
    }

    /** One step of the log, and then any eviction. */
    ghost method Take(st: Step)
      requires RingInv(f, r) && CanStep(f, r, st)
      modifies this`r
      ensures RingInv(f, r) && r == DoStep(f, old(r), st).(dbuf := r.dbuf, dhead := r.dhead)
    {
      KeepsRing(f, r, st);
      r := DoStep(f, r, st);
      var bytes: set<nat> := *;
      KeepsRing(f, r, EvictBuf(bytes));
      r := DoStep(f, r, EvictBuf(bytes));
      var now: bool := *;
      if now {
        KeepsRing(f, r, EvictHead);
        r := DoStep(f, r, EvictHead);
      }
    }

    /** local_tail = psm->tail: the load sees some tail that the consumer has published. */
    method LoadTail(loaded: nat)
      requires Valid() && loaded == Off(r.slots, r.tail)
      modifies this`r, this`localTail
      ensures Valid() && localTail == loaded && r == old(r).(ltail := r.ltail, dbuf := r.dbuf, dhead := r.dhead)
    {
      Take(Ring.LoadTail);
      localTail := loaded;
    }

    method Flush(o: nat)
      requires Valid()
      modifies this`r
      ensures Valid() && r == old(r).(bflush := old(r.bflush) + {LineOf(o)}, dbuf := r.dbuf, dhead := r.dhead)
    {
      Take(FlushBuf(LineOf(o)));
    }

    /** Where the entry goes, what the buffer becomes and where the head moves to, in offsets. */
    method Place(data: seq<Byte>) returns (at: nat, newBuf: seq<Byte>, newHead: nat)
      requires Valid() && GoodEntry(f, data)
      requires HasRoom(localTail, localHead, Need(localHead, Align(|data|)))
      ensures CanStep(f, r, Ring.Append(data))
      ensures var e := Slot(NextStart(r.slots, Align(|data|)), data);
        && at == Phys(e.start) && Phys(e.start) + |data| <= SIZE
        && newBuf == AppendBuf(buf, Pos(r.slots, |r.slots|), e.start, data)
        && newHead == Phys(EndOf(e))
    {
      var len := Align(|data|);
      AppendOffsets(f, r, data);
      newHead := (localHead + Need(localHead, len)) % 0x10_0000;
      if localHead + len > SIZE {
        newBuf := Store(buf[localHead := 0], 0, data);
        at := 0;
      } else {
        newBuf := Store(buf, localHead, data);
        at := localHead;
      }
    }

    /**
     * psm_reserve, once its spin loop has seen enough room, and the stores of the entry: behind
     * the head, or at the start of the buffer behind a padding marker if it does not fit.
     */
    method Append(data: seq<Byte>) returns (at: nat)
      requires Valid() && GoodEntry(f, data)
      requires HasRoom(localTail, localHead, Need(localHead, Align(|data|)))
      modifies this`r, this`buf, this`localHead
      ensures Valid() && CanStep(f, old(r), Ring.Append(data))
      ensures r == DoStep(f, old(r), Ring.Append(data)).(dbuf := r.dbuf, dhead := r.dhead)
      ensures at == Phys(r.slots[|r.slots| - 1].start)
    {
      var newBuf, newHead;
      at, newBuf, newHead := Place(data);
      ghost var e := Slot(NextStart(r.slots, Align(|data|)), data);
      SlotsAppended(r.slots, e, r.ltail);
      SlotsAppended(r.slots, e, r.head);
      buf, localHead := newBuf, newHead;
      Take(Ring.Append(data));
    }

    /**
     * The spin loop of psm_reserve. `seen` are the tails that its loads return, one per turn:
     * those of the entries `idx`, which the consumer has published by then. The loop ends with
     * room exactly if the tail it knew, or one of those it sees, leaves enough.
     */
    method Reserve(need: nat, seen: seq<nat>, ghost idx: seq<nat>) returns (ok: bool)
      requires Valid() && |seen| == |idx|
      requires forall k :: 0 <= k < |idx| ==> r.tail <= idx[k] <= r.head && seen[k] == Off(r.slots, idx[k])
      requires forall j, k :: 0 <= j < k < |idx| ==> idx[j] <= idx[k]
      modifies this`r, this`localTail
      ensures Valid() && r.slots == old(r.slots) && r.head == old(r.head) && r.bflush == old(r.bflush)
      ensures ok <==> HasRoom(localTail, localHead, need)
      ensures ok <==>
        HasRoom(old(localTail), localHead, need) || exists k :: 0 <= k < |seen| && HasRoom(seen[k], localHead, need)
    {
      var i := 0;
      while i < |seen| && !HasRoom(localTail, localHead, need)
        invariant 0 <= i <= |seen| && Valid() && r.slots == old(r.slots) && r.head == old(r.head)
        invariant r.bflush == old(r.bflush)
        invariant forall k :: i <= k < |idx| ==> r.tail <= idx[k]
        invariant localTail == if i == 0 then old(localTail) else seen[i - 1]
        invariant i > 0 ==> !HasRoom(old(localTail), localHead, need)
        invariant forall k :: 0 <= k < i - 1 ==> !HasRoom(seen[k], localHead, need)
      {
        r := r.(tail := idx[i]);
        LoadTail(seen[i]);
        i := i + 1;
      }
      ok := HasRoom(localTail, localHead, need);
    }

    /** Everything from the published head on has been flushed. */
    ghost predicate PendingFlushed()
      reads this
    {
      r.head <= |r.slots| && forall k {:trigger SlotFlushed(r.slots, k, r.bflush)} :: r.head <= k < |r.slots| ==>
        SlotFlushed(r.slots, k, r.bflush)
    }

    /** The loop of psm_commit: every line of the circular span from the head to the local head. */
    method FlushSpan()
      requires Valid()
      modifies this`r
      ensures Valid() && r == old(r).(bflush := r.bflush, dbuf := r.dbuf, dhead := r.dhead)
      ensures PendingFlushed()
    {
      ghost var lo, hi := Pos(r.slots, r.head), Pos(r.slots, |r.slots|);
      ghost var v := lo;
      SpanGeometry(f, r);
      var i := head;
      while i != localHead
        invariant Valid() && r == old(r).(bflush := r.bflush, dbuf := r.dbuf, dhead := r.dhead)
        invariant lo <= v <= hi && Lined(v) && i == Phys(v)
        invariant forall u: nat {:trigger Phys(u)} :: lo <= u < v ==> LineOf(Phys(u)) in r.bflush
        decreases hi - v
      {
        Flush(i);
        LineStep(v, hi);
        i := (i + 64) % 0x10_0000;
        v := v + 64;
      }
      LoopDone(v, hi);
      SpanCovers(f, r);
    }

    /** log->head = new_head; pmem_flush(&log->head) */
    method StoreHead(newHead: nat)
      requires RingInv(f, r) && Heads() && r.pc == DataDrained && newHead == Off(r.slots, |r.slots|)
      modifies this`r, this`logHead
      ensures RingInv(f, r) && Heads() && logHead == newHead
      ensures r == old(r).(vhead := |r.slots|, dbuf := r.dbuf, dhead := r.dhead, pc := HeadStored)
    {
      Take(Step.StoreHead);
      logHead := newHead;
    }

    /** pmem_drain: the head is durable, and not yet published. */
    method DrainHead()
      requires RingInv(f, r) && Heads() && r.pc == HeadStored
      modifies this`r
      ensures RingInv(f, r) && Heads() && r.dhead == r.vhead
      ensures r == old(r).(dbuf := r.dbuf, dhead := r.dhead, pc := HeadDurable)
    {
      Take(Step.DrainHead);
    }

    /** head.store(new_head, release): the consumer sees the durable head. */
    method PublishHead(newHead: nat)
      requires RingInv(f, r) && Heads() && r.pc == HeadDurable && newHead == logHead
      modifies this`r, this`head
      ensures RingInv(f, r) && Heads() && r.head == r.dhead == r.vhead && head == newHead
      ensures r == old(r).(head := r.vhead, dbuf := r.dbuf, dhead := r.dhead, pc := Idle)
    {
      Take(Step.PublishHead);
      head := newHead;
    }

    /** psm->update_head: the head is durable before the consumer can see it. */
    method UpdateHead(newHead: nat)
      requires RingInv(f, r) && Heads() && r.pc == DataDrained && newHead == Off(r.slots, |r.slots|)
      modifies this`r, this`logHead, this`head
      ensures RingInv(f, r) && Heads() && r.pc == Idle && r.head == r.dhead == |r.slots| && head == logHead == newHead
      ensures r == old(r).(vhead := r.vhead, head := r.head, dbuf := r.dbuf, dhead := r.dhead, pc := Idle)
    {
      StoreHead(newHead);
      DrainHead();
      PublishHead(newHead);
    }

    /** psm_commit: everything appended so far is durable, and so is the head after it. */
    method Commit(pushOnly: bool)
      requires Valid() && (pushOnly ==> PendingFlushed())
      modifies this`r, this`logHead, this`head
      ensures Valid() && r.slots == old(r.slots) && r.tail == old(r.tail) && r.ltail == old(r.ltail)
      ensures r.head == r.dhead == |r.slots| && head == localHead
    {
      SpanGeometry(f, r);
      if localHead == head {
        LoopDone(Pos(r.slots, r.head), Pos(r.slots, |r.slots|));
        NothingPending(f, r);
        return;
      }
      if !pushOnly {
        FlushSpan();
      }
      Take(DrainBuf);
      UpdateHead(localHead);
    }

    /** Flushes the lines of `len` bytes from the aligned offset `at` on, as pmem_memcpy_nodrain does. */
    method FlushBytes(at: nat, len: nat)
      requires Valid() && Lined(at)
      modifies this`r
      ensures Valid() && r == old(r).(bflush := r.bflush, dbuf := r.dbuf, dhead := r.dhead)
      ensures old(r.bflush) <= r.bflush && SpanFlushed(at, len, r.bflush)
    {
      var o := at;
      while o < at + len
        invariant Valid() && r == old(r).(bflush := r.bflush, dbuf := r.dbuf, dhead := r.dhead)
        invariant at <= o && Lined(o) && old(r.bflush) <= r.bflush && SpanFlushed(at, o - at, r.bflush)
        decreases at + len - o
      {
        Flush(o);
        assert forall u: nat :: o <= u < o + 64 ==> LineOf(u) == LineOf(o);
        o := o + 64;
      }
    }

    /** psm_push: append and flush, so that psm_commit(push_only) need not flush again. */
    method Push(data: seq<Byte>, seen: seq<nat>, ghost idx: seq<nat>) returns (ok: bool)
      requires Valid() && GoodEntry(f, data) && PendingFlushed() && |seen| == |idx|
      requires forall k :: 0 <= k < |idx| ==> r.tail <= idx[k] <= r.head && seen[k] == Off(r.slots, idx[k])
      requires forall j, k :: 0 <= j < k < |idx| ==> idx[j] <= idx[k]
      modifies this`r, this`localTail, this`localHead, this`buf
      ensures Valid() && PendingFlushed() && r.head == old(r.head)
      ensures ok <==>
        var need := Need(old(localHead), Align(|data|));
        || HasRoom(old(localTail), old(localHead), need)
        || exists k :: 0 <= k < |seen| && HasRoom(seen[k], old(localHead), need)
      ensures r.slots == if ok then old(r.slots) + [Slot(NextStart(old(r.slots), Align(|data|)), data)]
        else old(r.slots)
    {
      ok := Reserve(Need(localHead, Align(|data|)), seen, idx);
      if ok {
        PushNow(data);
      }
    }

    method PushNow(data: seq<Byte>)
      requires Valid() && GoodEntry(f, data) && PendingFlushed()
      requires HasRoom(localTail, localHead, Need(localHead, Align(|data|)))
      modifies this`r, this`localHead, this`buf
      ensures Valid() && PendingFlushed() && r.head == old(r.head)
      ensures r.slots == old(r.slots) + [Slot(NextStart(old(r.slots), Align(|data|)), data)]
    {
      AppendOffsets(f, r, data);
      AppendKeepsFlushed(f, r, data);
      var marker := localHead;
      SlotsAppended(r.slots, Slot(NextStart(r.slots, Align(|data|)), data), |r.slots|);
      var at := Append(data);
      ghost var lines := r.bflush;
      LastLined(f, r);
      FlushBytes(at, |data|);
      Flush(marker);
      AllFlushed(r.slots, r.head, lines, r.bflush);
    }
  }

  /** Flushing the last entry and its marker completes a flushed span. */
  lemma AllFlushed(slots: seq<Slot>, head: nat, lines: set<nat>, lines': set<nat>)
    requires slots != [] && head <= |slots| && lines <= lines'
    requires forall k {:trigger SlotFlushed(slots, k, lines)} :: head <= k < |slots| - 1 ==>
      SlotFlushed(slots, k, lines)
    requires SlotFlushed(slots, |slots| - 1, lines')
    ensures forall k {:trigger SlotFlushed(slots, k, lines')} :: head <= k < |slots| ==> SlotFlushed(slots, k, lines')
  {
    forall k | head <= k < |slots| - 1
      ensures SlotFlushed(slots, k, lines')
    {
      assert SlotFlushed(slots, k, lines);
    }
  }

  lemma LastLined(f: Parser, r: State)
    requires RingInv(f, r) && r.slots != []
    ensures Lined(Phys(r.slots[|r.slots| - 1].start))
  {
    assert Placed(f, r.slots, |r.slots| - 1);
    PhysLined(r.slots[|r.slots| - 1].start);
  }

  lemma {:induction false} LineOfPhys(u: nat)
    ensures LineOf(Phys(u)) == (u / 64) % 16384
  {
    if u >= SIZE {
      LineOfPhys(u - SIZE);
      assert u / 64 == (u - 0x10_0000) / 64 + 16384;
    }
  }

  lemma DifferentRemainders(a: nat, b: nat)
    requires a < b < a + 16384
    ensures a % 16384 != b % 16384
  {
  }

  /** Two positions of different virtual lines within one lap are on different lines of the buffer. */
  lemma LinesApart(lo: nat, u: nat, p: nat, w: nat)
    requires Lined(lo) && Lined(p) && lo <= u < p <= w < lo + SIZE
    ensures LineOf(Phys(u)) != LineOf(Phys(w))
  {
    LineOfPhys(u);
    LineOfPhys(w);
    DifferentRemainders(u / 64, w / 64);
  }

  /** The store of a new entry cancels no flush of a line that an earlier entry is on. */
  lemma LineStays(lo: nat, u: nat, p: nat, start: nat, len: nat, lines: set<nat>)
    requires Lined(lo) && Lined(p) && lo <= u < p <= start && start + len < lo + SIZE && 0 < len
    requires Phys(start) + len <= SIZE
    requires LineOf(Phys(u)) in lines
    ensures LineOf(Phys(u)) in StillFlushed(lines, p, start, len)
  {
    var l, s := LineOf(Phys(u)), Phys(start);
    LinesApart(lo, u, p, p);
    if LineOf(s) <= l <= (s + len - 1) / 64 {
      var o := if 64 * l < s then s else 64 * l;
      PhysAdd(start, o - s);
      LinesApart(lo, u, p, start + (o - s));
      assert false;
    }
  }

  lemma SpanStays(lo: nat, u: nat, n: nat, p: nat, start: nat, len: nat, lines: set<nat>)
    requires Lined(lo) && Lined(p) && lo <= u && u + n <= p <= start && start + len < lo + SIZE
    requires 0 < len && Phys(start) + len <= SIZE && Phys(u) + n <= SIZE && SpanFlushed(Phys(u), n, lines)
    ensures SpanFlushed(Phys(u), n, StillFlushed(lines, p, start, len))
  {
    forall o: nat | Phys(u) <= o < Phys(u) + n
      ensures LineOf(o) in StillFlushed(lines, p, start, len)
    {
      PhysAdd(u, o - Phys(u));
      LineStays(lo, u + (o - Phys(u)), p, start, len, lines);
    }
  }

  lemma SlotStaysFlushed(f: Parser, slots: seq<Slot>, k: nat, lo: nat, p: nat, start: nat, len: nat, lines: set<nat>)
    requires Layout(f, slots) && k < |slots| && SlotFlushed(slots, k, lines) && p == Pos(slots, |slots|)
    requires Lined(lo) && lo <= Pos(slots, k) && p <= start && start + len < lo + SIZE && 0 < len
    requires Phys(start) + len <= SIZE
    ensures SlotFlushed(slots, k, StillFlushed(lines, p, start, len))
  {
    assert Placed(f, slots, k);
    PosGrows(f, slots, k + 1, |slots|);
    PosAligned(f, slots, |slots|);
    SpanStays(lo, slots[k].start, |slots[k].data|, p, start, len, lines);
    if Padded(slots, k) {
      LineStays(lo, Pos(slots, k), p, start, len, lines);
    }
  }

  /** Appending keeps the pending entries flushed. */
  lemma AppendKeepsFlushed(f: Parser, r: State, data: seq<Byte>)
    requires RingInv(f, r) && r.pc == Idle && CanStep(f, r, Append(data))
    requires forall k {:trigger SlotFlushed(r.slots, k, r.bflush)} :: r.head <= k < |r.slots| ==>
      SlotFlushed(r.slots, k, r.bflush)
    ensures var r' := DoStep(f, r, Append(data));
      forall k {:trigger SlotFlushed(r'.slots, k, r'.bflush)} :: r.head <= k < |r.slots| ==>
        SlotFlushed(r'.slots, k, r'.bflush)
  {
    var r' := DoStep(f, r, Append(data));
    AppendFits(f, r.slots, r.ltail, data);
    PosAligned(f, r.slots, r.ltail);
    forall k | r.head <= k < |r.slots|
      ensures SlotFlushed(r'.slots, k, r'.bflush)
    {
      PosGrows(f, r.slots, r.ltail, k);
      SlotStaysFlushed(f, r.slots, k, Pos(r.slots, r.ltail), Pos(r.slots, |r.slots|),
                       NextStart(r.slots, Align(|data|)), |data|, r.bflush);
    }
  }

  /** The span that psm_commit flushes is less than one lap of whole lines. */
  lemma SpanGeometry(f: Parser, r: State)
    requires RingInv(f, r) && r.pc == Idle
    ensures var lo, hi := Pos(r.slots, r.head), Pos(r.slots, |r.slots|);
      lo <= hi < lo + SIZE && Lined(lo) && Lined(hi)
  {
    PosGrows(f, r.slots, r.head, |r.slots|);
    PosAligned(f, r.slots, r.head);
    PosAligned(f, r.slots, |r.slots|);
    PosGrows(f, r.slots, r.ltail, r.head);
  }

  lemma NothingPending(f: Parser, r: State)
    requires RingInv(f, r) && r.pc == Idle && Pos(r.slots, r.head) == Pos(r.slots, |r.slots|)
    ensures r.head == r.dhead == |r.slots|
  {
    PosGrows(f, r.slots, r.head, |r.slots|);
  }

  /** One turn of the flush loop moves on by exactly one line. */
  lemma LineStep(v: nat, hi: nat)
    requires Lined(v) && Lined(hi) && v < hi
    ensures v + 64 <= hi && Lined(v + 64) && Phys(v + 64) == (Phys(v) + 64) % 0x10_0000
    ensures forall u: nat {:trigger Phys(u)} :: v <= u < v + 64 ==> LineOf(Phys(u)) == LineOf(Phys(v))
  {
    PhysIsRemainder(v);
    PhysIsRemainder(v + 64);
    forall u: nat | v <= u < v + 64
      ensures LineOf(Phys(u)) == LineOf(Phys(v))
    {
      PhysLined(v);
      PhysAdd(v, u - v);
    }
  }

  lemma LoopDone(v: nat, hi: nat)
    requires v <= hi < v + SIZE && Phys(v) == Phys(hi)
    ensures v == hi
  {
    if v < hi {
      PhysDistinct(v, hi);
    }
  }

  /** The lines of the span are those of the entries in it and of the padding markers before them. */
  lemma SpanCovers(f: Parser, r: State)
    requires RingInv(f, r)
    requires forall u: nat {:trigger Phys(u)} :: Pos(r.slots, r.head) <= u < Pos(r.slots, |r.slots|) ==>
      LineOf(Phys(u)) in r.bflush
    ensures forall k {:trigger SlotFlushed(r.slots, k, r.bflush)} :: r.head <= k < |r.slots| ==>
      SlotFlushed(r.slots, k, r.bflush)
  {
    forall k | r.head <= k < |r.slots|
      ensures SlotFlushed(r.slots, k, r.bflush)
    {
      var e := r.slots[k];
      assert Placed(f, r.slots, k);
      PosGrows(f, r.slots, r.head, k);
      PosGrows(f, r.slots, k + 1, |r.slots|);
      forall o: nat | Phys(e.start) <= o < Phys(e.start) + |e.data|
        ensures LineOf(o) in r.bflush
      {
        PhysAdd(e.start, o - Phys(e.start));
      }
    }
  }

  /** What the code computes with offsets is what the log does with virtual positions. */
  lemma AppendOffsets(f: Parser, r: State, data: seq<Byte>)
    requires RingInv(f, r) && r.pc == Idle && GoodEntry(f, data)
    requires HasRoom(Off(r.slots, r.ltail), Off(r.slots, |r.slots|), Need(Off(r.slots, |r.slots|), Align(|data|)))
    ensures CanStep(f, r, Step.Append(data))
    ensures var p, start := Pos(r.slots, |r.slots|), NextStart(r.slots, Align(|data|));
      && Phys(start) == (if Phys(p) + Align(|data|) > SIZE then 0 else Phys(p))
      && (start == p <==> Phys(p) + Align(|data|) <= SIZE)
      && Phys(start + Align(|data|)) == (Phys(p) + Need(Phys(p), Align(|data|))) % 0x10_0000
  {
    var p := Pos(r.slots, |r.slots|);
    AppendFits(f, r.slots, r.ltail, data);
    AppendPlaced(f, r.slots, data);
    HeadMoves(p, Need(Phys(p), Align(|data|)));
    PhysNextLap(p);
  }

  lemma SlotsAppended(slots: seq<Slot>, e: Slot, k: nat)
    requires k <= |slots|
    ensures Off(slots + [e], k) == Off(slots, k) && Off(slots + [e], |slots| + 1) == Phys(EndOf(e))
  {
  }

  lemma HeadMoves(p: nat, need: nat)
    ensures Phys(p + need) == (Phys(p) + need) % 0x10_0000
  {
    PhysIsRemainder(p);
    PhysIsRemainder(p + need);
  }

  /**
   * psm_init's replay loop: it reads exactly the entries between the tail and the head, in order,
   * and neither of consume's assertions fails.
   */
  method ReplayLog(f: Parser, buf: seq<Byte>, head: nat, tail: nat, ghost slots: seq<Slot>, ghost lo: nat,
                   ghost t: nat, ghost n: nat)
    returns (cs: seq<seq<Byte>>)
    requires Layout(f, slots) && lo <= t <= n <= |slots| && AllIntact(buf, slots, lo, n) && |buf| == SIZE
    requires Pos(slots, n) < Pos(slots, lo) + SIZE && head == Off(slots, n) && tail == Off(slots, t)
    ensures cs == W.Datas(slots[t..n])
  {
    cs := [];
    var at := tail;
    ghost var k := t;
    var more := true;
    while more
      invariant t <= k <= n && at == Off(slots, k) && cs == W.Datas(slots[t..k]) && (!more ==> k == n)
      decreases n - k, more
    {
      ghost var next := k < n;
      if next {
        W.LogConsume(f, buf, slots, lo, k, n);
      }
      var c := Consume(f, buf, head, at);
      match c
      case NoEntry => more := false;
      case Aborted => assert false;
      case Entry(o, len, after) =>
        cs := cs + [buf[o..o + len]];
        at := after;
        k := k + 1;
    }
  }
}
