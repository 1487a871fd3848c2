/** The command log is a durable queue: what every step of it keeps, and what consume returns. */
module RingInvariant {
  import opened Bytes
  import opened Ring

  type Parser = seq<Byte> -> nat

  // ---- Layout ------------------------------------------------------------------------------------

  /** Entry `k` follows the one before it, or starts over at offset 0 behind padding. */
  ghost predicate Placed(f: Parser, slots: seq<Slot>, k: nat)
    requires k < |slots|
  {
    var p, e := Pos(slots, k), slots[k];
    && GoodEntry(f, e.data) && Lined(p) && Lined(e.start)
    && Phys(e.start) + Align(|e.data|) <= SIZE
    && (e.start == p || (e.start == p + (SIZE - Phys(p)) && Phys(p) > 0))
  }

  ghost predicate Layout(f: Parser, slots: seq<Slot>) {
    forall k {:trigger Placed(f, slots, k)} :: 0 <= k < |slots| ==> Placed(f, slots, k)
  }

  lemma {:induction false} PosGrows(f: Parser, slots: seq<Slot>, i: nat, j: nat)
    requires Layout(f, slots) && i <= j <= |slots|
    ensures Pos(slots, i) <= Pos(slots, j)
    ensures i < j ==> Pos(slots, i) <= slots[i].start < Pos(slots, j)
    decreases j
  {
    if i < j {
      assert Placed(f, slots, i);
      assert Placed(f, slots, j - 1);
      PosGrows(f, slots, i, j - 1);
      if i == j - 1 {
        assert slots[i].data != [];
      }
    }
  }

  lemma PosAligned(f: Parser, slots: seq<Slot>, k: nat)
    requires Layout(f, slots) && k <= |slots|
    ensures Lined(Pos(slots, k))
  {
    if k > 0 {
      assert Placed(f, slots, k - 1);
    }
  }

  /** The buffer holds entry `k`, and the marker of the padding before it. */
  ghost predicate Intact(buf: seq<Byte>, slots: seq<Slot>, k: nat)
    requires k < |slots|
  {
    var at, data := Phys(slots[k].start), slots[k].data;
    && |buf| == SIZE && at + |data| <= SIZE && buf[at..at + |data|] == data
    && (Padded(slots, k) ==> buf[Off(slots, k)] == 0)
  }

  ghost predicate AllIntact(buf: seq<Byte>, slots: seq<Slot>, lo: nat, hi: nat) {
    hi <= |slots| && forall k {:trigger Intact(buf, slots, k)} :: lo <= k < hi ==> Intact(buf, slots, k)
  }

  ghost predicate RingInv(f: Parser, r: State) {
    && |r.vbuf| == |r.dbuf| == SIZE && Layout(f, r.slots)
    && r.ltail <= r.tail <= r.dhead && r.head <= r.dhead <= r.vhead <= |r.slots|
    && Pos(r.slots, |r.slots|) < Pos(r.slots, r.ltail) + SIZE
    && AllIntact(r.vbuf, r.slots, r.ltail, |r.slots|)
    && AllIntact(r.dbuf, r.slots, r.ltail, r.vhead)
    && (r.pc == Idle ==> r.vhead == r.head)
    && (r.pc == DataDrained ==> r.vhead == r.head && AllIntact(r.dbuf, r.slots, r.ltail, |r.slots|))
    && (r.pc == HeadStored || r.pc == HeadDurable ==> r.vhead == |r.slots|)
    && (r.pc == HeadDurable ==> r.dhead == r.vhead)
  }

  /** Within the live part of the log an offset names one position: a stored tail can be read back. */
  lemma OffsetNamesPosition(f: Parser, r: State, i: nat, j: nat)
    requires RingInv(f, r) && r.ltail <= i <= j <= |r.slots|
    ensures Off(r.slots, i) == Off(r.slots, j) <==> i == j
  {
    if i < j {
      PosGrows(f, r.slots, r.ltail, i);
      PosGrows(f, r.slots, i, j);
      PosGrows(f, r.slots, j, |r.slots|);
      PhysDistinct(Pos(r.slots, i), Pos(r.slots, j));
    }
  }

  // ---- What consume returns ----------------------------------------------------------------------

  /** Consuming where an entry starts. */
  lemma ConsumeDirect(f: Parser, buf: seq<Byte>, head: nat, at: nat, data: seq<Byte>)
    requires |buf| == SIZE && at != head && Lined(at) && at + Align(|data|) <= SIZE
    requires buf[at..at + |data|] == data && data != [] && data[0] != 0 && Delimits(f, data)
    ensures Consume(f, buf, head, at) == Entry(at, |data|, (at + Align(|data|)) % 0x10_0000)
  {
    assert buf[at..at + |data|][0] == buf[at];
    assert buf[at..] == data + buf[at + |data|..];
  }

  /** Where entry `t` is, relative to the head, in offsets. */
  lemma EntryOffsets(f: Parser, slots: seq<Slot>, t: nat, head: nat)
    requires Layout(f, slots) && t < head <= |slots| && Pos(slots, head) < Pos(slots, t) + SIZE
    ensures var at := Phys(slots[t].start);
      && Off(slots, t) != Off(slots, head) && at != Off(slots, head) && Lined(at)
      && Off(slots, t + 1) == (at + Align(|slots[t].data|)) % 0x10_0000
      && (Padded(slots, t) ==> at == 0 && Off(slots, t) > Off(slots, head) > 0)
      && (!Padded(slots, t) ==> at == Off(slots, t))
  {
    var e := slots[t];
    assert Placed(f, slots, t);
    PosGrows(f, slots, t + 1, head);
    PhysDistinct(Pos(slots, t), Pos(slots, head));
    PhysEnd(e.start, Align(|e.data|));
    PhysLined(e.start);
    if Padded(slots, t) {
      PhysNextLap(Pos(slots, t));
      PaddedBehind(Pos(slots, t), Pos(slots, head));
    }
  }

  /**
   * Consuming at the offset of entry `t` finds exactly that entry: the padding test, the skip and
   * the assertions are right, and the new tail is the offset after the entry.
   */
  lemma ConsumeFinds(f: Parser, buf: seq<Byte>, slots: seq<Slot>, t: nat, head: nat)
    requires Layout(f, slots) && t < head <= |slots| && Intact(buf, slots, t)
    requires Pos(slots, head) < Pos(slots, t) + SIZE
    ensures Consume(f, buf, Off(slots, head), Off(slots, t))
         == Entry(Phys(slots[t].start), |slots[t].data|, Off(slots, t + 1))
    ensures buf[Phys(slots[t].start)..Phys(slots[t].start) + |slots[t].data|] == slots[t].data
    ensures Padded(slots, t) ==> Off(slots, t) > Off(slots, head) > 0
  {
    EntryOffsets(f, slots, t, head);
    assert Placed(f, slots, t);
    ConsumeDirect(f, buf, Off(slots, head), Phys(slots[t].start), slots[t].data);
  }

  /** Head is in the next lap, before the padding: the assertion tail > head holds at every marker. */
  lemma PaddedBehind(p: nat, h: nat)
    requires Phys(p) > 0 && p + (SIZE - Phys(p)) < h < p + SIZE
    ensures Phys(p) > Phys(h) > 0
  {
    var q := p + (SIZE - Phys(p));
    PhysNextLap(p);
    PhysAdd(q, h - q);
  }

  lemma ConsumeStops(f: Parser, buf: seq<Byte>, slots: seq<Slot>, head: nat)
    requires |buf| == SIZE && head <= |slots|
    ensures Consume(f, buf, Off(slots, head), Off(slots, head)) == NoEntry
  {
  }

  // ---- Steps -------------------------------------------------------------------------------------

  lemma SameIntact(buf: seq<Byte>, slots: seq<Slot>, slots': seq<Slot>, lo: nat, hi: nat)
    requires hi <= |slots| && hi <= |slots'| && (forall k :: 0 <= k < hi ==> slots'[k] == slots[k])
    requires AllIntact(buf, slots, lo, hi)
    ensures AllIntact(buf, slots', lo, hi)
  {
    forall k | lo <= k < hi
      ensures Intact(buf, slots', k)
    {
      assert Intact(buf, slots, k);
    }
  }

  lemma SameSlice(a: seq<Byte>, b: seq<Byte>, at: nat, n: nat)
    requires at + n <= |a| == |b| && forall o :: at <= o < at + n ==> a[o] == b[o]
    ensures a[at..at + n] == b[at..at + n]
  {
  }

  /** Evicting bytes of intact entries into a buffer in which they are intact keeps them so. */
  lemma EvictIntact(d: seq<Byte>, v: seq<Byte>, bytes: set<nat>, slots: seq<Slot>, lo: nat, hi: nat)
    requires |d| == |v| == SIZE && AllIntact(d, slots, lo, hi) && AllIntact(v, slots, lo, hi)
    ensures AllIntact(Mix(d, v, bytes), slots, lo, hi)
  {
    var r := Mix(d, v, bytes);
    forall k | lo <= k < hi
      ensures Intact(r, slots, k)
    {
      var at, n := Phys(slots[k].start), |slots[k].data|;
      assert Intact(d, slots, k) && Intact(v, slots, k);
      forall j | 0 <= j < n
        ensures r[at + j] == slots[k].data[j]
      {
        assert d[at..at + n][j] == d[at + j] && v[at..at + n][j] == v[at + j];
      }
      assert r[at..at + n] == slots[k].data;
    }
  }

  /** Draining the flushed lines of an entry makes it durable. */
  lemma DrainIntact(d: seq<Byte>, v: seq<Byte>, lines: set<nat>, slots: seq<Slot>, k: nat)
    requires |d| == |v| == SIZE && k < |slots| && Intact(v, slots, k) && SlotFlushed(slots, k, lines)
    ensures Intact(Mix(d, v, OnLines(SIZE, lines)), slots, k)
  {
    var r := Mix(d, v, OnLines(SIZE, lines));
    var at, n := Phys(slots[k].start), |slots[k].data|;
    forall o: nat | at <= o < at + n
      ensures r[o] == v[o]
    {
      assert LineOf(o) in lines;
    }
    SameSlice(r, v, at, n);
  }

  lemma UntouchedByte(buf: seq<Byte>, p: nat, start: nat, data: seq<Byte>, u: nat)
    requires |buf| == SIZE && p <= start && Phys(start) + |data| <= SIZE && data != []
    requires u < p && start + |data| <= u + SIZE
    ensures AppendBuf(buf, p, start, data)[Phys(u)] == buf[Phys(u)]
  {
    PhysDistinct(u, p);
    if Phys(start) <= Phys(u) < Phys(start) + |data| {
      var j := Phys(u) - Phys(start);
      PhysAdd(start, j);
      PhysDistinct(u, start + j);
      assert false;
    }
  }

  /** The buffers agree on the virtual positions from `lo` to `p`. */
  ghost predicate SameBehind(buf: seq<Byte>, buf': seq<Byte>, lo: nat, p: nat) {
    |buf| == |buf'| == SIZE && forall u: nat {:trigger Phys(u)} :: lo <= u < p ==> buf'[Phys(u)] == buf[Phys(u)]
  }

  /** A store at virtual positions within one lap touches nothing behind it. */
  lemma AppendSame(buf: seq<Byte>, lo: nat, p: nat, start: nat, data: seq<Byte>)
    requires |buf| == SIZE && p <= start && Phys(start) + |data| <= SIZE && data != [] && start + |data| <= lo + SIZE
    ensures SameBehind(buf, AppendBuf(buf, p, start, data), lo, p)
  {
    forall u: nat | lo <= u < p
      ensures AppendBuf(buf, p, start, data)[Phys(u)] == buf[Phys(u)]
    {
      UntouchedByte(buf, p, start, data, u);
    }
  }

  lemma SpanKept(buf: seq<Byte>, buf': seq<Byte>, lo: nat, p: nat, start: nat, n: nat)
    requires SameBehind(buf, buf', lo, p) && lo <= start && start + n <= p && Phys(start) + n <= SIZE
    ensures buf'[Phys(start)..Phys(start) + n] == buf[Phys(start)..Phys(start) + n]
  {
    forall o: nat | Phys(start) <= o < Phys(start) + n
      ensures buf'[o] == buf[o]
    {
      PhysAdd(start, o - Phys(start));
      assert Phys(start + (o - Phys(start))) == o;
    }
    SameSlice(buf', buf, Phys(start), n);
  }

  lemma IntactKept(f: Parser, buf: seq<Byte>, buf': seq<Byte>, slots: seq<Slot>, k: nat, lo: nat)
    requires k < |slots| && Layout(f, slots) && Intact(buf, slots, k)
    requires lo <= Pos(slots, k) && SameBehind(buf, buf', lo, Pos(slots, |slots|))
    ensures Intact(buf', slots, k)
  {
    assert Placed(f, slots, k);
    PosGrows(f, slots, k + 1, |slots|);
    SpanKept(buf, buf', lo, Pos(slots, |slots|), slots[k].start, |slots[k].data|);
  }

  lemma AppendPlaced(f: Parser, slots: seq<Slot>, data: seq<Byte>)
    requires Layout(f, slots) && GoodEntry(f, data)
    ensures var start := NextStart(slots, Align(|data|));
      && Layout(f, slots + [Slot(start, data)])
      && Phys(start) + Align(|data|) <= SIZE
      && start + Align(|data|) == Pos(slots, |slots|) + Need(Off(slots, |slots|), Align(|data|))
  {
    var p := Pos(slots, |slots|);
    var start := NextStart(slots, Align(|data|));
    PosAligned(f, slots, |slots|);
    PhysLined(p);
    PhysNextLap(p);
    var slots' := slots + [Slot(start, data)];
    forall k | 0 <= k < |slots'|
      ensures Placed(f, slots', k)
    {
      if k < |slots| {
        assert Placed(f, slots, k);
      }
    }
  }

  lemma AppendIntact(buf: seq<Byte>, slots: seq<Slot>, data: seq<Byte>, start: nat)
    requires |buf| == SIZE && Phys(start) + |data| <= SIZE && data != []
    requires start == Pos(slots, |slots|) || (Phys(start) == 0 && Phys(Pos(slots, |slots|)) >= |data|)
    ensures Intact(AppendBuf(buf, Pos(slots, |slots|), start, data), slots + [Slot(start, data)], |slots|)
  {
    var slots' := slots + [Slot(start, data)];
    assert Pos(slots', |slots|) == Pos(slots, |slots|);
    var b := AppendBuf(buf, Pos(slots, |slots|), start, data);
    assert b[Phys(start)..Phys(start) + |data|] == data;
  }

  /** Where psm_reserve puts an entry once its spin loop ends: within one lap of the tail it saw. */
  lemma AppendFits(f: Parser, slots: seq<Slot>, ltail: nat, data: seq<Byte>)
    requires Layout(f, slots) && GoodEntry(f, data) && ltail <= |slots|
    requires Pos(slots, |slots|) < Pos(slots, ltail) + SIZE
    requires HasRoom(Off(slots, ltail), Off(slots, |slots|), Need(Off(slots, |slots|), Align(|data|)))
    ensures var p, start := Pos(slots, |slots|), NextStart(slots, Align(|data|));
      && Layout(f, slots + [Slot(start, data)])
      && p <= start && start + Align(|data|) < Pos(slots, ltail) + SIZE
      && Phys(start) + Align(|data|) <= SIZE
      && (start != p ==> Phys(start) == 0 && Phys(p) >= |data|)
  {
    var p := Pos(slots, |slots|);
    PosGrows(f, slots, ltail, |slots|);
    RoomIsFreeSpace(Pos(slots, ltail), p, Need(Phys(p), Align(|data|)));
    AppendPlaced(f, slots, data);
    PhysNextLap(p);
  }

  lemma AppendKeepsOld(f: Parser, buf: seq<Byte>, slots: seq<Slot>, ltail: nat, start: nat, data: seq<Byte>)
    requires Layout(f, slots) && ltail <= |slots| && AllIntact(buf, slots, ltail, |slots|) && |buf| == SIZE
    requires Pos(slots, |slots|) <= start && start + |data| < Pos(slots, ltail) + SIZE
    requires Phys(start) + |data| <= SIZE && data != []
    ensures AllIntact(AppendBuf(buf, Pos(slots, |slots|), start, data), slots, ltail, |slots|)
  {
    var buf' := AppendBuf(buf, Pos(slots, |slots|), start, data);
    AppendSame(buf, Pos(slots, ltail), Pos(slots, |slots|), start, data);
    forall k | ltail <= k < |slots|
      ensures Intact(buf', slots, k)
    {
      PosGrows(f, slots, ltail, k);
      IntactKept(f, buf, buf', slots, k, Pos(slots, ltail));
    }
  }

  /** The buffer after an append holds the earlier entries and the new one. */
  lemma AppendAll(f: Parser, buf: seq<Byte>, slots: seq<Slot>, ltail: nat, data: seq<Byte>)
    requires Layout(f, slots) && GoodEntry(f, data) && ltail <= |slots| && |buf| == SIZE
    requires Pos(slots, |slots|) < Pos(slots, ltail) + SIZE && AllIntact(buf, slots, ltail, |slots|)
    requires HasRoom(Off(slots, ltail), Off(slots, |slots|), Need(Off(slots, |slots|), Align(|data|)))
    ensures var start := NextStart(slots, Align(|data|)); var slots' := slots + [Slot(start, data)];
      && Layout(f, slots') && Phys(start) + |data| <= SIZE
      && Pos(slots', |slots'|) < Pos(slots', ltail) + SIZE
      && AllIntact(AppendBuf(buf, Pos(slots, |slots|), start, data), slots', ltail, |slots'|)
  {
    var start := NextStart(slots, Align(|data|));
    var slots' := slots + [Slot(start, data)];
    AppendFits(f, slots, ltail, data);
    AppendKeepsOld(f, buf, slots, ltail, start, data);
    SameIntact(AppendBuf(buf, Pos(slots, |slots|), start, data), slots, slots', ltail, |slots|);
    AppendIntact(buf, slots, data, start);
    assert Pos(slots', ltail) == Pos(slots, ltail);
  }

  lemma KeepsAppend(f: Parser, r: State, data: seq<Byte>)
    requires RingInv(f, r) && CanStep(f, r, Append(data))
    ensures RingInv(f, DoStep(f, r, Append(data)))
  {
    var start := NextStart(r.slots, Align(|data|));
    AppendAll(f, r.vbuf, r.slots, r.ltail, data);
    SameIntact(r.dbuf, r.slots, r.slots + [Slot(start, data)], r.ltail, r.vhead);
  }

  lemma KeepsDrainBuf(f: Parser, r: State)
    requires RingInv(f, r) && CanStep(f, r, DrainBuf)
    ensures RingInv(f, DoStep(f, r, DrainBuf))
  {
    var r' := DoStep(f, r, DrainBuf);
    EvictIntact(r.dbuf, r.vbuf, OnLines(SIZE, r.bflush), r.slots, r.ltail, r.vhead);
    forall k | r.vhead <= k < |r.slots|
      ensures Intact(r'.dbuf, r.slots, k)
    {
      DrainIntact(r.dbuf, r.vbuf, r.bflush, r.slots, k);
    }
  }

  lemma KeepsEvictBuf(f: Parser, r: State, bytes: set<nat>)
    requires RingInv(f, r)
    ensures RingInv(f, r.(dbuf := Mix(r.dbuf, r.vbuf, bytes)))
  {
    EvictIntact(r.dbuf, r.vbuf, bytes, r.slots, r.ltail, r.vhead);
    if r.pc == DataDrained {
      EvictIntact(r.dbuf, r.vbuf, bytes, r.slots, r.ltail, |r.slots|);
    }
  }

  /** Every step of the producer, and every eviction, keeps the log intact. */
  lemma KeepsRing(f: Parser, r: State, st: Step)
    requires RingInv(f, r) && CanStep(f, r, st)
    ensures RingInv(f, DoStep(f, r, st))
  {
    match st
    case EvictBuf(bytes) => KeepsEvictBuf(f, r, bytes);
    case EvictHead =>
    case LoadTail => PosGrows(f, r.slots, r.ltail, r.tail);
    case Append(data) => KeepsAppend(f, r, data);
    case FlushBuf(_) =>
    case DrainBuf => KeepsDrainBuf(f, r);
    case StoreHead =>
    case DrainHead =>
    case PublishHead =>
  }
}
