/** The steps that consume commands keep the invariant. */
module BatchSteps {
  import opened Bytes
  import opened UndoEntries
  import opened Application
  import opened Protocol
  import opened ProtocolInvariant
  import opened PersistSteps

  lemma KeepsBegin(cf: Config, s: State)
    requires InvReady(cf, s) && CanConsume(cf, s, Begin)
    ensures InvBatch(cf, DoConsume(cf, s, Begin))
  {
    FoldNext(cf, s.cmds, s.tail);
  }

  lemma CoveredPrefix(t: seq<Region>, regions: seq<Region>, a: nat)
    requires t <= regions && Covered(t, a)
    ensures Covered(regions, a)
  {
    var i :| 0 <= i < |t| && Within(t[i], a);
    assert regions[i] == t[i];
  }

  /** Mapping memory that no region uses extends the table of a batch. */
  lemma MapTable(t: seq<Region>, regions: seq<Region>, bytes: set<nat>, modified: bool, v: View, size: nat, r: Region)
    requires OpenTable(t, regions, bytes, modified, v, size) && FreshRegion(regions, r, size)
    ensures OpenTable(t, regions + [r], bytes + Span(r.base, r.size), true, v, size)
    ensures forall a :: a in v ==> !Within(r, a)
  {
    var regions' := regions + [r];
    assert Mapped(regions', size) by {
      assert [r][0] == r;
    }
    forall a: nat | a in bytes + Span(r.base, r.size)
      ensures a !in v && Covered(regions', a)
    {
      CoveredAppend(regions, r, a);
      if a in v {
        CoveredPrefix(t, regions, a);
      }
    }
    forall a | a in v
      ensures !Within(r, a)
    {
      CoveredPrefix(t, regions, a);
    }
  }

  lemma KeepsMapFresh(cf: Config, s: State)
    requires s.pc.Running? && InvRunning(cf, s, s.pc.acts) && CanConsume(cf, s, MapFresh)
    ensures InvBatch(cf, DoConsume(cf, s, MapFresh))
  {
    var Mmap(base, size) := s.pc.acts[0];
    MapTable(s.vdisk.table, s.regions, s.freshBytes, s.modified, BaseView(cf, s), |s.vmem|, Region(base, size));
    MmapView(s.vmem, s.regions, base, size);
  }

  lemma KeepsWriteFresh(cf: Config, s: State)
    requires s.pc.Running? && InvRunning(cf, s, s.pc.acts) && CanConsume(cf, s, WriteFresh)
    ensures InvBatch(cf, DoConsume(cf, s, WriteFresh))
  {
    var Write(addr, data) := s.pc.acts[0];
    WriteView(s.vmem, s.regions, addr, data);
  }

  lemma KeepsStartRecord(cf: Config, s: State)
    requires s.pc.Running? && InvRunning(cf, s, s.pc.acts) && CanConsume(cf, s, StartRecord)
    ensures InvBatch(cf, DoConsume(cf, s, StartRecord))
  {
  }

  /** What is known about the first `n` entries survives a store to a later one. */
  lemma SamePrefix(log: seq<Entry>, log': seq<Entry>, start: nat, n: nat, vmem: seq<Byte>, dmem: seq<Byte>,
                   v: View)
    requires start <= n <= |log| == |log'| && forall i :: 0 <= i < n ==> log'[i] == log[i]
    requires Undoable(log, start, n, vmem, dmem, v)
    ensures Undoable(log', start, n, vmem, dmem, v)
  {
    forall i, a | 0 <= i < n && a in v && First(log', i, a) && |log'[i].blk| == BLOCK
      ensures log'[i].blk[a - log'[i].addr] == v[a]
    {
      assert First(log, i, a);
    }
    forall a | a in v && !Held(log', start, a)
      ensures !Held(log, start, a)
    {
      assert forall i :: 0 <= i < start ==> log'[i] == log[i];
    }
  }

  lemma BlockedPrefix(log: seq<Entry>, log': seq<Entry>, n: nat, addr: nat, upto: nat)
    requires n <= |log| == |log'| && forall i :: 0 <= i < n ==> log'[i] == log[i]
    requires Blocked(log, n, addr, upto)
    ensures Blocked(log', n, addr, upto)
  {
    forall b: nat | OnBlock(b) && BlockOf(addr) <= b < upto
      ensures LoggedBlock(log', n, b)
    {
      assert LoggedBlock(log, n, b);
      var i :| 0 <= i < n && log[i].addr == b;
      assert log'[i].addr == b;
    }
  }

  lemma KeepsCopyBlock(cf: Config, s: State, upto: nat)
    requires s.pc.Recording? && InvRecording(cf, s, s.pc.acts, s.pc.start, s.pc.next, s.pc.fill)
    requires CanConsume(cf, s, CopyBlock(upto))
    ensures InvBatch(cf, DoConsume(cf, s, CopyBlock(upto)))
  {
    var s' := DoConsume(cf, s, CopyBlock(upto));
    CopyOpen(cf, s, s', s.pc.start, s.len);
    BlockedPrefix(s.vlog, s'.vlog, s.len, s.pc.acts[0].addr, s.pc.next);
  }

  /** A store into the block of the next, null entry. */
  lemma CopyOpen(cf: Config, s: State, s': State, start: nat, n: nat)
    requires Open(cf, s, start, n) && |s'.vlog| == |s.vlog| && IsNull(s'.vlog[n]) && |s'.vlog[n].blk| == BLOCK
    requires (forall i :: 0 <= i < |s.vlog| && i != n ==> s'.vlog[i] == s.vlog[i])
    requires s' == s.(vlog := s'.vlog, lflush := s'.lflush, pc := s'.pc)
    ensures Open(cf, s', start, n)
  {
    SamePrefix(s.vlog, s'.vlog, start, n, s.vmem, s.dmem, BaseView(cf, s));
  }

  /** The region that a byte is in also holds the start of the byte's block. */
  lemma BlockCovered(t: seq<Region>, size: nat, a: nat)
    requires Mapped(t, size) && Covered(t, a)
    ensures Covered(t, BlockOf(a)) && 0 < BlockOf(a)
  {
    var i :| 0 <= i < |t| && Within(t[i], a);
    BlockAbove(t[i].base, a);
    assert Within(t[i], BlockOf(a));
  }

  /** A byte that is not fresh is in the committed table, and so is the start of its block. */
  lemma OldByteManaged(t: seq<Region>, regions: seq<Region>, bytes: set<nat>, modified: bool, v: View, size: nat,
                       a: nat)
    requires OpenTable(t, regions, bytes, modified, v, size) && Covered(regions, a) && a !in bytes
    ensures Covered(t, BlockOf(a)) && 0 < BlockOf(a)
  {
    var i :| 0 <= i < |regions| && Within(regions[i], a);
    assert i < |t| && Within(t[i], a);
    assert Mapped(t, size);
    BlockCovered(t, size, a);
  }

  /** A fresh byte is in a new region, and so is the start of its block: the committed table has neither. */
  lemma FreshByteUnmanaged(t: seq<Region>, regions: seq<Region>, bytes: set<nat>, modified: bool, v: View, size: nat,
                           a: nat)
    requires OpenTable(t, regions, bytes, modified, v, size) && a in bytes
    ensures !Covered(t, BlockOf(a)) && 0 < BlockOf(a) < size
  {
    var i :| 0 <= i < |regions| && Within(regions[i], a);
    assert AllWithin(regions[i], bytes);
    BlockAbove(regions[i].base, a);
    assert BlockOf(a) in bytes;
  }

  /** A block that a write touches, other than its first, starts inside the write. */
  lemma BlockOfWrite(addr: nat, len: nat, b: nat) returns (a: nat)
    requires OnBlock(b) && BlockOf(addr) <= b < addr + len && 0 < len
    ensures addr <= a < addr + len && BlockOf(a) == b
  {
    a := if addr <= b then b else addr;
    BlockIsUnique(b, a);
  }

  /** The blocks of a write to memory that is not fresh start inside regions of the committed table. */
  lemma BlockManaged(t: seq<Region>, regions: seq<Region>, bytes: set<nat>, modified: bool, v: View, size: nat,
                     addr: nat, len: nat, b: nat)
    requires OpenTable(t, regions, bytes, modified, v, size)
    requires AllCovered(regions, addr, len) && NoneFresh(bytes, addr, len) && 0 < len
    requires BlockOf(addr) <= b < addr + len && OnBlock(b)
    ensures Covered(t, b) && 0 < b
  {
    var a := BlockOfWrite(addr, len, b);
    OldByteManaged(t, regions, bytes, modified, v, size, a);
  }

  /**
   * Recovery's assertion about the entries of a write holds exactly if no byte of the write is
   * fresh: then, and only then, does the committed table manage every block the write touches.
   */
  lemma BlocksManagedIff(t: seq<Region>, regions: seq<Region>, bytes: set<nat>, modified: bool, v: View, size: nat,
                         addr: nat, len: nat)
    requires OpenTable(t, regions, bytes, modified, v, size) && AllCovered(regions, addr, len) && 0 < len
    ensures (forall b: nat :: OnBlock(b) && BlockOf(addr) <= b < addr + len ==> Covered(t, b)) <==>
      NoneFresh(bytes, addr, len)
  {
    if NoneFresh(bytes, addr, len) {
      forall b: nat | OnBlock(b) && BlockOf(addr) <= b < addr + len
        ensures Covered(t, b)
      {
        BlockManaged(t, regions, bytes, modified, v, size, addr, len, b);
      }
    } else {
      var a: nat :| addr <= a < addr + len && a in bytes;
      FreshByteUnmanaged(t, regions, bytes, modified, v, size, a);
      BlockAbove(BlockOf(addr), a);
      assert OnBlock(BlockOf(a));
    }
  }

  lemma BlockAbove(base: nat, addr: nat)
    requires OnBlock(base) && base <= addr
    ensures base <= BlockOf(addr)
  {
    assert base / 32 <= addr / 32;
  }

  /** Storing the address of a copied block turns it into an entry that undoes the block. */
  lemma EntrySaves(log: seq<Entry>, log': seq<Entry>, start: nat, n: nat, vmem: seq<Byte>, dmem: seq<Byte>,
                   v: View, next: nat)
    requires start <= n < |log| && Undoable(log, start, n, vmem, dmem, v)
    requires Copied(log, n, vmem, next, BLOCK)
    requires log' == log[n := log[n].(addr := next, commit := 0)]
    ensures Undoable(log', start, n + 1, vmem, dmem, v)
  {
    SamePrefix(log, log', start, n, vmem, dmem, v);
    forall a | a in v && First(log', n, a)
      ensures log'[n].blk[a - next] == v[a]
    {
      assert !Held(log', start, a);
      assert log'[n].blk == log[n].blk[..BLOCK] == vmem[next..next + BLOCK];
    }
  }

  lemma KeepsStoreAddr(cf: Config, s: State)
    requires s.pc.Recording? && InvRecording(cf, s, s.pc.acts, s.pc.start, s.pc.next, s.pc.fill)
    requires CanConsume(cf, s, StoreAddr)
    ensures InvBatch(cf, DoConsume(cf, s, StoreAddr))
  {
    var s' := DoConsume(cf, s, StoreAddr);
    var Write(addr, data) := s.pc.acts[0];
    var a := BlockOfWrite(addr, |data|, s.pc.next);
    assert Covered(s.regions, a);
    BlockCovered(s.regions, |s.vmem|, a);
    EntrySaves(s.vlog, s'.vlog, s.pc.start, s.len, s.vmem, s.dmem, BaseView(cf, s), s.pc.next);
    BlockedPrefix(s.vlog, s'.vlog, s.len, addr, s.pc.next);
  }

  lemma BlockedNext(log: seq<Entry>, n: nat, n': nat, addr: nat, next: nat)
    requires Blocked(log, n, addr, next) && n <= n' <= |log| && LoggedBlock(log, n', next) && OnBlock(next)
    ensures Blocked(log, n', addr, next + BLOCK)
  {
    forall b: nat | OnBlock(b) && BlockOf(addr) <= b < next + BLOCK
      ensures LoggedBlock(log, n', b)
    {
      if b < next {
        assert LoggedBlock(log, n, b);
      } else {
        assert b == next;
      }
    }
  }

  lemma RecordAdvances(log: seq<Entry>, n: nat, n': nat, acts: seq<Action>, start: nat, next: nat)
    requires InRecord(log, n, acts, start, next) && n <= n' <= |log| && LoggedBlock(log, n', next)
    ensures InRecord(log, n', acts, start, next + BLOCK)
  {
    BlockedNext(log, n, n', acts[0].addr, next);
    assert OnBlock(next + BLOCK);
  }

  lemma KeepsFlushEntry(cf: Config, s: State)
    requires s.pc.Stored? && InvStored(cf, s, s.pc.acts, s.pc.start, s.pc.next)
    requires CanConsume(cf, s, FlushEntry)
    ensures InvBatch(cf, DoConsume(cf, s, FlushEntry))
  {
    var s' := DoConsume(cf, s, FlushEntry);
    assert Open(cf, s', s.pc.start, s'.len);
    assert LoggedBlock(s.vlog, s.len + 1, s.pc.next);
    RecordAdvances(s.vlog, s.len, s.len + 1, s.pc.acts, s.pc.start, s.pc.next);
  }

  lemma KeepsSkipLogged(cf: Config, s: State)
    requires s.pc.Recording? && InvRecording(cf, s, s.pc.acts, s.pc.start, s.pc.next, s.pc.fill)
    requires CanConsume(cf, s, SkipLogged)
    ensures InvBatch(cf, DoConsume(cf, s, SkipLogged))
  {
    RecordAdvances(s.vlog, s.len, s.len, s.pc.acts, s.pc.start, s.pc.next);
    assert InvRecording(cf, DoConsume(cf, s, SkipLogged), s.pc.acts, s.pc.start, s.pc.next + BLOCK, 0);
  }

  lemma DrainOpen(cf: Config, s: State, start: nat, n: nat)
    requires Open(cf, s, start, n) && Flushed(s.lflush, start, n)
    ensures Open(cf, Drain(s), n, n)
  {
    EvictOpen(cf, s, start, n, OnLines(|s.vmem|, s.mflush), s.lflush, s.tflush);
    forall a: nat | !Held(s.vlog, n, a)
      ensures !Held(s.vlog, start, a)
    {
    }
  }

  lemma KeepsDrainRecord(cf: Config, s: State)
    requires s.pc.Recording? && InvRecording(cf, s, s.pc.acts, s.pc.start, s.pc.next, s.pc.fill)
    requires CanConsume(cf, s, DrainRecord)
    ensures InvBatch(cf, DoConsume(cf, s, DrainRecord))
  {
    DrainOpen(cf, s, s.pc.start, s.len);
  }

  /** A write whose blocks are all logged leaves the bytes that are not logged alone. */
  lemma WriteUndoable(log: seq<Entry>, n: nat, vmem: seq<Byte>, dmem: seq<Byte>, v: View, addr: nat,
                      data: seq<Byte>)
    requires Undoable(log, n, n, vmem, dmem, v) && addr + |data| <= |vmem|
    requires Blocked(log, n, addr, addr + |data|)
    ensures Undoable(log, n, n, Store(vmem, addr, data), dmem, v)
  {
    forall a: nat | addr <= a < addr + |data|
      ensures Held(log, n, a)
    {
      assert LoggedBlock(log, n, BlockOf(a));
      var i :| 0 <= i < n && log[i].addr == BlockOf(a);
      assert Holds(log[i], a);
    }
  }

  lemma KeepsWriteLogged(cf: Config, s: State)
    requires s.pc.Logged? && InvLogged(cf, s, s.pc.acts) && CanConsume(cf, s, WriteLogged)
    ensures InvBatch(cf, DoConsume(cf, s, WriteLogged))
  {
    var Write(addr, data) := s.pc.acts[0];
    WriteView(s.vmem, s.regions, addr, data);
    WriteUndoable(s.vlog, s.len, s.vmem, s.dmem, BaseView(cf, s), addr, data);
  }

  /** A write that skips undo_log_record: its blocks have durable entries from earlier writes of the batch. */
  lemma KeepsWriteSkipped(cf: Config, s: State)
    requires s.pc.Running? && InvRunning(cf, s, s.pc.acts) && CanConsume(cf, s, WriteSkipped)
    ensures InvBatch(cf, DoConsume(cf, s, WriteSkipped))
  {
    var l := s.(pc := Logged(s.pc.acts));
    assert InvLogged(cf, l, s.pc.acts);
    KeepsWriteLogged(cf, l);
  }

  lemma KeepsEndCommand(cf: Config, s: State)
    requires InvRunning(cf, s, []) && CanConsume(cf, s, EndCommand)
    ensures InvBatch(cf, DoConsume(cf, s, EndCommand))
  {
  }
}
