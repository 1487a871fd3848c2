/** Persistence may advance at any time, and commands may be added, without breaking the invariant. */
module PersistSteps {
  import opened Bytes
  import opened UndoEntries
  import opened Application
  import opened Protocol
  import opened ProtocolInvariant

  // ---- Durability may advance at any time ----------------------------------------------------

  lemma EvictOpen(cf: Config, s: State, start: nat, n: nat, bytes: set<nat>, entries: set<nat>, t: bool)
    requires Open(cf, s, start, n)
    ensures Open(cf, EvictState(s, bytes, entries, t), start, n)
  {
  }

  lemma EvictView(s: State, t: seq<Region>, bytes: set<nat>)
    requires Sized(s) && ViewOf(s.vmem, t) == ViewOf(s.dmem, t)
    ensures ViewOf(Mix(s.dmem, s.vmem, bytes), t) == ViewOf(s.vmem, t)
  {
    var m := Mix(s.dmem, s.vmem, bytes);
    forall a: nat | a < |s.vmem| && Covered(t, a)
      ensures m[a] == s.vmem[a]
    {
      assert ViewOf(s.vmem, t)[a] == ViewOf(s.dmem, t)[a];
    }
  }

  lemma EvictSame(s: State, entries: set<nat>)
    requires Sized(s) && s.dlog == s.vlog
    ensures Mix(s.dlog, s.vlog, entries) == s.vlog
  {
  }

  lemma EvictPost(cf: Config, s: State, n: nat, bytes: set<nat>, entries: set<nat>, t: bool)
    requires PostData(cf, s) && LogDurable(s.vlog, s.dlog, n) && NullFrom(s.vlog, n)
    ensures PostData(cf, EvictState(s, bytes, entries, t))
    ensures LogDurable(s.vlog, EvictState(s, bytes, entries, t).dlog, n)
  {
    EvictView(s, RenameNew(s.vdisk).table, bytes);
  }

  lemma EvictSealing(cf: Config, s: State, n: nat, bytes: set<nat>, entries: set<nat>, t: bool)
    requires Sealing(cf, s, n)
    ensures Sealing(cf, EvictState(s, bytes, entries, t), n)
  {
    EvictView(s, s.regions, bytes);
  }

  lemma EvictBatch(cf: Config, s: State, bytes: set<nat>, entries: set<nat>, t: bool)
    requires InvBatch(cf, s)
    ensures InvBatch(cf, EvictState(s, bytes, entries, t))
  {
    if s.pc.Recording? {
      EvictOpen(cf, s, s.pc.start, s.len, bytes, entries, t);
    } else if s.pc.Stored? {
      EvictOpen(cf, s, s.pc.start, s.len + 1, bytes, entries, t);
    } else {
      EvictOpen(cf, s, s.len, s.len, bytes, entries, t);
    }
  }

  lemma EvictCommit(cf: Config, s: State, bytes: set<nat>, entries: set<nat>, t: bool)
    requires InvCommit(cf, s)
    ensures InvCommit(cf, EvictState(s, bytes, entries, t))
  {
    if s.pc == CommitStored {
      EvictSealing(cf, s, s.len, bytes, entries, t);
    } else if s.pc == CommitFlushed {
      EvictSealing(cf, s, s.len - 1, bytes, entries, t);
    } else {
      EvictOpen(cf, s, s.len, s.len, bytes, entries, t);
      if s.pc == Drained {
        EvictView(s, s.regions, bytes);
      }
    }
  }

  /** Persisting zeros keeps the log clearable if the zero of entry 0 is the first to persist. */
  lemma EvictClearable(s: State, entries: set<nat>)
    requires Sized(s) && ClearsCommitted(s.pc) && Clearable(s, s.pc.i) && FirstZeroFirst(s, entries)
    ensures Clearable(s.(dlog := Mix(s.dlog, s.vlog, entries)), s.pc.i)
  {
    var dlog := Mix(s.dlog, s.vlog, entries);
    if !IsNull(dlog[0]) {
      assert forall k :: 0 <= k < s.len ==> dlog[k] == s.dlog[k];
    }
  }

  lemma EvictSettled(cf: Config, s: State, bytes: set<nat>, entries: set<nat>, t: bool)
    requires Settled(cf, s)
    ensures Sized(s) && Settled(cf, EvictState(s, bytes, entries, t))
  {
    EvictView(s, RenameNew(s.vdisk).table, bytes);
  }

  lemma EvictCommitted(cf: Config, s: State, bytes: set<nat>, entries: set<nat>, t: bool)
    requires InvCommitted(cf, s) && FirstZeroFirst(s, entries)
    ensures InvCommitted(cf, EvictState(s, bytes, entries, t))
  {
    if s.pc.Clearing? {
      EvictSettled(cf, s, bytes, entries, t);
      EvictClearable(s, entries);
    } else {
      EvictPost(cf, s, s.len, bytes, entries, t);
    }
  }

  lemma EvictRecoverCommit(cf: Config, s: State, bytes: set<nat>, entries: set<nat>, t: bool)
    requires InvRecoverCommit(cf, s) && FirstZeroFirst(s, entries)
    ensures InvRecoverCommit(cf, EvictState(s, bytes, entries, t))
  {
    if s.pc.Clearing? {
      EvictSettled(cf, s, bytes, entries, t);
      EvictClearable(s, entries);
    } else {
      EvictPost(cf, s, s.len, bytes, entries, t);
    }
  }

  /** A log with some entries zeroed still saves what its remaining prefix saved. */
  lemma ZeroedPrefix(log: seq<Entry>, log': seq<Entry>, v: View, size: nat)
    requires |log'| == |log| && forall k :: 0 <= k < |log| ==> log'[k] == log[k] || IsNull(log'[k])
    requires PlainUpTo(log, 0, Scan(log), size) && FirstSaved(log, Scan(log), v)
    ensures PlainUpTo(log', 0, Scan(log'), size) && FirstSaved(log', Scan(log'), v)
  {
    var n := Scan(log');
    assert forall k :: 0 <= k < n ==> log'[k] == log[k];
    ScanAtLeast(log, n);
    PrefixSaved(log, log', n, Scan(log), v);
  }

  lemma ScanAtLeast(log: seq<Entry>, n: nat)
    requires n <= |log| && forall k :: 0 <= k < n ==> !IsNull(log[k])
    ensures n <= Scan(log)
  {
  }

  lemma PrefixSaved(log: seq<Entry>, log': seq<Entry>, n: nat, m: nat, v: View)
    requires n <= m <= |log| == |log'| && (forall k :: 0 <= k < n ==> log'[k] == log[k]) && FirstSaved(log, m, v)
    ensures FirstSaved(log', n, v)
  {
    forall i, a | 0 <= i < n && a in v && First(log', i, a) && |log'[i].blk| == BLOCK
      ensures log'[i].blk[a - log'[i].addr] == v[a]
    {
      assert First(log, i, a);
    }
  }

  lemma EvictUndone(cf: Config, s: State, bytes: set<nat>, entries: set<nat>, t: bool)
    requires s.pc.Clearing? && InvUndone(cf, s, s.pc.i)
    ensures InvUndone(cf, EvictState(s, bytes, entries, t), s.pc.i)
  {
    EvictSettled(cf, s, bytes, entries, t);
    ZeroedPrefix(s.dlog, Mix(s.dlog, s.vlog, entries), BaseView(cf, s), |s.dmem|);
  }

  lemma EvictRecoverUndo(cf: Config, s: State, bytes: set<nat>, entries: set<nat>, t: bool)
    requires InvRecoverUndo(cf, s) && s.pc != Down
    ensures InvRecoverUndo(cf, EvictState(s, bytes, entries, t))
  {
    if s.pc.Clearing? {
      EvictUndone(cf, s, bytes, entries, t);
    } else {
      EvictSame(s, entries);
      if s.pc == Unlinking || s.pc == Unlinked {
        assert Mix(s.dmem, s.vmem, bytes) == s.dmem;
      }
    }
  }

  lemma KeepsEvict(cf: Config, s: State, bytes: set<nat>, entries: set<nat>, t: bool)
    requires Inv(cf, s) && s.pc != Down && FirstZeroFirst(s, entries)
    ensures Inv(cf, EvictState(s, bytes, entries, t))
  {
    if InvBatch(cf, s) {
      EvictBatch(cf, s, bytes, entries, t);
    } else if InvCommit(cf, s) {
      EvictCommit(cf, s, bytes, entries, t);
    } else if InvCommitted(cf, s) {
      EvictCommitted(cf, s, bytes, entries, t);
    } else if InvRecoverCommit(cf, s) {
      EvictRecoverCommit(cf, s, bytes, entries, t);
    } else {
      EvictRecoverUndo(cf, s, bytes, entries, t);
    }
  }

  // ---- Half a line of a streaming store --------------------------------------------------------------

  lemma HalfClearable(s: State, k: nat, head: bool)
    requires ClearsCommitted(s.pc) && Clearable(s, s.pc.i) && CanEvictHalf(s, k, head) && WellSized(s.vlog)
    ensures Clearable(s.(dlog := s.dlog[k := HalfEntry(s.dlog[k], s.vlog[k], head)]), s.pc.i)
  {
  }

  lemma HalfUndone(cf: Config, s: State, k: nat, head: bool)
    requires s.pc.Clearing? && s.pc.why == RecoverUndo && InvUndone(cf, s, s.pc.i) && CanEvictHalf(s, k, head)
    ensures InvUndone(cf, s.(dlog := s.dlog[k := HalfEntry(s.dlog[k], s.vlog[k], head)]), s.pc.i)
  {
    var log := s.dlog[k := HalfEntry(s.dlog[k], s.vlog[k], head)];
    if head {
      ZeroedPrefix(s.dlog, log, BaseView(cf, s), |s.dmem|);
    } else {
      ScanIs(log, Scan(s.dlog));
      PrefixSaved(s.dlog, log, Scan(s.dlog), Scan(s.dlog), BaseView(cf, s));
    }
  }

  lemma KeepsEvictHalf(cf: Config, s: State, k: nat, head: bool)
    requires Inv(cf, s) && Sized(s) && CanEnv(s, EvictHalf(k, head))
    ensures Inv(cf, DoEnv(s, EvictHalf(k, head)))
  {
    if s.pc.why == RecoverUndo {
      HalfUndone(cf, s, k, head);
    } else {
      HalfClearable(s, k, head);
    }
  }

  // ---- The table files -------------------------------------------------------------------------------

  lemma SyncDiskOpen(cf: Config, s: State, start: nat, n: nat)
    requires Open(cf, s, start, n)
    ensures Open(cf, s.(ddisk := s.vdisk), start, n)
  {
  }

  lemma SyncDiskBatch(cf: Config, s: State)
    requires InvBatch(cf, s)
    ensures InvBatch(cf, s.(ddisk := s.vdisk))
  {
    if s.pc.Recording? {
      SyncDiskOpen(cf, s, s.pc.start, s.len);
    } else if s.pc.Stored? {
      SyncDiskOpen(cf, s, s.pc.start, s.len + 1);
    } else {
      SyncDiskOpen(cf, s, s.len, s.len);
    }
  }

  lemma SyncDiskCommit(cf: Config, s: State)
    requires InvCommit(cf, s)
    ensures InvCommit(cf, s.(ddisk := s.vdisk))
  {
    if s.pc.Tabling? {
      SyncDiskOpen(cf, s, s.len, s.len);
    } else {
      assert s.(ddisk := s.vdisk) == s;
    }
  }

  lemma SyncDiskCommitted(cf: Config, s: State)
    requires InvCommitted(cf, s)
    ensures InvCommitted(cf, s.(ddisk := s.vdisk))
  {
    if s.pc != Renamed(false) {
      assert s.(ddisk := s.vdisk) == s;
    }
  }

  lemma SyncDiskRecover(cf: Config, s: State)
    requires InvRecoverCommit(cf, s)
    ensures InvRecoverCommit(cf, s.(ddisk := s.vdisk))
  {
    if s.pc != Renamed(true) {
      assert s.(ddisk := s.vdisk) == s;
    }
  }

  lemma SyncDiskUndo(cf: Config, s: State)
    requires InvRecoverUndo(cf, s)
    ensures InvRecoverUndo(cf, s.(ddisk := s.vdisk))
  {
  }

  lemma KeepsSyncDisk(cf: Config, s: State)
    requires Inv(cf, s)
    ensures Inv(cf, s.(ddisk := s.vdisk))
  {
    if InvBatch(cf, s) {
      SyncDiskBatch(cf, s);
    } else if InvCommit(cf, s) {
      SyncDiskCommit(cf, s);
    } else if InvCommitted(cf, s) {
      SyncDiskCommitted(cf, s);
    } else if InvRecoverCommit(cf, s) {
      SyncDiskRecover(cf, s);
    } else {
      SyncDiskUndo(cf, s);
    }
  }

  /** Once the new table is durable, writing it back again changes nothing. */
  lemma SyncFileSame(s: State, rows: nat)
    requires CanEnv(s, SyncFile(rows)) && Sized(s) && s.vdisk == s.ddisk
    ensures DoEnv(s, SyncFile(rows)) == s
  {
    assert s.vdisk.newTable.value[..rows] == s.vdisk.newTable.value;
  }

  lemma KeepsSyncFile(cf: Config, s: State, rows: nat)
    requires Inv(cf, s) && Sized(s) && CanEnv(s, SyncFile(rows))
    ensures Inv(cf, DoEnv(s, SyncFile(rows)))
  {
    if s.vdisk == s.ddisk {
      SyncFileSame(s, rows);
    } else if s.pc.Tabling? {
      assert InvTabling(cf, DoEnv(s, SyncFile(rows)), s.pc.row);
    }
  }

  lemma FoldKept(cf: Config, cmds: seq<Cmd>, c: Cmd, k: nat)
    requires k <= |cmds|
    ensures Fold(cf, (cmds + [c])[..k]) == Fold(cf, cmds[..k])
  {
    assert (cmds + [c])[..k] == cmds[..k];
  }

  lemma ProduceOpen(cf: Config, s: State, c: Cmd, start: nat, n: nat)
    requires Open(cf, s, start, n)
    ensures Open(cf, s.(cmds := s.cmds + [c]), start, n)
  {
    FoldKept(cf, s.cmds, c, s.base);
  }

  lemma ShowsKept(cf: Config, mem: seq<Byte>, t: seq<Region>, cmds: seq<Cmd>, c: Cmd, k: nat)
    requires Shows(cf, mem, t, cmds, k)
    ensures Shows(cf, mem, t, cmds + [c], k)
  {
    FoldKept(cf, cmds, c, k);
  }

  lemma CommandKept(cf: Config, mem: seq<Byte>, t: seq<Region>, cmds: seq<Cmd>, c: Cmd, k: nat, acts: seq<Action>)
    requires InCommand(cf, mem, t, cmds, k, acts)
    ensures InCommand(cf, mem, t, cmds + [c], k, acts)
  {
    FoldKept(cf, cmds, c, k + 1);
  }

  lemma ProduceBatch(cf: Config, s: State, c: Cmd)
    requires InvBatch(cf, s)
    ensures InvBatch(cf, s.(cmds := s.cmds + [c]))
  {
    if s.pc.Ready? {
      ProduceOpen(cf, s, c, s.len, s.len);
      ShowsKept(cf, s.vmem, s.regions, s.cmds, c, s.tail);
    } else {
      CommandKept(cf, s.vmem, s.regions, s.cmds, c, s.tail, s.pc.acts);
      if s.pc.Recording? {
        ProduceOpen(cf, s, c, s.pc.start, s.len);
      } else if s.pc.Stored? {
        ProduceOpen(cf, s, c, s.pc.start, s.len + 1);
      } else {
        ProduceOpen(cf, s, c, s.len, s.len);
      }
    }
  }

  lemma ProduceCommit(cf: Config, s: State, c: Cmd)
    requires InvCommit(cf, s)
    ensures InvCommit(cf, s.(cmds := s.cmds + [c]))
  {
    if s.pc.CommitStored? {
      ProduceSealing(cf, s, c, s.len);
    } else if s.pc.CommitFlushed? {
      ProduceSealing(cf, s, c, s.len - 1);
    } else {
      ProduceOpen(cf, s, c, s.len, s.len);
      ShowsKept(cf, s.vmem, s.regions, s.cmds, c, s.tail);
      if s.pc.Drained? {
        ShowsKept(cf, s.dmem, s.regions, s.cmds, c, s.tail);
      }
    }
  }

  lemma ProduceSealing(cf: Config, s: State, c: Cmd, n: nat)
    requires Sealing(cf, s, n)
    ensures Sealing(cf, s.(cmds := s.cmds + [c]), n)
  {
    FoldKept(cf, s.cmds, c, s.base);
    ShowsKept(cf, s.vmem, s.regions, s.cmds, c, s.tail);
    ShowsKept(cf, s.dmem, s.regions, s.cmds, c, s.tail);
  }

  lemma ProducePost(cf: Config, s: State, c: Cmd)
    requires PostData(cf, s)
    ensures PostData(cf, s.(cmds := s.cmds + [c]))
  {
    ShowsKept(cf, s.vmem, RenameNew(s.vdisk).table, s.cmds, c, s.tail);
    ShowsKept(cf, s.dmem, RenameNew(s.vdisk).table, s.cmds, c, s.tail);
  }

  lemma ProduceCommitted(cf: Config, s: State, c: Cmd)
    requires InvCommitted(cf, s)
    ensures InvCommitted(cf, s.(cmds := s.cmds + [c]))
  {
    ProducePost(cf, s, c);
  }

  lemma ProduceRecoverCommit(cf: Config, s: State, c: Cmd)
    requires InvRecoverCommit(cf, s)
    ensures InvRecoverCommit(cf, s.(cmds := s.cmds + [c]))
  {
    ProducePost(cf, s, c);
  }

  lemma ProduceUndo(cf: Config, s: State, c: Cmd)
    requires InvRecoverUndo(cf, s)
    ensures InvRecoverUndo(cf, s.(cmds := s.cmds + [c]))
  {
    FoldKept(cf, s.cmds, c, s.base);
    FoldKept(cf, s.cmds, c, s.tail);
    assert s.pc == Down ==> Included(s) == s.tail;
  }

  lemma KeepsProduce(cf: Config, s: State, c: Cmd)
    requires Inv(cf, s)
    ensures Inv(cf, s.(cmds := s.cmds + [c]))
  {
    if InvBatch(cf, s) {
      ProduceBatch(cf, s, c);
    } else if InvCommit(cf, s) {
      ProduceCommit(cf, s, c);
    } else if InvCommitted(cf, s) {
      ProduceCommitted(cf, s, c);
    } else if InvRecoverCommit(cf, s) {
      ProduceRecoverCommit(cf, s, c);
    } else {
      ProduceUndo(cf, s, c);
    }
  }
}
