/** Crashing is safe everywhere, and recovery keeps the invariant. */
module RecoverSteps {
  import opened Bytes
  import opened Options
  import opened UndoEntries
  import opened Application
  import opened Protocol
  import opened ProtocolInvariant
  import opened PersistSteps

  // ---- What a crash finds ----------------------------------------------------------------------

  /** A scan of a partly persisted open log sees a prefix of it that includes every drained entry. */
  lemma ScanOpen(vlog: seq<Entry>, dlog: seq<Entry>, start: nat, n: nat, size: nat)
    requires OpenLog(vlog, dlog, start, n, size)
    ensures start <= Scan(dlog) <= n
    ensures forall i :: 0 <= i < Scan(dlog) ==> dlog[i] == vlog[i]
    ensures !Accepts(dlog)
  {
    var k := Scan(dlog);
    assert IsNull(dlog[n]);
    assert k <= n;
    assert forall i :: 0 <= i < start ==> Plain(dlog[i], size);
  }

  /** Any prefix of the log that includes the drained entries undoes the batch. */
  lemma PrefixUndoes(vlog: seq<Entry>, dlog: seq<Entry>, start: nat, n: nat, k: nat, vmem: seq<Byte>, dmem: seq<Byte>,
                     v: View)
    requires start <= k <= n <= |vlog| == |dlog| && forall i :: 0 <= i < k ==> dlog[i] == vlog[i]
    requires Undoable(vlog, start, n, vmem, dmem, v)
    ensures FirstSaved(dlog, k, v) && UnsavedKept(dlog, k, dmem, v)
  {
    forall i, a | 0 <= i < k && a in v && First(dlog, i, a) && |dlog[i].blk| == BLOCK
      ensures dlog[i].blk[a - dlog[i].addr] == v[a]
    {
      assert First(vlog, i, a);
    }
    forall a | a in v && !Held(dlog, k, a)
      ensures a < |dmem| && dmem[a] == v[a]
    {
      assert forall i :: 0 <= i < start ==> dlog[i] == vlog[i];
      assert !Held(vlog, start, a);
    }
  }

  lemma MappedPrefix(t: seq<Region>, regions: seq<Region>, size: nat)
    requires t <= regions && Mapped(regions, size)
    ensures Mapped(t, size)
  {
    assert forall i :: 0 <= i < |t| ==> t[i] == regions[i];
  }

  lemma RecoverableOpen(cf: Config, s: State, start: nat, n: nat)
    requires Open(cf, s, start, n)
    requires !s.pc.TailPending? && !s.pc.TailStored? && !s.pc.Clearing?
    ensures Recoverable(cf, s) && Included(s) == s.base && RecTail(s) == s.base
  {
    ScanOpen(s.vlog, s.dlog, start, n, |s.vmem|);
    PrefixUndoes(s.vlog, s.dlog, start, n, Scan(s.dlog), s.vmem, s.dmem, BaseView(cf, s));
    MappedPrefix(s.vdisk.table, s.regions, |s.vmem|);
  }

  lemma ScanSealed(vlog: seq<Entry>, dlog: seq<Entry>, n: nat, tail: nat, size: nat)
    requires SealedLog(vlog, dlog, n, tail, size)
    ensures IsNull(dlog[n]) ==> Scan(dlog) == n && !Accepts(dlog)
    ensures !IsNull(dlog[n]) ==> Scan(dlog) == n + 1 && Accepts(dlog)
  {
    if IsNull(dlog[n]) {
      ScanIs(dlog, n);
    } else {
      ScanIs(dlog, n + 1);
    }
  }

  /** Before its commit record is durable the batch is undone; from then on it is done. */
  lemma RecoverableSealing(cf: Config, s: State, n: nat)
    requires Sealing(cf, s, n)
    requires !s.pc.TailPending? && !s.pc.TailStored? && !s.pc.Clearing?
    ensures Recoverable(cf, s) && Included(s) == RecTail(s)
    ensures RecTail(s) == if IsNull(s.dlog[n]) then s.base else s.tail
  {
    ScanSealed(s.vlog, s.dlog, n, s.tail, |s.vmem|);
    if IsNull(s.dlog[n]) {
      PrefixUndoes(s.vlog, s.dlog, n, n, n, s.vmem, s.dmem, BaseView(cf, s));
      MappedPrefix(s.vdisk.table, s.regions, |s.vmem|);
    }
  }

  /** The log of a committed batch is accepted. */
  lemma ScanCommitted(log: seq<Entry>, len: nat, tail: nat, size: nat)
    requires CommittedLog(log, len, tail, size)
    ensures Scan(log) == len && Accepts(log)
  {
    ScanIs(log, len);
  }

  lemma CommittedDurable(vlog: seq<Entry>, dlog: seq<Entry>, len: nat, tail: nat, size: nat)
    requires LogDurable(vlog, dlog, len) && CommittedLog(vlog, len, tail, size)
    ensures CommittedLog(dlog, len, tail, size)
  {
  }

  lemma RecoverableCommitted(cf: Config, s: State)
    requires PostData(cf, s) && CommittedLog(s.dlog, s.len, s.tail, |s.vmem|) && s.dtail <= s.tail
    ensures Recoverable(cf, s) && Accepts(s.dlog) && Included(s) == RecTail(s) == s.tail
  {
    ScanCommitted(s.dlog, s.len, s.tail, |s.vmem|);
  }

  /** Once the zero of entry 0 has persisted, the log is empty to the scan. */
  lemma RecoverableCleared(cf: Config, s: State)
    requires PostData(cf, s) && |s.dlog| > 0 && IsNull(s.dlog[0]) && s.ddisk.newTable == None
    requires s.dtail <= s.tail && (s.dtail == s.tail || (s.pc.Clearing? && s.pc.why == RecoverCommit))
    ensures Recoverable(cf, s) && !Accepts(s.dlog) && Included(s) == s.tail && RecTail(s) == s.dtail
  {
    ScanIs(s.dlog, 0);
    ShownDomain(cf, s.dmem, s.ddisk.table, s.cmds, s.tail, s.dlog);
  }

  lemma RecoverableClearing(cf: Config, s: State)
    requires Settled(cf, s) && s.pc.Clearing? && Clearable(s, s.pc.i)
    requires s.dtail <= s.tail && (s.dtail == s.tail || s.pc.why == RecoverCommit)
    ensures Recoverable(cf, s) && Included(s) == s.tail && RecTail(s) == if Accepts(s.dlog) then s.tail else s.dtail
  {
    if IsNull(s.dlog[0]) {
      RecoverableCleared(cf, s);
    } else {
      RecoverableCommitted(cf, s);
    }
  }

  /** With nothing to roll back, the recovered memory is the durable one. */
  lemma ShownDomain(cf: Config, mem: seq<Byte>, t: seq<Region>, cmds: seq<Cmd>, k: nat, log: seq<Entry>)
    requires Shows(cf, mem, t, cmds, k) && Mapped(t, |mem|)
    ensures RollsBackTo(log, 0, mem, t, Fold(cf, cmds[..k]))
  {
    var v := Fold(cf, cmds[..k]);
    forall a | a in v
      ensures a < |mem| && mem[a] == v[a]
    {
      assert a in ViewOf(mem, t);
    }
  }

  lemma RecoverableEmpty(cf: Config, s: State)
    requires Settled(cf, s) && Emptied(s) && s.dtail <= s.tail && Included(s) == s.tail
    ensures Recoverable(cf, s) && RecTail(s) == s.dtail
  {
    ScanIs(s.dlog, 0);
    ShownDomain(cf, s.dmem, s.ddisk.table, s.cmds, s.tail, s.dlog);
  }

  lemma RecoverableUndoing(cf: Config, s: State)
    requires UndoLogReady(cf, s) && !s.pc.TailPending? && !s.pc.TailStored? && !s.pc.Clearing?
    ensures Recoverable(cf, s) && Included(s) == RecTail(s) == s.base
  {
    ScanIs(s.dlog, s.len);
  }

  /** A rollback that has started clearing the log: the entries that are left still roll back. */
  lemma RecoverableUndone(cf: Config, s: State, i: nat)
    requires InvUndone(cf, s, i) && s.pc == Clearing(i, RecoverUndo)
    ensures Recoverable(cf, s) && Included(s) == RecTail(s) == s.base && !Accepts(s.dlog)
  {
    ShownDomain(cf, s.dmem, s.ddisk.table, s.cmds, s.tail, s.dlog);
    assert IsNull(s.dlog[s.len]);
    ShownUnsaved(cf, s.dmem, s.ddisk.table, s.cmds, s.tail, s.dlog, Scan(s.dlog));
  }

  lemma ShownUnsaved(cf: Config, mem: seq<Byte>, t: seq<Region>, cmds: seq<Cmd>, k: nat, log: seq<Entry>, n: nat)
    requires Shows(cf, mem, t, cmds, k) && n <= |log|
    ensures UnsavedKept(log, n, mem, Fold(cf, cmds[..k]))
  {
    forall a | a in Fold(cf, cmds[..k])
      ensures a < |mem| && mem[a] == Fold(cf, cmds[..k])[a]
    {
      assert a in ViewOf(mem, t);
    }
  }

  // ---- The two recovery branches ----------------------------------------------------------------

  lemma KeepsScanLog(cf: Config, s: State)
    requires InvDown(cf, s) && CanRecover(s, ScanLog)
    ensures Accepts(s.dlog) ==> InvRecoverCommit(cf, DoRecover(s, ScanLog))
    ensures !Accepts(s.dlog) ==> InvRecoverUndo(cf, DoRecover(s, ScanLog))
  {
  }

  lemma KeepsUnlink(cf: Config, s: State)
    requires InvRecoverUndo(cf, s) && CanRecover(s, Unlink)
    ensures InvRecoverUndo(cf, DoRecover(s, Unlink))
  {
  }

  lemma KeepsSyncUnlink(cf: Config, s: State)
    requires InvRecoverUndo(cf, s) && CanRecover(s, SyncUnlink)
    ensures InvRecoverUndo(cf, DoRecover(s, SyncUnlink))
  {
  }

  /** One turn of the rollback loop. */
  lemma UndoOne(log: seq<Entry>, i: nat, n: nat, mem: seq<Byte>, lines: set<nat>, v: View)
    requires UndoneFrom(log, i, n, mem, lines, v) && 0 < i && PlainUpTo(log, 0, n, |mem|) && FirstSaved(log, n, v)
    requires forall a :: a in v ==> a < |mem|
    ensures UndoneFrom(log, i - 1, n, Restore(mem, log[i - 1]), lines + {LineOf(log[i - 1].addr)}, v)
  {
    var e := log[i - 1];
    var mem' := Restore(mem, e);
    forall j, a | i - 1 <= j < n && a in v && First(log, j, a)
      ensures mem'[a] == v[a]
    {
      if j > i - 1 {
        assert !Holds(log[i - 1], a);
      }
    }
    forall a | a in v && !Held(log, n, a)
      ensures mem'[a] == v[a]
    {
      assert !Holds(log[i - 1], a);
    }
  }

  lemma KeepsUndo(cf: Config, s: State)
    requires InvRecoverUndo(cf, s) && CanRecover(s, Undo)
    ensures InvRecoverUndo(cf, DoRecover(s, Undo))
  {
    UndoOne(s.vlog, s.pc.i, s.len, s.vmem, s.mflush, BaseView(cf, s));
  }

  /** When the loop is done and drained, memory shows exactly the last committed state. */
  lemma UndoneShows(log: seq<Entry>, n: nat, vmem: seq<Byte>, dmem: seq<Byte>, lines: set<nat>, t: seq<Region>, v: View)
    requires UndoneFrom(log, 0, n, vmem, lines, v) && RollsBackTo(log, n, dmem, t, v) && |vmem| == |dmem|
    ensures ViewOf(vmem, t) == v
    ensures ViewOf(Mix(dmem, vmem, OnLines(|vmem|, lines)), t) == v
  {
    var d := Mix(dmem, vmem, OnLines(|vmem|, lines));
    forall a | a in v
      ensures vmem[a] == v[a] && d[a] == v[a]
    {
      if Held(log, n, a) {
        var j := FirstExists(log, n, a);
        BlockOnOneLine(log[j].addr, a);
      }
    }
  }

  lemma KeepsDrainUndo(cf: Config, s: State)
    requires InvRecoverUndo(cf, s) && CanRecover(s, DrainUndo)
    ensures InvRecoverUndo(cf, DoRecover(s, DrainUndo))
  {
    UndoneShows(s.vlog, s.len, s.vmem, s.dmem, s.mflush, s.vdisk.table, BaseView(cf, s));
    EvictSame(s, s.lflush);
    ScanIs(s.vlog, s.len);
  }
}
