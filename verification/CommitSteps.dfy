/** Committing a batch, finishing it and recovering keep the invariant. */
module CommitSteps {
  import opened Bytes
  import opened UndoEntries
  import opened Application
  import opened Protocol
  import opened ProtocolInvariant
  import opened PersistSteps
  import opened BatchSteps

  // ---- instrument_commit ---------------------------------------------------------------------

  lemma KeepsStartCommit(cf: Config, s: State)
    requires InvReady(cf, s) && CanCommit(s, StartCommit)
    ensures InvCommit(cf, DoCommit(s, StartCommit))
  {
    assert s.regions[..0] == [];
  }

  lemma KeepsWriteRow(cf: Config, s: State)
    requires s.pc.Tabling? && InvTabling(cf, s, s.pc.row) && CanCommit(s, WriteRow)
    ensures InvCommit(cf, DoCommit(s, WriteRow))
  {
    assert s.regions[..s.pc.row] + [s.regions[s.pc.row]] == s.regions[..s.pc.row + 1];
  }

  lemma KeepsSyncTable(cf: Config, s: State)
    requires s.pc.Tabling? && InvTabling(cf, s, s.pc.row) && CanCommit(s, SyncTable)
    ensures InvCommit(cf, DoCommit(s, SyncTable))
  {
    assert s.regions[..|s.regions|] == s.regions;
  }

  lemma KeepsFlushLine(cf: Config, s: State, line: nat)
    requires InvCommit(cf, s) && CanCommit(s, FlushLine(line))
    ensures InvCommit(cf, DoCommit(s, FlushLine(line)))
  {
  }

  /** Flushing the lines of the logged blocks and of the fresh bytes makes the whole batch durable. */
  lemma FlushedDurable(log: seq<Entry>, n: nat, vmem: seq<Byte>, dmem: seq<Byte>, t: seq<Region>, v: View,
                       regions: seq<Region>, bytes: set<nat>, modified: bool, lines: set<nat>)
    requires Undoable(log, n, n, vmem, dmem, v) && PlainUpTo(log, 0, n, |vmem|) && |vmem| == |dmem|
    requires OpenTable(t, regions, bytes, modified, v, |vmem|)
    requires forall i :: 0 <= i < n ==> LineOf(log[i].addr) in lines
    requires forall a :: a in bytes ==> LineOf(a) in lines
    ensures ViewOf(Mix(dmem, vmem, OnLines(|vmem|, lines)), regions) == ViewOf(vmem, regions)
  {
    var d := Mix(dmem, vmem, OnLines(|vmem|, lines));
    forall a: nat | a < |vmem| && Covered(regions, a)
      ensures d[a] == vmem[a]
    {
      var k :| 0 <= k < |regions| && Within(regions[k], a);
      if k < |t| {
        assert Within(t[k], a);
        assert a in v;
        if Held(log, n, a) {
          var i :| 0 <= i < n && Holds(log[i], a);
          BlockOnOneLine(log[i].addr, a);
        }
      } else {
        assert AllWithin(regions[k], bytes);
      }
    }
  }

  lemma KeepsDrainData(cf: Config, s: State)
    requires InvCommit(cf, s) && CanCommit(s, DrainData)
    ensures InvCommit(cf, DoCommit(s, DrainData))
  {
    EvictOpen(cf, s, s.len, s.len, OnLines(|s.vmem|, s.mflush), s.lflush, s.tflush);
    FlushedDurable(s.vlog, s.len, s.vmem, s.dmem, s.vdisk.table, BaseView(cf, s), s.regions, s.freshBytes, s.modified,
                   s.mflush);
  }

  lemma KeepsStoreCommit(cf: Config, s: State)
    requires InvCommit(cf, s) && CanCommit(s, StoreCommit)
    ensures InvCommit(cf, DoCommit(s, StoreCommit))
  {
    SamePrefix(s.vlog, DoCommit(s, StoreCommit).vlog, s.len, s.len, s.vmem, s.dmem, BaseView(cf, s));
  }

  lemma KeepsFlushCommit(cf: Config, s: State)
    requires InvCommit(cf, s) && CanCommit(s, FlushCommit)
    ensures InvCommit(cf, DoCommit(s, FlushCommit))
  {
  }

  lemma KeepsDrainCommit(cf: Config, s: State)
    requires InvCommit(cf, s) && CanCommit(s, DrainCommit)
    ensures InvCommitted(cf, DoCommit(s, DrainCommit))
  {
    EvictSealing(cf, s, s.len - 1, OnLines(|s.vmem|, s.mflush), s.lflush, s.tflush);
    SealedDurable(s.vlog, Mix(s.dlog, s.vlog, s.lflush), s.len - 1, s.tail, |s.vmem|);
    SealingPost(cf, Drain(s), s.len - 1);
  }

  lemma SealingPost(cf: Config, s: State, n: nat)
    requires Sealing(cf, s, n)
    ensures PostData(cf, s)
  {
  }

  /** Once the commit record is durable the log is a committed one. */
  lemma SealedDurable(vlog: seq<Entry>, dlog: seq<Entry>, n: nat, tail: nat, size: nat)
    requires SealedLog(vlog, dlog, n, tail, size) && dlog[n] == vlog[n]
    ensures LogDurable(vlog, dlog, n + 1) && CommittedLog(vlog, n + 1, tail, size)
  {
  }

  // ---- update_tail and instrument_cleanup -----------------------------------------------------

  lemma KeepsStoreTail(cf: Config, s: State)
    requires (InvCommitted(cf, s) || InvRecoverCommit(cf, s)) && CanFinish(s, StoreTail)
    ensures if s.pc.rec then InvRecoverCommit(cf, DoFinish(s, StoreTail)) else InvCommitted(cf, DoFinish(s, StoreTail))
  {
  }

  lemma KeepsDrainTail(cf: Config, s: State)
    requires (InvCommitted(cf, s) || InvRecoverCommit(cf, s)) && CanFinish(s, DrainTail)
    ensures if s.pc.rec then InvRecoverCommit(cf, DoFinish(s, DrainTail)) else InvCommitted(cf, DoFinish(s, DrainTail))
  {
    EvictPost(cf, s, s.len, OnLines(|s.vmem|, s.mflush), s.lflush, s.tflush);
  }

  /** With the log empty and the table installed, the next batch can start. */
  lemma SettledIsReady(cf: Config, s: State)
    requires Settled(cf, s) && Emptied(s) && s.base == s.tail && Tails(s, s.tail, s.tail, s.tail)
    ensures InvReady(cf, s)
  {
    var v := BaseView(cf, s);
    forall a | a in v
      ensures a < |s.vmem| && s.vmem[a] == v[a] && s.dmem[a] == v[a]
    {
      assert a in ViewOf(s.vmem, s.regions) && a in ViewOf(s.dmem, s.regions);
    }
  }

  lemma KeepsPublish(cf: Config, s: State)
    requires (InvCommitted(cf, s) || InvRecoverCommit(cf, s)) && CanFinish(s, Publish)
    ensures if s.pc.rec then InvReady(cf, DoFinish(s, Publish)) else InvCommitted(cf, DoFinish(s, Publish))
  {
    if s.pc.rec {
      SettledIsReady(cf, DoFinish(s, Publish));
    }
  }

  lemma KeepsRename(cf: Config, s: State)
    requires (InvCommitted(cf, s) || InvRecoverCommit(cf, s)) && CanFinish(s, Rename)
    ensures if s.pc.rec then InvRecoverCommit(cf, DoFinish(s, Rename)) else InvCommitted(cf, DoFinish(s, Rename))
  {
  }

  lemma KeepsSyncRename(cf: Config, s: State)
    requires (InvCommitted(cf, s) || InvRecoverCommit(cf, s)) && CanFinish(s, SyncRename)
    ensures if s.pc.rec then InvRecoverCommit(cf, DoFinish(s, SyncRename))
      else InvCommitted(cf, DoFinish(s, SyncRename))
  {
  }

  lemma ClearPost(cf: Config, s: State)
    requires PostData(cf, s) && CanFinish(s, ClearEntry)
    ensures PostData(cf, DoFinish(s, ClearEntry))
  {
  }

  /** Storing the next zero. */
  lemma ZeroNext(vlog: seq<Entry>, dlog: seq<Entry>, lflush: set<nat>, i: nat, len: nat)
    requires i < len && Zeroing(vlog, dlog, lflush, i, len)
    ensures Zeroing(vlog[i := NullEntry], dlog, lflush + {i}, i + 1, len)
  {
  }

  lemma KeepsClearCleanup(cf: Config, s: State)
    requires InvCommitted(cf, s) && CanFinish(s, ClearEntry)
    ensures InvCommitted(cf, DoFinish(s, ClearEntry))
  {
    ClearPost(cf, s);
    ZeroNext(s.vlog, s.dlog, s.lflush, s.pc.i, s.len);
  }

  lemma KeepsClearRecovered(cf: Config, s: State)
    requires InvRecoverCommit(cf, s) && CanFinish(s, ClearEntry)
    ensures InvRecoverCommit(cf, DoFinish(s, ClearEntry))
  {
    ClearPost(cf, s);
    ZeroNext(s.vlog, s.dlog, s.lflush, s.pc.i, s.len);
  }

  /** Clearing, in normal operation and at the end of recovery from a commit record. */
  lemma KeepsClearCommitted(cf: Config, s: State)
    requires (InvCommitted(cf, s) || InvRecoverCommit(cf, s)) && CanFinish(s, ClearEntry)
    ensures if s.pc.why == RecoverCommit then InvRecoverCommit(cf, DoFinish(s, ClearEntry))
            else InvCommitted(cf, DoFinish(s, ClearEntry))
  {
    if InvCommitted(cf, s) {
      KeepsClearCleanup(cf, s);
    } else {
      KeepsClearRecovered(cf, s);
    }
  }

  lemma KeepsClearUndone(cf: Config, s: State)
    requires InvRecoverUndo(cf, s) && CanFinish(s, ClearEntry)
    ensures InvRecoverUndo(cf, DoFinish(s, ClearEntry))
  {
    ClearPost(cf, s);
    ZeroNext(s.vlog, s.dlog, s.lflush, s.pc.i, s.len);
  }

  /** The drain at the end makes every zero durable. */
  lemma ZerosDurable(vlog: seq<Entry>, dlog: seq<Entry>, lflush: set<nat>, len: nat)
    requires Zeroing(vlog, dlog, lflush, len, len)
    ensures LogDurable(vlog, Mix(dlog, vlog, lflush), 0) && NullFrom(vlog, 0)
  {
  }

  lemma DrainPost(cf: Config, s: State)
    requires PostData(cf, s)
    ensures Sized(s) && PostData(cf, Drain(s))
  {
    EvictView(s, RenameNew(s.vdisk).table, OnLines(|s.vmem|, s.mflush));
  }

  lemma KeepsEndClear(cf: Config, s: State)
    requires (InvCommitted(cf, s) || InvRecoverCommit(cf, s) || InvRecoverUndo(cf, s)) && CanFinish(s, EndClear)
    requires 1 < |s.vlog|
    ensures if s.pc.why == RecoverCommit then InvRecoverCommit(cf, DoFinish(s, EndClear))
            else InvReady(cf, DoFinish(s, EndClear))
  {
    var s' := DoFinish(s, EndClear);
    ZerosDurable(s.vlog, s.dlog, s.lflush, s.len);
    DrainPost(cf, s);
    assert PostData(cf, s') && Emptied(s');
    if s.pc.why != RecoverCommit {
      SettledIsReady(cf, s');
    }
  }
}
