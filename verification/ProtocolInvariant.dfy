/** What every step of the background protocol keeps. */
module ProtocolInvariant {
  import opened Bytes
  import opened Options
  import opened UndoEntries
  import opened Application
  import opened Protocol

  // ---- The undo log against a reference view ------------------------------------------------

  ghost predicate PlainUpTo(log: seq<Entry>, lo: nat, hi: nat, size: nat) {
    hi <= |log| && forall i :: lo <= i < hi ==> Plain(log[i], size)
  }

  ghost predicate NullFrom(log: seq<Entry>, n: nat) { forall i :: n <= i < |log| ==> IsNull(log[i]) }

  /** The first of the first `n` entries for a byte holds the byte's value in `v`. */
  ghost predicate FirstSaved(log: seq<Entry>, n: nat, v: View) {
    forall i, a {:trigger First(log, i, a)} ::
      0 <= i < n <= |log| && a in v && First(log, i, a) && |log[i].blk| == BLOCK ==>
        log[i].blk[a - log[i].addr] == v[a]
  }

  /** A byte that none of the first `n` entries saves still has its value in `v`. */
  ghost predicate UnsavedKept(log: seq<Entry>, n: nat, mem: seq<Byte>, v: View) {
    n <= |log| && forall a {:trigger Held(log, n, a)} :: a in v && !Held(log, n, a) ==> a < |mem| && mem[a] == v[a]
  }

  ghost predicate Domain(v: View, t: seq<Region>, size: nat) {
    forall a: nat :: a in v <==> a < size && Covered(t, a)
  }

  ghost predicate ManagedEntries(log: seq<Entry>, n: nat, t: seq<Region>) {
    forall i {:trigger Covered(t, log[i].addr)} :: 0 <= i < n <= |log| ==> Covered(t, log[i].addr)
  }

  ghost predicate WellSized(log: seq<Entry>) { forall i :: 0 <= i < |log| ==> |log[i].blk| == BLOCK }

  /**
   * `n` entries have been stored; those before `start` are durable, the others may or may not be,
   * in any combination, and nothing follows them.
   */
  ghost predicate OpenLog(vlog: seq<Entry>, dlog: seq<Entry>, start: nat, n: nat, size: nat) {
    && start <= n && n + 1 < |vlog| == |dlog|
    && PlainUpTo(vlog, 0, n, size)
    && (forall i :: 0 <= i < start ==> dlog[i] == vlog[i])
    && (forall i :: start <= i < n ==> IsNull(dlog[i]) || dlog[i] == vlog[i])
    && NullFrom(vlog, n) && NullFrom(dlog, n)
  }

  ghost predicate Shape(s: State) {
    && Sized(s) && |s.vmem| % LINE == 0 && WellSized(s.vlog) && WellSized(s.dlog)
    && s.base <= s.tail <= |s.cmds|
  }

  // ---- A batch in progress -------------------------------------------------------------------

  ghost predicate AllWithin(r: Region, bytes: set<nat>) {
    forall a: nat :: r.base <= a < r.base + r.size ==> a in bytes
  }

  /** Only regions mapped since the last commit are missing from the table, and all of them are fresh. */
  ghost predicate OpenTable(t: seq<Region>, regions: seq<Region>, bytes: set<nat>, modified: bool, v: View, size: nat) {
    && Domain(v, t, size) && Mapped(regions, size) && t <= regions
    && (forall i :: |t| <= i < |regions| ==> AllWithin(regions[i], bytes))
    && (forall a :: a in bytes ==> a !in v && Covered(regions, a))
    && (!modified ==> regions == t)
  }

  ghost function BaseView(cf: Config, s: State): View
    requires s.base <= |s.cmds|
  {
    Fold(cf, s.cmds[..s.base])
  }

  /** The log's first `start` entries undo everything the batch has done to `vmem` and `dmem`. */
  ghost predicate Undoable(vlog: seq<Entry>, start: nat, n: nat, vmem: seq<Byte>, dmem: seq<Byte>, v: View) {
    FirstSaved(vlog, n, v) && UnsavedKept(vlog, start, vmem, v) && UnsavedKept(vlog, start, dmem, v)
  }

  ghost predicate Tails(s: State, v: nat, d: nat, p: nat) { s.vtail == v && s.dtail == d && s.ptail == p }

  ghost predicate OpenState(cf: Config, s: State) {
    && Shape(s) && s.ddisk.table == s.vdisk.table && Tails(s, s.base, s.base, s.base)
    && OpenTable(s.vdisk.table, s.regions, s.freshBytes, s.modified, BaseView(cf, s), |s.vmem|)
  }

  ghost predicate Open(cf: Config, s: State, start: nat, n: nat) {
    && OpenState(cf, s) && OpenLog(s.vlog, s.dlog, start, n, |s.vmem|)
    && Undoable(s.vlog, start, n, s.vmem, s.dmem, BaseView(cf, s))
  }

  ghost predicate NoNewTable(s: State) { s.vdisk.newTable == s.ddisk.newTable == None }

  /** Memory `mem` with table `t` is the result of the first `k` commands. */
  ghost predicate Shows(cf: Config, mem: seq<Byte>, t: seq<Region>, cmds: seq<Cmd>, k: nat) {
    k <= |cmds| && ViewOf(mem, t) == Fold(cf, cmds[..k])
  }

  /** Executing `acts` completes command `k`. */
  ghost predicate InCommand(cf: Config, mem: seq<Byte>, t: seq<Region>, cmds: seq<Cmd>, k: nat, acts: seq<Action>) {
    && k < |cmds| && GoodActs(acts, t, |mem|)
    && ActAll(ViewOf(mem, t), acts) == Fold(cf, cmds[..k + 1])
  }

  ghost predicate AtWrite(acts: seq<Action>) { acts != [] && acts[0].Write? && acts[0].data != [] }

  ghost predicate Flushed(lflush: set<nat>, start: nat, n: nat) { forall i :: start <= i < n ==> i in lflush }

  ghost predicate InRecord(log: seq<Entry>, len: nat, acts: seq<Action>, start: nat, next: nat) {
    && AtWrite(acts) && start <= len
    && BlockOf(acts[0].addr) <= next && OnBlock(next)
    && Blocked(log, len, acts[0].addr, next)
  }

  /** The first `fill` bytes of entry `n` are those of the block at `next`. */
  ghost predicate Copied(log: seq<Entry>, n: nat, mem: seq<Byte>, next: nat, fill: nat) {
    && fill <= BLOCK && next + BLOCK <= |mem| && n + 2 < |log| && |log[n].blk| == BLOCK
    && log[n].blk[..fill] == mem[next..next + fill]
  }

  /** The files hold the table that the batch will commit. */
  ghost predicate NewTableReady(s: State) { s.vdisk == s.ddisk && RenameNew(s.vdisk).table == s.regions }

  ghost predicate IsRecord(e: Entry, tail: nat) { e.addr == 0 && e.commit == tail + 1 }

  /** A commit record follows `n` durable entries; it may or may not be durable itself. */
  ghost predicate SealedLog(vlog: seq<Entry>, dlog: seq<Entry>, n: nat, tail: nat, size: nat) {
    && n + 1 < |vlog| == |dlog|
    && PlainUpTo(vlog, 0, n, size) && (forall i :: 0 <= i < n ==> dlog[i] == vlog[i])
    && IsRecord(vlog[n], tail) && (IsNull(dlog[n]) || dlog[n] == vlog[n])
    && NullFrom(vlog, n + 1) && NullFrom(dlog, n + 1)
  }

  ghost predicate Sealing(cf: Config, s: State, n: nat) {
    && OpenState(cf, s) && SealedLog(s.vlog, s.dlog, n, s.tail, |s.vmem|)
    && Undoable(s.vlog, n, n, s.vmem, s.dmem, BaseView(cf, s))
    && NewTableReady(s)
    && Shows(cf, s.vmem, s.regions, s.cmds, s.tail) && Shows(cf, s.dmem, s.regions, s.cmds, s.tail)
  }

  // ---- After the commit record ---------------------------------------------------------------

  /** The `len` entries of a committed batch: saved blocks and the commit record. */
  ghost predicate CommittedLog(log: seq<Entry>, len: nat, tail: nat, size: nat) {
    && 0 < len < |log| && NullFrom(log, len)
    && PlainUpTo(log, 0, len - 1, size) && IsRecord(log[len - 1], tail)
  }

  /** The first `i` entries have been zeroed by streaming stores, of which any may have persisted. */
  ghost predicate Zeroing(vlog: seq<Entry>, dlog: seq<Entry>, lflush: set<nat>, i: nat, len: nat) {
    && i <= len < |vlog| == |dlog| && NullFrom(vlog, len) && NullFrom(dlog, len)
    && (forall k :: 0 <= k < i ==> vlog[k] == NullEntry && k in lflush)
    && (forall k :: i <= k < len ==> dlog[k] == vlog[k])
  }

  /** The durable log has the same entries as the volatile one. */
  ghost predicate LogDurable(vlog: seq<Entry>, dlog: seq<Entry>, n: nat) {
    |vlog| == |dlog| && (forall i :: 0 <= i < n <= |vlog| ==> dlog[i] == vlog[i]) && NullFrom(dlog, n)
  }

  /** Memory holds everything before `tail`, and whichever table recovery would load covers it. */
  ghost predicate PostData(cf: Config, s: State) {
    var t := RenameNew(s.vdisk).table;
    && Shape(s) && Mapped(t, |s.vmem|) && RenameNew(s.ddisk).table == t
    && Shows(cf, s.vmem, t, s.cmds, s.tail) && Shows(cf, s.dmem, t, s.cmds, s.tail)
  }

  ghost predicate Committed(cf: Config, s: State) {
    PostData(cf, s) && LogDurable(s.vlog, s.dlog, s.len) && CommittedLog(s.vlog, s.len, s.tail, |s.vmem|)
  }

  /** Until the zero of entry 0 has persisted, the durable log is still that of the committed batch. */
  ghost predicate Clearable(s: State, i: nat) {
    && Zeroing(s.vlog, s.dlog, s.lflush, i, s.len)
    && (IsNull(s.dlog[0]) || CommittedLog(s.dlog, s.len, s.tail, |s.vmem|))
  }

  /** The table is installed as well. */
  ghost predicate Settled(cf: Config, s: State) { PostData(cf, s) && s.vdisk == s.ddisk == Disk(s.regions, None) }

  ghost predicate Emptied(s: State) {
    && s.len == 0 && 1 < |s.vlog| && LogDurable(s.vlog, s.dlog, 0) && NullFrom(s.vlog, 0)
    && s.freshBytes == {} && !s.modified
  }

  ghost predicate TailMoving(s: State) {
    s.vtail == s.tail && s.tflush && (s.dtail == s.base || s.dtail == s.tail) && s.ptail == s.base
  }

  // ---- After a crash -------------------------------------------------------------------------

  /** The index of the command up to which the recovered memory has executed. */
  ghost function Included(s: State): nat {
    if Accepts(s.dlog) then s.dlog[Scan(s.dlog) - 1].commit - 1
    else if s.pc in {TailPending(true), TailStored(true)} || (s.pc.Clearing? && s.pc.why == RecoverCommit)
    then s.tail else s.dtail
  }

  ghost predicate RollsBackTo(log: seq<Entry>, n: nat, mem: seq<Byte>, t: seq<Region>, v: View) {
    && PlainUpTo(log, 0, n, |mem|) && FirstSaved(log, n, v) && UnsavedKept(log, n, mem, v)
    && Domain(v, t, |mem|) && Mapped(t, |mem|)
  }

  ghost predicate RollsForwardTo(log: seq<Entry>, n: nat, mem: seq<Byte>, t: seq<Region>, v: View) {
    0 < n && PlainUpTo(log, 0, n - 1, |mem|) && Mapped(t, |mem|) && ViewOf(mem, t) == v
  }

  /** The durable state alone determines the memory after `Included(s)` commands. */
  ghost predicate Recoverable(cf: Config, s: State) {
    var n := Scan(s.dlog);
    && n < |s.dlog| && s.dtail <= Included(s) <= |s.cmds|
    && if Accepts(s.dlog)
       then s.dlog[n - 1].addr == 0
            && RollsForwardTo(s.dlog, n, s.dmem, RenameNew(s.ddisk).table, Fold(cf, s.cmds[..Included(s)]))
       else RollsBackTo(s.dlog, n, s.dmem, s.ddisk.table, Fold(cf, s.cmds[..Included(s)]))
  }

  ghost predicate Crashed(s: State) {
    && s.vmem == s.dmem && s.vlog == s.dlog && s.vtail == s.dtail == s.ptail == s.base && s.vdisk == s.ddisk
    && s.freshBytes == {} && !s.modified && s.tail == RecTail(s)
  }

  /** Entries `i` and later have been rolled back and flushed. */
  ghost predicate UndoneFrom(log: seq<Entry>, i: nat, n: nat, mem: seq<Byte>, lines: set<nat>, v: View) {
    && i <= n <= |log|
    && (forall j, a :: i <= j < n && a in v && First(log, j, a) ==> a < |mem| && mem[a] == v[a])
    && (forall j :: i <= j < n ==> LineOf(log[j].addr) in lines)
    && UnsavedKept(log, n, mem, v)
  }

  ghost predicate UndoLogReady(cf: Config, s: State) {
    && Shape(s) && s.len < |s.vlog| && s.dlog == s.vlog && NullFrom(s.vlog, s.len)
    && RollsBackTo(s.vlog, s.len, s.dmem, s.vdisk.table, BaseView(cf, s))
    && s.ddisk.table == s.vdisk.table
    && Tails(s, s.base, s.base, s.base) && s.tail == s.base && s.freshBytes == {} && !s.modified
  }

  // ---- The invariant -------------------------------------------------------------------------

  ghost predicate InvReady(cf: Config, s: State) {
    Open(cf, s, s.len, s.len) && NoNewTable(s) && Shows(cf, s.vmem, s.regions, s.cmds, s.tail)
  }

  ghost predicate InvRunning(cf: Config, s: State, acts: seq<Action>) {
    Open(cf, s, s.len, s.len) && NoNewTable(s) && InCommand(cf, s.vmem, s.regions, s.cmds, s.tail, acts)
  }

  ghost predicate InvRecording(cf: Config, s: State, acts: seq<Action>, start: nat, next: nat, fill: nat) {
    && Open(cf, s, start, s.len) && NoNewTable(s) && InCommand(cf, s.vmem, s.regions, s.cmds, s.tail, acts)
    && InRecord(s.vlog, s.len, acts, start, next) && Flushed(s.lflush, start, s.len)
    && fill <= BLOCK
    && (fill > 0 ==> Copied(s.vlog, s.len, s.vmem, next, fill) && next < acts[0].addr + |acts[0].data|)
  }

  ghost predicate InvStored(cf: Config, s: State, acts: seq<Action>, start: nat, next: nat) {
    && Open(cf, s, start, s.len + 1) && NoNewTable(s) && InCommand(cf, s.vmem, s.regions, s.cmds, s.tail, acts)
    && InRecord(s.vlog, s.len, acts, start, next) && Flushed(s.lflush, start, s.len)
    && next < acts[0].addr + |acts[0].data| && s.vlog[s.len].addr == next
  }

  ghost predicate InvLogged(cf: Config, s: State, acts: seq<Action>) {
    && Open(cf, s, s.len, s.len) && NoNewTable(s) && InCommand(cf, s.vmem, s.regions, s.cmds, s.tail, acts)
    && AtWrite(acts) && Blocked(s.vlog, s.len, acts[0].addr, acts[0].addr + |acts[0].data|)
  }

  /** Consuming commands. */
  ghost predicate InvBatch(cf: Config, s: State) {
    if s.pc.Ready? then InvReady(cf, s)
    else if s.pc.Running? then InvRunning(cf, s, s.pc.acts)
    else if s.pc.Recording? then InvRecording(cf, s, s.pc.acts, s.pc.start, s.pc.next, s.pc.fill)
    else if s.pc.Stored? then InvStored(cf, s, s.pc.acts, s.pc.start, s.pc.next)
    else s.pc.Logged? && InvLogged(cf, s, s.pc.acts)
  }

  ghost predicate ToCommit(cf: Config, s: State) {
    Open(cf, s, s.len, s.len) && s.base < s.tail && Shows(cf, s.vmem, s.regions, s.cmds, s.tail)
  }

  ghost predicate InvTabling(cf: Config, s: State, row: nat) {
    ToCommit(cf, s) && s.modified && row <= |s.regions| && s.vdisk.newTable == Some(s.regions[..row])
  }

  /** Committing a batch, until its commit record is durable. */
  ghost predicate InvCommit(cf: Config, s: State) {
    if s.pc.Tabling? then InvTabling(cf, s, s.pc.row)
    else if s.pc.Flushing? then ToCommit(cf, s) && NewTableReady(s)
    else if s.pc.Drained? then ToCommit(cf, s) && NewTableReady(s) && Shows(cf, s.dmem, s.regions, s.cmds, s.tail)
    else if s.pc.CommitStored? then Sealing(cf, s, s.len)
    else s.pc.CommitFlushed? && s.len > 0 && Sealing(cf, s, s.len - 1) && s.len - 1 in s.lflush
  }

  /** After the commit record, in normal operation. */
  ghost predicate InvCommitted(cf: Config, s: State) {
    if s.pc == TailPending(false) then Committed(cf, s) && NewTableReady(s) && Tails(s, s.base, s.base, s.base)
    else if s.pc == TailStored(false) then Committed(cf, s) && NewTableReady(s) && TailMoving(s)
    else if s.pc == TailDurable(false) then Committed(cf, s) && NewTableReady(s) && Tails(s, s.tail, s.tail, s.base)
    else if s.pc == Renaming(false) then Committed(cf, s) && NewTableReady(s) && Tails(s, s.tail, s.tail, s.tail)
    else if s.pc == Renamed(false)
    then Committed(cf, s) && s.vdisk == Disk(s.regions, None) && Tails(s, s.tail, s.tail, s.tail)
    else s.pc.Clearing? && s.pc.why == Cleanup
         && Settled(cf, s) && Clearable(s, s.pc.i) && Tails(s, s.tail, s.tail, s.tail)
  }

  /** Recovery that found a commit record. */
  ghost predicate InvRecoverCommit(cf: Config, s: State) {
    && s.freshBytes == {} && !s.modified
    && if s.pc == Renaming(true) then Committed(cf, s) && s.vdisk == s.ddisk && Tails(s, s.base, s.base, s.base)
       else if s.pc == Renamed(true)
       then Committed(cf, s) && s.vdisk.newTable == None && Tails(s, s.base, s.base, s.base)
       else if s.pc == TailPending(true) then Settled(cf, s) && Emptied(s) && Tails(s, s.base, s.base, s.base)
       else if s.pc == TailStored(true) then Settled(cf, s) && Emptied(s) && TailMoving(s)
       else if s.pc == TailDurable(true) then Settled(cf, s) && Emptied(s) && Tails(s, s.tail, s.tail, s.base)
       else s.pc.Clearing? && s.pc.why == RecoverCommit
            && Settled(cf, s) && Clearable(s, s.pc.i) && Tails(s, s.base, s.base, s.base)
  }

  ghost predicate InvDown(cf: Config, s: State) {
    Shape(s) && Crashed(s) && NullBeyondScan(s.dlog) && Recoverable(cf, s)
  }

  ghost predicate InvUndoing(cf: Config, s: State, i: nat) {
    && UndoLogReady(cf, s) && s.vdisk == s.ddisk == Disk(s.regions, None)
    && UndoneFrom(s.vlog, i, s.len, s.vmem, s.mflush, BaseView(cf, s))
  }

  ghost predicate InvUndone(cf: Config, s: State, i: nat) {
    && Settled(cf, s) && Zeroing(s.vlog, s.dlog, s.lflush, i, s.len) && Tails(s, s.base, s.base, s.base)
    && s.tail == s.base && s.freshBytes == {} && !s.modified
    && PlainUpTo(s.dlog, 0, Scan(s.dlog), |s.dmem|) && FirstSaved(s.dlog, Scan(s.dlog), BaseView(cf, s))
  }

  /** Down, and recovery that rolls back. */
  ghost predicate InvRecoverUndo(cf: Config, s: State) {
    if s.pc.Down? then InvDown(cf, s)
    else if s.pc.Unlinking? then UndoLogReady(cf, s) && s.vmem == s.dmem
    else if s.pc.Unlinked? then UndoLogReady(cf, s) && s.vmem == s.dmem && s.vdisk.newTable == None
    else if s.pc.Undoing? then InvUndoing(cf, s, s.pc.i)
    else s.pc.Clearing? && s.pc.why == RecoverUndo && InvUndone(cf, s, s.pc.i)
  }

  ghost predicate Inv(cf: Config, s: State) {
    && 1 < |s.vlog|
    && (InvBatch(cf, s) || InvCommit(cf, s) || InvCommitted(cf, s) || InvRecoverCommit(cf, s) || InvRecoverUndo(cf, s))
  }
}
