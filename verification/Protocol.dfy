/** A value that may be absent. */
module Options {
  datatype Option<+T> = None | Some(value: T)
}

/**
 * The background process as a state machine. Every field of persistent memory has a volatile view
 * (`v...`: what loads see) and a durable view (`d...`: what a crash leaves). Anything stored may
 * become durable at any moment (the Evict, SyncDisk and SyncFile steps); a drain makes everything
 * flushed before it durable. A step is at most one store to persistent memory (with the flush of its
 * line), one row or operation on the table files, or one drain, so a crash between any two persist
 * steps is a crash between two steps.
 */
module Protocol {
  import opened Bytes
  import opened Options
  import opened UndoEntries
  import opened Application

  /** The region table files: table.dat and, while a batch that mapped memory commits, new_table.dat. */
  datatype Disk = Disk(table: seq<Region>, newTable: Option<seq<Region>>)

  /** Which clear of the undo log is running: after a commit, or at the end of either recovery branch. */
  datatype Why = Cleanup | RecoverCommit | RecoverUndo

  datatype PC =
    | Ready                                                            // between commands
    | Running(acts: seq<Action>)                                       // inside a command
    | Recording(acts: seq<Action>, start: nat, next: nat, fill: nat)   // undo_log_record, copying a block
    | Stored(acts: seq<Action>, start: nat, next: nat)                 // the entry's address is stored
    | Logged(acts: seq<Action>)                                        // undo_log_record returned
    | Tabling(row: nat)                                                // persist_new_region_table
    | Flushing                                                         // undo_log_commit, flush loops
    | Drained                                                          // the batch's data is durable
    | CommitStored
    | CommitFlushed
    | TailPending(rec: bool)                                           // about to update_tail
    | TailStored(rec: bool)
    | TailDurable(rec: bool)
    | Renaming(rec: bool)                                              // commit_new_region_table
    | Renamed(rec: bool)
    | Clearing(i: nat, why: Why)                                       // undo_log_clear
    | Down                                                             // crashed
    | Unlinking                                                        // clear_new_region_table
    | Unlinked
    | Undoing(i: nat)                                                  // rollback loop

  datatype State = State(
    vmem: seq<Byte>, dmem: seq<Byte>, mflush: set<nat>,        // application memory; flushed lines
    vlog: seq<Entry>, dlog: seq<Entry>, lflush: set<nat>,      // undo log; flushed entries
    vtail: nat, dtail: nat, tflush: bool,                      // log->tail
    vdisk: Disk, ddisk: Disk,
    len: nat, freshBytes: set<nat>,                            // undo_log.len, undo_log.fresh_regions
    regions: seq<Region>, modified: bool,                      // mrm->regions, region_table_modified
    ptail: nat, tail: nat,                                     // psm->tail; the consumer's own tail
    cmds: seq<Cmd>,                                            // every durably committed command
    base: nat,                                                 // commands before the current batch
    pc: PC)

  /** What the memory system does on its own. */
  datatype EnvStep =
    | Evict(bytes: set<nat>, entries: set<nat>, tailLine: bool)
    | EvictHalf(entry: nat, head: bool)
    | SyncDisk
    | SyncFile(rows: nat)

  /** Executing commands under undo_log_record. */
  datatype ConsumeStep =
    | Begin | MapFresh | WriteFresh | WriteSkipped | StartRecord | CopyBlock(upto: nat) | StoreAddr | FlushEntry
    | SkipLogged | DrainRecord | WriteLogged | EndCommand

  /** instrument_commit, up to the durable commit record. */
  datatype CommitStep =
    | StartCommit | WriteRow | SyncTable | FlushLine(line: nat) | DrainData
    | StoreCommit | FlushCommit | DrainCommit

  /** update_tail and instrument_cleanup, which recovery from a commit record shares. */
  datatype FinishStep =
    | StoreTail | DrainTail | Publish | Rename | SyncRename | ClearEntry | EndClear

  /** undo_log_init and the rollback branch of undo_log_recover. */
  datatype RecoverStep = ScanLog | Unlink | SyncUnlink | Undo | DrainUndo

  datatype Step =
    | Env(env: EnvStep)
    | Crash
    | Produce(cmd: Cmd)
    | Consume(consume: ConsumeStep)
    | Commit(commitStep: CommitStep)
    | Finish(finish: FinishStep)
    | Recover(recover: RecoverStep)

  // ---- Persistence -------------------------------------------------------------------------

  predicate Sized(s: State) { |s.vmem| == |s.dmem| && |s.vlog| == |s.dlog| }

  function EvictState(s: State, bytes: set<nat>, entries: set<nat>, tailLine: bool): State
    requires Sized(s)
  {
    s.(dmem := Mix(s.dmem, s.vmem, bytes),
       dlog := Mix(s.dlog, s.vlog, entries),
       dtail := if tailLine then s.vtail else s.dtail)
  }

  /** pmem_drain: everything flushed is durable. */
  function Drain(s: State): State
    requires Sized(s)
  {
    EvictState(s, OnLines(|s.vmem|, s.mflush), s.lflush, s.tflush).(mflush := {}, lflush := {}, tflush := false)
  }

  /** A store to application memory; a flush issued before it does not cover it. */
  function StoreMem(s: State, addr: nat, data: seq<Byte>): State
    requires addr + |data| <= |s.vmem|
  {
    s.(vmem := Store(s.vmem, addr, data),
       mflush := set l | l in s.mflush && !(LineOf(addr) <= l <= LineOf(addr + |data|)))
  }

  function StoreEntry(s: State, i: nat, e: Entry): State
    requires i < |s.vlog|
  {
    s.(vlog := s.vlog[i := e], lflush := s.lflush - {i})
  }

  /** write() at row `row` of a file that was opened without O_TRUNC. */
  function PutRow(file: seq<Region>, row: nat, r: Region): seq<Region>
    requires row <= |file|
  {
    if row < |file| then file[row := r] else file + [r]
  }

  function RenameNew(d: Disk): Disk {
    if d.newTable.Some? then Disk(d.newTable.value, None) else d
  }

  const NullEntry: Entry := Entry(Zeros(BLOCK), 0, 0)

  // ---- What a crash leaves -----------------------------------------------------------------

  /** The tail that recovery arrives at. */
  function RecTail(s: State): nat {
    if Accepts(s.dlog) then s.dlog[Scan(s.dlog) - 1].commit - 1 else s.dtail
  }

  /** The region table that recovery loads. */
  function RecTable(s: State): seq<Region> {
    if Accepts(s.dlog) then RenameNew(s.ddisk).table else s.ddisk.table
  }

  predicate CanRollBack(s: State) { Accepts(s.dlog) || AllPlain(s.dlog[..Scan(s.dlog)], |s.dmem|) }

  /** The memory that recovery arrives at. */
  function RecMem(s: State): seq<Byte>
    requires CanRollBack(s)
  {
    if Accepts(s.dlog) then s.dmem else Rollback(s.dmem, s.dlog[..Scan(s.dlog)])
  }

  /** What the application sees after recovery. */
  function RecView(s: State): View
    requires CanRollBack(s)
  {
    ViewOf(RecMem(s), RecTable(s))
  }

  /** No entry survives past the first null one. */
  predicate NullBeyondScan(log: seq<Entry>) {
    forall i :: Scan(log) <= i < |log| ==> IsNull(log[i])
  }

  /** Recovery has cleared the commit record but the tail it recorded is not durable yet. */
  predicate TailLost(s: State) {
    && (s.pc in {TailPending(true), TailStored(true)} || (s.pc.Clearing? && s.pc.why == RecoverCommit))
    && !Accepts(s.dlog) && s.dtail != s.tail
  }

  /** The crashes after which the run may go on. */
  predicate CleanCrash(s: State) { NullBeyondScan(s.dlog) && !TailLost(s) }

  function CrashState(s: State): State {
    s.(vmem := s.dmem, mflush := {}, vlog := s.dlog, lflush := {}, vtail := s.dtail, tflush := false,
       vdisk := s.ddisk, len := 0, freshBytes := {}, regions := [], modified := false,
       ptail := s.dtail, tail := RecTail(s), base := s.dtail, pc := Down)
  }

  // ---- Steps -------------------------------------------------------------------------------

  /** fresh_regions->find(addr, size) */
  predicate AllFresh(bytes: set<nat>, addr: nat, size: nat) {
    forall a: nat :: addr <= a < addr + size ==> a in bytes
  }

  /** No byte of the range was mapped since the last commit. */
  predicate NoneFresh(bytes: set<nat>, addr: nat, size: nat) {
    forall a: nat :: addr <= a < addr + size ==> a !in bytes
  }

  /** One of the first `n` entries saves block `b`. */
  predicate LoggedBlock(log: seq<Entry>, n: nat, b: nat) {
    n <= |log| && exists i :: 0 <= i < n && log[i].addr == b
  }

  /** The first `n` entries save every block from that of `addr` up to `upto`. */
  predicate Blocked(log: seq<Entry>, n: nat, addr: nat, upto: nat) {
    forall b: nat {:trigger LoggedBlock(log, n, b)} :: OnBlock(b) && BlockOf(addr) <= b < upto ==>
      LoggedBlock(log, n, b)
  }

  /** The lines that undo_log_commit must flush: those of every logged block and every fresh byte. */
  predicate FlushedAll(s: State) {
    && s.len <= |s.vlog|
    && (forall i :: 0 <= i < s.len ==> LineOf(s.vlog[i].addr) in s.mflush)
    && (forall a :: a in s.freshBytes ==> LineOf(a) in s.mflush)
  }

  /** Clearing the log of a batch that is committed. */
  predicate ClearsCommitted(pc: PC) { pc.Clearing? && pc.why != RecoverUndo }

  /**
   * The streaming stores of undo_log_clear may persist in any order, but while the log of a
   * committed batch is cleared the zero of entry 0 is the first to persist.
   */
  predicate FirstZeroFirst(s: State, entries: set<nat>) {
    ClearsCommitted(s.pc) && |s.dlog| > 0 && !IsNull(s.dlog[0]) ==>
      0 in entries || forall k :: k in entries ==> s.pc.i <= k
  }

  /** Half a line: the address and the commit tail (`head`), or the saved block. */
  function HalfEntry(d: Entry, v: Entry, head: bool): Entry {
    if head then d.(addr := v.addr, commit := v.commit) else d.(blk := v.blk)
  }

  /** A streaming store writes half an entry. After a rollback no block of a live entry is zeroed first. */
  predicate CanEvictHalf(s: State, k: nat, head: bool) {
    && s.pc.Clearing? && k < s.pc.i <= |s.vlog| == |s.dlog|
    && (head && ClearsCommitted(s.pc) ==> k == 0 || IsNull(s.dlog[0]))
    && (!head && s.pc.why == RecoverUndo ==> Scan(s.dlog) <= k)
  }

  predicate CanEnv(s: State, st: EnvStep) {
    match st
    case Evict(_, entries, _) => s.pc != Down && FirstZeroFirst(s, entries)
    case EvictHalf(k, head) => CanEvictHalf(s, k, head)
    case SyncDisk => true
    case SyncFile(rows) =>
      && s.vdisk.newTable.Some? && rows <= |s.vdisk.newTable.value|
      && (s.ddisk.newTable.Some? ==> |s.ddisk.newTable.value| <= rows)
      && s.ddisk.table == s.vdisk.table
  }

  function DoEnv(s: State, st: EnvStep): State
    requires Sized(s) && CanEnv(s, st)
  {
    match st
    case Evict(bytes, entries, tailLine) => EvictState(s, bytes, entries, tailLine)
    case EvictHalf(k, head) => s.(dlog := s.dlog[k := HalfEntry(s.dlog[k], s.vlog[k], head)])
    case SyncDisk => s.(ddisk := s.vdisk)
    case SyncFile(rows) => s.(ddisk := s.ddisk.(newTable := Some(s.vdisk.newTable.value[..rows])))
  }

  /** The next action is a write that undo_log_record does not find fresh. */
  predicate AtRecord(s: State) {
    && s.pc.Running? && s.pc.acts != [] && s.pc.acts[0].Write?
    && !AllFresh(s.freshBytes, s.pc.acts[0].addr, |s.pc.acts[0].data|)
  }

  /** undo_log_record past the test for fresh memory. */
  function BeginRecord(s: State): State
    requires AtRecord(s)
  {
    s.(pc := Recording(s.pc.acts, s.len, BlockOf(s.pc.acts[0].addr), 0))
  }

  predicate CanConsume(cf: Config, s: State, st: ConsumeStep) {
    match st
    case Begin =>
      && s.pc == Ready && s.tail < |s.cmds|
      && GoodActs(cf.app(s.cmds[s.tail], ViewOf(s.vmem, s.regions)), s.regions, |s.vmem|)
    case MapFresh =>
      s.pc.Running? && s.pc.acts != [] && s.pc.acts[0].Mmap? && s.pc.acts[0].base + s.pc.acts[0].size <= |s.vmem|
    case WriteFresh =>
      && s.pc.Running? && s.pc.acts != [] && s.pc.acts[0].Write?
      && s.pc.acts[0].addr + |s.pc.acts[0].data| <= |s.vmem|
      && AllFresh(s.freshBytes, s.pc.acts[0].addr, |s.pc.acts[0].data|)
    case WriteSkipped =>
      && s.pc.Running? && s.pc.acts != [] && s.pc.acts[0].Write?
      && s.pc.acts[0].data != [] && s.pc.acts[0].addr + |s.pc.acts[0].data| <= |s.vmem|
      && Blocked(s.vlog, s.len, s.pc.acts[0].addr, s.pc.acts[0].addr + |s.pc.acts[0].data|)
    case StartRecord => AtRecord(s)
    case CopyBlock(upto) =>
      && s.pc.Recording? && s.pc.fill <= upto <= BLOCK && s.len + 2 < |s.vlog|
      && s.pc.acts != [] && s.pc.acts[0].Write? && s.pc.next < s.pc.acts[0].addr + |s.pc.acts[0].data|
      && s.pc.next + BLOCK <= |s.vmem| && |s.vlog[s.len].blk| == BLOCK
    case StoreAddr => s.pc.Recording? && s.pc.fill == BLOCK && s.len < |s.vlog|
    case FlushEntry => s.pc.Stored?
    case SkipLogged =>
      && s.pc.Recording? && s.pc.fill == 0 && LoggedBlock(s.vlog, s.len, s.pc.next)
      && s.pc.acts != [] && s.pc.acts[0].Write? && s.pc.next < s.pc.acts[0].addr + |s.pc.acts[0].data|
    case DrainRecord =>
      && s.pc.Recording? && s.pc.fill == 0
      && s.pc.acts != [] && s.pc.acts[0].Write? && s.pc.acts[0].addr + |s.pc.acts[0].data| <= s.pc.next
    case WriteLogged =>
      && s.pc.Logged? && s.pc.acts != [] && s.pc.acts[0].Write?
      && s.pc.acts[0].addr + |s.pc.acts[0].data| <= |s.vmem|
    case EndCommand => s.pc == Running([])
  }

  function DoConsume(cf: Config, s: State, st: ConsumeStep): State
    requires Sized(s) && CanConsume(cf, s, st)
  {
    match st
    case Begin => s.(pc := Running(cf.app(s.cmds[s.tail], ViewOf(s.vmem, s.regions))))
    case MapFresh =>
      var Mmap(base, size) := s.pc.acts[0];
      s.(vmem := Store(s.vmem, base, Zeros(size)), dmem := Store(s.dmem, base, Zeros(size)),
         regions := s.regions + [Region(base, size)], modified := true,
         freshBytes := s.freshBytes + Span(base, size), pc := Running(s.pc.acts[1..]))
    case WriteFresh =>
      StoreMem(s, s.pc.acts[0].addr, s.pc.acts[0].data).(pc := Running(s.pc.acts[1..]))
    case WriteSkipped =>
      StoreMem(s, s.pc.acts[0].addr, s.pc.acts[0].data).(pc := Running(s.pc.acts[1..]))
    case StartRecord => BeginRecord(s)
    case CopyBlock(upto) =>
      var e := s.vlog[s.len];
      StoreEntry(s, s.len, e.(blk := s.vmem[s.pc.next..s.pc.next + upto] + e.blk[upto..])).(pc := s.pc.(fill := upto))
    case StoreAddr =>
      StoreEntry(s, s.len, s.vlog[s.len].(addr := s.pc.next, commit := 0))
        .(pc := Stored(s.pc.acts, s.pc.start, s.pc.next))
    case FlushEntry =>
      s.(lflush := s.lflush + {s.len}, len := s.len + 1,
         pc := Recording(s.pc.acts, s.pc.start, s.pc.next + BLOCK, 0))
    case SkipLogged => s.(pc := Recording(s.pc.acts, s.pc.start, s.pc.next + BLOCK, 0))
    case DrainRecord => Drain(s).(pc := Logged(s.pc.acts))
    case WriteLogged =>
      StoreMem(s, s.pc.acts[0].addr, s.pc.acts[0].data).(pc := Running(s.pc.acts[1..]))
    case EndCommand => s.(tail := s.tail + 1, pc := Ready)
  }

  predicate CanCommit(s: State, st: CommitStep) {
    match st
    case StartCommit => s.pc == Ready && s.base < s.tail
    case WriteRow =>
      && s.pc.Tabling? && s.pc.row < |s.regions|
      && s.vdisk.newTable.Some? && s.pc.row <= |s.vdisk.newTable.value|
    case SyncTable => s.pc == Tabling(|s.regions|)
    case FlushLine(_) => s.pc == Flushing
    case DrainData => s.pc == Flushing && FlushedAll(s)
    case StoreCommit => s.pc == Drained && s.len < |s.vlog|
    case FlushCommit => s.pc == CommitStored
    case DrainCommit => s.pc == CommitFlushed
  }

  function DoCommit(s: State, st: CommitStep): State
    requires Sized(s) && CanCommit(s, st)
  {
    match st
    case StartCommit =>
      if s.modified
      then s.(vdisk := s.vdisk.(newTable := if s.vdisk.newTable.Some? then s.vdisk.newTable else Some([])),
              pc := Tabling(0))
      else s.(pc := Flushing)
    case WriteRow =>
      s.(vdisk := s.vdisk.(newTable := Some(PutRow(s.vdisk.newTable.value, s.pc.row, s.regions[s.pc.row]))),
         pc := Tabling(s.pc.row + 1))
    case SyncTable => s.(ddisk := s.vdisk, pc := Flushing)
    case FlushLine(line) => s.(mflush := s.mflush + {line})
    case DrainData => Drain(s).(pc := Drained)
    case StoreCommit =>
      StoreEntry(s, s.len, s.vlog[s.len].(addr := 0, commit := s.tail + 1)).(pc := CommitStored)
    case FlushCommit => s.(lflush := s.lflush + {s.len}, len := s.len + 1, pc := CommitFlushed)
    case DrainCommit => Drain(s).(pc := TailPending(false))
  }

  predicate CanFinish(s: State, st: FinishStep) {
    match st
    case StoreTail => s.pc.TailPending?
    case DrainTail => s.pc.TailStored?
    case Publish => s.pc.TailDurable?
    case Rename => s.pc.Renaming?
    case SyncRename => s.pc.Renamed?
    case ClearEntry => s.pc.Clearing? && s.pc.i < s.len <= |s.vlog|
    case EndClear => s.pc.Clearing? && s.pc.i == s.len
  }

  function DoFinish(s: State, st: FinishStep): State
    requires Sized(s) && CanFinish(s, st)
  {
    match st
    case StoreTail => s.(vtail := s.tail, tflush := true, pc := TailStored(s.pc.rec))
    case DrainTail => Drain(s).(pc := TailDurable(s.pc.rec))
    case Publish =>
      if s.pc.rec then s.(ptail := s.tail, base := s.tail, pc := Ready)
      else s.(ptail := s.tail, pc := Renaming(false))
    case Rename => s.(vdisk := RenameNew(s.vdisk), pc := Renamed(s.pc.rec))
    case SyncRename =>
      if s.pc.rec then s.(ddisk := s.vdisk, regions := s.vdisk.table, pc := Clearing(0, RecoverCommit))
      else s.(ddisk := s.vdisk, pc := Clearing(0, Cleanup))
    case ClearEntry =>
      s.(vlog := s.vlog[s.pc.i := NullEntry], lflush := s.lflush + {s.pc.i}, pc := Clearing(s.pc.i + 1, s.pc.why))
    case EndClear =>
      var t := Drain(s).(len := 0, freshBytes := {}, modified := false);
      (match s.pc.why
       case Cleanup => t.(base := s.tail, pc := Ready)
       case RecoverCommit => t.(pc := TailPending(true))
       case RecoverUndo => t.(pc := Ready))
  }

  predicate CanRecover(s: State, st: RecoverStep) {
    match st
    case ScanLog => s.pc == Down
    case Unlink => s.pc == Unlinking
    case SyncUnlink => s.pc == Unlinked
    case Undo => s.pc.Undoing? && 0 < s.pc.i <= |s.vlog| && Plain(s.vlog[s.pc.i - 1], |s.vmem|)
                 && Covered(s.regions, s.vlog[s.pc.i - 1].addr)
    case DrainUndo => s.pc == Undoing(0)
  }

  function DoRecover(s: State, st: RecoverStep): State
    requires Sized(s) && CanRecover(s, st)
  {
    match st
    case ScanLog =>
      s.(len := Scan(s.vlog),
         tail := RecTail(s),
         pc := if Accepts(s.vlog) then Renaming(true) else Unlinking)
    case Unlink => s.(vdisk := s.vdisk.(newTable := None), pc := Unlinked)
    case SyncUnlink => s.(ddisk := s.vdisk, regions := s.vdisk.table, pc := Undoing(s.len))
    case Undo =>
      var e := s.vlog[s.pc.i - 1];
      s.(vmem := Restore(s.vmem, e), mflush := s.mflush + {LineOf(e.addr)}, pc := Undoing(s.pc.i - 1))
    case DrainUndo => Drain(s).(pc := Clearing(0, RecoverUndo))
  }

  predicate Enabled(cf: Config, s: State, st: Step) {
    && Sized(s)
    && match st
    case Env(e) => CanEnv(s, e)
    case Crash => CleanCrash(s)
    case Produce(_) => true
    case Consume(c) => CanConsume(cf, s, c)
    case Commit(c) => CanCommit(s, c)
    case Finish(f) => CanFinish(s, f)
    case Recover(r) => CanRecover(s, r)
  }

  function After(cf: Config, s: State, st: Step): State
    requires Enabled(cf, s, st)
  {
    match st
    case Env(e) => DoEnv(s, e)
    case Crash => CrashState(s)
    case Produce(c) => s.(cmds := s.cmds + [c])
    case Consume(c) => DoConsume(cf, s, c)
    case Commit(c) => DoCommit(s, c)
    case Finish(f) => DoFinish(s, f)
    case Recover(r) => DoRecover(s, r)
  }

  // ---- Runs --------------------------------------------------------------------------------

  /** After the first start: the initial memory is in persistent memory, the log is empty. */
  predicate Initial(cf: Config, s: State) {
    && Sized(s) && |s.vmem| % LINE == 0 && 2 <= |s.vlog|
    && s.vmem == s.dmem && s.vlog == s.dlog
    && (forall i :: 0 <= i < |s.vlog| ==> s.vlog[i] == NullEntry)
    && s.vdisk == s.ddisk == Disk(s.regions, None) && Mapped(s.regions, |s.vmem|)
    && ViewOf(s.vmem, s.regions) == cf.init
    && s.mflush == {} && s.lflush == {} && !s.tflush && s.len == 0 && s.freshBytes == {} && !s.modified
    && s.vtail == s.dtail == s.ptail == s.tail == s.base == 0 && s.cmds == [] && s.pc == Ready
  }

  /** Each step of `steps` is enabled when it is taken. */
  predicate IsRun(cf: Config, s: State, steps: seq<Step>)
    decreases |steps|
  {
    steps == [] || (Enabled(cf, s, steps[0]) && IsRun(cf, After(cf, s, steps[0]), steps[1..]))
  }

  /** The state at the end of a run. */
  function End(cf: Config, s: State, steps: seq<Step>): State
    requires IsRun(cf, s, steps)
    decreases |steps|
  {
    if steps == [] then s else End(cf, After(cf, s, steps[0]), steps[1..])
  }

  /** A run can be extended by a step that is enabled at its end. */
  lemma {:induction false} RunAppend(cf: Config, s: State, steps: seq<Step>, st: Step)
    requires IsRun(cf, s, steps) && Enabled(cf, End(cf, s, steps), st)
    ensures IsRun(cf, s, steps + [st])
    ensures End(cf, s, steps + [st]) == After(cf, End(cf, s, steps), st)
    decreases |steps|
  {
    if steps == [] {
      assert ([] + [st])[1..] == [];
    } else {
      var s' := After(cf, s, steps[0]);
      assert (steps + [st])[1..] == steps[1..] + [st];
      RunAppend(cf, s', steps[1..], st);
    }
  }
}
