/**
 * The background process as the code has it: loops over fields that are updated in place. Every
 * store, flush and drain takes one step of the protocol, after which any part of persistent memory
 * may be evicted, so that the durability theorems apply at every point of every method.
 */
module UndoLog {
  import opened Bytes
  import opened Options
  import opened UndoEntries
  import opened Application
  import opened Protocol
  import opened ProtocolInvariant
  import opened Durability
  import R = Ranges
  import A = LoggedAddrs
  import F = FastPath
  import opened Dedup
  import BatchSteps
  import opened Recovery

  /** COMMIT_THRESHOLD */
  const THRESHOLD: nat := 8192

  /** Holds always; see RunsTo. */
  ghost predicate Unfold(k: nat) { k >= 0 }

  /**
   * `steps` is a run of the protocol, clean crashes included, to `s` from a state `s0` that has the
   * invariant: a first start (InitialInv) or what any crash leaves (RestartInv). The body is stated
   * under `Unfold` so that it is expanded only where `Unfold(0)` is mentioned.
   */
  ghost predicate RunsTo(cf: Config, s0: State, steps: seq<Step>, s: State) {
    forall k: nat {:trigger Unfold(k)} :: Unfold(k) ==> Inv(cf, s0) && IsRun(cf, s0, steps) && End(cf, s0, steps) == s
  }

  /** The process can be built on a first start. */
  lemma FirstStart(cf: Config, s: State)
    requires Initial(cf, s)
    ensures RunsTo(cf, s, [], s)
  {
    InitialInv(cf, s);
  }

  /** It can be built on what any crash outside the tail window leaves, stale entries included. */
  lemma AfterCrash(cf: Config, s0: State, run: seq<Step>)
    requires Initial(cf, s0) && IsRun(cf, s0, run) && !TailLost(End(cf, s0, run))
    ensures var s := End(cf, s0, run);
      && RunsTo(cf, Restart(s), [], Restart(s)) && Restart(s).vlog == Scrubbed(s.dlog)
      && RecTail(Restart(s)) == RecTail(s)
  {
    var s := End(cf, s0, run);
    InitialInv(cf, s0);
    RunInv(cf, s0, run);
    AlwaysSafe(cf, s);
    RestartInv(cf, s);
    RestartRecoverable(cf, s);
  }

  /** Two states that differ at most in what is durable. */
  ghost predicate SameToLoads(s: State, t: State) {
    Sized(s) && Sized(t) && |s.dlog| == |t.dlog| && |s.dmem| == |t.dmem| &&
    s == t.(dmem := s.dmem, dlog := s.dlog, dtail := s.dtail)
  }

  /** The parts of the state that recording a write leaves alone. */
  ghost predicate Steady(s: State, t: State) {
    && s.vmem == t.vmem && s.cmds == t.cmds && s.base == t.base && s.tail == t.tail && s.ptail == t.ptail
    && s.regions == t.regions && s.modified == t.modified && s.freshBytes == t.freshBytes && s.vdisk == t.vdisk
  }

  /** The parts of the state that clearing the log leaves alone. */
  ghost predicate SameButLog(s: State, t: State) {
    Steady(s, t) && s.len == t.len && s.vtail == t.vtail
  }

  /** The parts of the state that recovery leaves alone, until it clears the log. */
  ghost predicate SameLog(s: State, t: State) {
    s.freshBytes == t.freshBytes && s.cmds == t.cmds && s.vlog == t.vlog
  }

  /** The first `n` entries are the same. */
  ghost predicate SameEntries(log: seq<Entry>, log': seq<Entry>, n: nat) {
    n <= |log| == |log'| && forall i :: 0 <= i < n ==> log[i] == log'[i]
  }

  class Background {
    ghost const cf: Config
    ghost const start: State
    const dedup: bool                 // OPTIMIZE_DEDUPLICATE
    const skipRecord: bool            // OPTIMIZE_SKIP_RECORD
    const table: A.Table              // undo_log.logged_addrs_hash
    const freshRegions: R.RangeSet    // undo_log.fresh_regions
    var mem: seq<Byte>                // memory, as loads see it
    var log: seq<Entry>               // undo_log.log, as loads see it
    var len: nat                      // undo_log.len
    var regions: seq<Region>          // mrm->regions
    var modified: bool                // region_table_modified
    var files: Disk                   // table.dat and new_table.dat, as reads see them
    var logTail: nat                  // psm->log->tail, as loads see it
    var psmTail: nat                  // psm->tail
    var tail: nat                     // the consumer's tail
    var shouldCommit: bool            // instrument_args.should_commit
    ghost var m: State                // the machine
    ghost var steps: seq<Step>        // what it has done since the first start

    /** The machine got where it is by a run of the protocol, crashes included. */
    ghost predicate OnTrack()
      reads this
    {
      RunsTo(cf, start, steps, m) && Sized(m)
    }

    /** The fields other than the undo log are what the machine's loads see. */
    ghost predicate Fields()
      reads this
    {
      && mem == m.vmem && len == m.len && regions == m.regions && modified == m.modified
      && files == m.vdisk && logTail == m.vtail && psmTail == m.ptail && (m.pc != Down ==> tail == m.tail)
    }

    /** The undo log is, too. */
    ghost predicate Agrees()
      reads this
    {
      Fields() && log == m.vlog
    }

    /** The undo log is as far as it is used: there may be stale entries behind it. */
    ghost predicate Follows()
      reads this
    {
      Fields() && SameEntries(log, m.vlog, len)
    }

    /** Right after a crash that may have left stale entries in the undo log. */
    ghost predicate Restarting()
      reads this, freshRegions, table, table.slots
    {
      && OnTrack() && Follows() && FreshAgrees() && table.Valid() && m.pc == Down
      && m.vlog == Scrubbed(log)
    }

    ghost predicate FreshAgrees()
      reads this, freshRegions
    {
      freshRegions.Valid() && forall a: nat :: R.Covers(freshRegions.v, a) <==> a in m.freshBytes
    }

    /** Only logged blocks are in the table. */
    ghost predicate TableAgrees()
      reads this, table, table.slots
    {
      table.Valid() && forall b :: b in A.Members(table.slots[..]) ==> LoggedBlock(log, len, b)
    }

    /** The blocks that undo_log_record does not log again. */
    ghost function Known(): set<nat>
      reads this, table, table.slots
    {
      if dedup then A.Members(table.slots[..]) else {}
    }

    /** The table of logged blocks has room left, if there is one. */
    ghost predicate Roomy()
      reads this, table, table.slots
    {
      !dedup || !A.Full(table.slots[..])
    }

    /** The entries that executing `acts` appends, as long as the table has room. */
    ghost function BatchLog(acts: seq<Action>): seq<Entry>
      reads this, table, table.slots
    {
      if dedup then DedupLog(mem, m.freshBytes, acts, Known()) else FullLog(mem, m.freshBytes, acts)
    }

    ghost predicate Consistent()
      reads this, freshRegions, table, table.slots
    {
      OnTrack() && Agrees() && FreshAgrees() && TableAgrees()
    }

    ghost predicate Valid()
      reads this, freshRegions, table, table.slots
    {
      Consistent() && (len > THRESHOLD ==> shouldCommit) && (skipRecord ==> dedup)
    }

    /** The process starts on a memory and log that were just initialised, or that a crash left. */
    constructor (ghost cf: Config, ghost start: State, ghost steps: seq<Step>, s: State, log: seq<Entry>, dedup: bool,
                 skipRecord: bool)
      requires RunsTo(cf, start, steps, s) && Sized(s) && s.len == 0 && s.freshBytes == {}
      requires if s.pc == Down then s.vlog == Scrubbed(log) else s.vlog == log
      requires skipRecord ==> dedup
      ensures (if s.pc == Down then Restarting() else Valid()) && Roomy()
      ensures m == s && this.cf == cf && this.start == start && this.steps == steps && this.log == log
      ensures this.dedup == dedup && this.skipRecord == skipRecord
      ensures fresh(table) && fresh(table.slots) && fresh(freshRegions)
    {
      this.cf, this.start, m, this.steps := cf, start, s, steps;
      this.dedup, this.skipRecord, this.log := dedup, skipRecord, log;
      table := new A.Table();
      freshRegions := new R.RangeSet();
      mem, len, regions, modified := s.vmem, s.len, s.regions, s.modified;
      files, logTail, psmTail, tail := s.vdisk, s.vtail, s.ptail, if s.pc == Down then s.vtail else s.tail;
      shouldCommit := false;
    }

    /** One step of the protocol, and then any eviction. */
    ghost method Take(st: Step)
      requires OnTrack() && Enabled(cf, m, st) && st != Crash && After(cf, m, st).pc != Down
      modifies this`m, this`steps
      ensures OnTrack() && SameToLoads(m, After(cf, old(m), st))
    {
      assert Unfold(0);
      RunAppend(cf, start, steps, st);
      steps := steps + [st];
      m := After(cf, m, st);
      RunShape(cf, start, steps, m);
      var bytes: set<nat> := *;
      var entries: set<nat> := *;
      var tailLine: bool := *;
      if FirstZeroFirst(m, entries) {
        var e := Env(Evict(bytes, entries, tailLine));
        RunAppend(cf, start, steps, e);
        m, steps := After(cf, m, e), steps + [e];
      }
    }

    /** memcpy(entry->blk, p, UNDO_BLK_SIZE_B) */
    method CopyToEntry(pn: nat)
      requires OnTrack() && Agrees() && m.pc.Recording? && m.pc.next == pn && m.pc.fill == 0
      requires AtWrite(m.pc.acts) && pn < m.pc.acts[0].addr + |m.pc.acts[0].data| <= |mem| && len + 2 < |log|
      modifies this`m, this`steps, this`log
      ensures OnTrack() && Agrees() && Steady(m, old(m))
      ensures m.pc == old(m.pc).(fill := BLOCK) && pn + BLOCK <= |mem|
      ensures log == old(log)[len := old(log)[len].(blk := mem[pn..pn + BLOCK])]
    {
      RecordFits(cf, start, steps, m, pn);
      var blk := mem[pn..pn + BLOCK];
      assert blk + log[len].blk[BLOCK..] == blk;
      log := log[len := log[len].(blk := blk)];
      Take(Consume(CopyBlock(BLOCK)));
    }

    /** entry->addr = p; entry->commit_tail = 0 */
    method StoreEntryAddr(pn: nat)
      requires OnTrack() && Agrees() && m.pc.Recording? && m.pc.next == pn && m.pc.fill == BLOCK && len < |log|
      modifies this`m, this`steps, this`log
      ensures OnTrack() && Agrees() && Steady(m, old(m)) && m.lflush <= old(m.lflush)
      ensures m.pc == Stored(old(m.pc.acts), old(m.pc.start), pn)
      ensures log == old(log)[len := old(log)[len].(addr := pn, commit := 0)]
    {
      log := log[len := log[len].(addr := pn, commit := 0)];
      Take(Consume(StoreAddr));
    }

    /** pmem_flush(entry); undo_log.len++ */
    method FinishEntry()
      requires OnTrack() && Agrees() && m.pc.Stored?
      modifies this`m, this`steps, this`len
      ensures OnTrack() && Agrees() && Steady(m, old(m)) && len == old(len) + 1
      ensures m.pc == Recording(old(m.pc.acts), old(m.pc.start), old(m.pc.next) + BLOCK, 0)
    {
      len := len + 1;
      Take(Consume(FlushEntry));
    }

    /** Saves the block at `pn` in the next entry: the stores go to one line, in this order. */
    method LogBlock(pn: nat)
      requires OnTrack() && Agrees() && m.pc.Recording? && m.pc.next == pn && m.pc.fill == 0
      requires AtWrite(m.pc.acts) && pn < m.pc.acts[0].addr + |m.pc.acts[0].data| <= |mem| && len + 2 < |log|
      modifies this`m, this`steps, this`log, this`len
      ensures OnTrack() && Agrees() && Steady(m, old(m))
      ensures m.pc == Recording(old(m.pc.acts), old(m.pc.start), pn + BLOCK, 0)
      ensures pn + BLOCK <= |mem| && len == old(len) + 1
      ensures log == old(log)[old(len) := Entry(mem[pn..pn + BLOCK], pn, 0)]
    {
      CopyToEntry(pn);
      StoreEntryAddr(pn);
      FinishEntry();
    }

    /** One turn of the loop of undo_log_record. `skip` is the table when the loop began. */
    method RecordBlock(pn: nat, ghost skip: set<nat>)
      requires OnTrack() && Agrees() && TableAgrees() && m.pc.Recording? && m.pc.next == pn && m.pc.fill == 0
      requires AtWrite(m.pc.acts) && pn < m.pc.acts[0].addr + |m.pc.acts[0].data| <= |mem| && len + 2 < |log|
      requires pn < 0x1_0000_0000_0000_0000 && |mem| % 64 == 0
      requires 0 < pn && (pn in Known() <==> pn in skip)
      modifies this`m, this`steps, this`log, this`len, table.slots
      ensures OnTrack() && Agrees() && TableAgrees() && Steady(m, old(m))
      ensures m.pc == Recording(old(m.pc.acts), old(m.pc.start), pn + BLOCK, 0)
      ensures pn + BLOCK <= |mem| && old(len) <= len <= old(len) + 1 <= |log| == |old(log)|
      ensures log[..len] == old(log[..len]) + (if pn in skip then [] else [Entry(mem[pn..pn + BLOCK], pn, 0)])
      ensures old(Known()) <= Known() <= old(Known()) + {pn}
      ensures Roomy() ==> old(Roomy()) && (dedup ==> Known() == old(Known()) + {pn})
    {
      RecordFits(cf, start, steps, m, pn);
      var isNew := true;
      if dedup {
        isNew := table.Insert(pn);
      }
      if isNew {
        LogBlock(pn);
        assert log[len - 1].addr == pn;
        LoggedLater(old(log), old(len), log, len);
      } else {
        assert LoggedBlock(m.vlog, m.len, pn);
        Take(Consume(SkipLogged));
      }
    }

    /** fresh_regions->find(addr, size) */
    method IsFresh(addr: nat, size: nat) returns (found: bool)
      requires FreshAgrees()
      ensures found <==> AllFresh(m.freshBytes, addr, size)
    {
      found := freshRegions.Find(addr, size);
    }

    method BeginRecord()
      requires OnTrack() && Agrees() && m.pc.Running? && AtWrite(m.pc.acts)
      requires !AllFresh(m.freshBytes, m.pc.acts[0].addr, |m.pc.acts[0].data|)
      modifies this`m, this`steps
      ensures OnTrack() && Agrees() && Steady(m, old(m)) && |m.vmem| % 64 == 0
      ensures m.pc == Recording(old(m.pc.acts), len, BlockOf(old(m.pc.acts[0].addr)), 0)
    {
      RunShape(cf, start, steps, m);
      Take(Consume(StartRecord));
    }

    method RecordNext(ghost b0: nat, pn: nat, ghost skip: set<nat>, ghost roomy: bool, ghost end: nat)
      requires OnTrack() && Agrees() && TableAgrees() && m.pc.Recording? && m.pc.next == pn && m.pc.fill == 0
      requires AtWrite(m.pc.acts) && pn < end == m.pc.acts[0].addr + |m.pc.acts[0].data| <= |mem| && len + 2 < |log|
      requires 0 < pn < 0x1_0000_0000_0000_0000 && |mem| % 64 == 0
      requires KnownUpTo(dedup, Known(), Roomy(), skip, roomy, b0, pn)
      modifies this`m, this`steps, this`log, this`len, table.slots
      ensures OnTrack() && Agrees() && TableAgrees() && Steady(m, old(m))
      ensures KnownUpTo(dedup, Known(), Roomy(), skip, roomy, b0, pn + BLOCK)
      ensures m.pc == Recording(old(m.pc.acts), old(m.pc.start), pn + BLOCK, 0)
      ensures old(len) <= len <= old(len) + 1 <= |log| == |old(log)|
      ensures log[..len] + NewEntries(mem, pn + BLOCK, end, skip) == old(log[..len]) + NewEntries(mem, pn, end, skip)
    {
      ghost var was, known, room := log[..len], Known(), Roomy();
      KnownHere(dedup, known, room, skip, roomy, b0, pn);
      RecordBlock(pn, skip);
      NextEntries(was, log[..len], mem, pn, end, skip);
      KnownNext(dedup, known, room, Known(), Roomy(), skip, roomy, b0, pn);
    }

    /** The loop of undo_log_record over the blocks of the write. */
    method RecordBlocks(addr: nat, size: nat, ghost skip: set<nat>, ghost roomy: bool, ghost goal: seq<Entry>)
      requires OnTrack() && Agrees() && TableAgrees() && m.pc.Recording? && m.pc.fill == 0 && AtWrite(m.pc.acts)
      requires addr == m.pc.acts[0].addr && size == |m.pc.acts[0].data| && m.pc.next == BlockOf(addr) > 0
      requires addr + size <= |mem| <= 0x1_0000_0000_0000_0000 && |mem| % 64 == 0
      requires 32 * len + size + 128 < 32 * |log|
      requires KnownUpTo(dedup, Known(), Roomy(), skip, roomy, BlockOf(addr), BlockOf(addr))
      requires log[..len] + NewEntries(mem, BlockOf(addr), addr + size, skip) == goal
      modifies this`m, this`steps, this`log, this`len, table.slots
      ensures OnTrack() && Agrees() && TableAgrees() && Steady(m, old(m)) && |log| == |old(log)|
      ensures len <= |log| && 32 * len < 32 * old(len) + size + 64
      ensures m.pc.Recording? && m.pc.acts == old(m.pc.acts) && m.pc.fill == 0 && addr + size <= m.pc.next
      ensures log[..len] + NewEntries(mem, m.pc.next, addr + size, skip) == goal && m.pc.next < addr + size + BLOCK
      ensures KnownUpTo(dedup, Known(), Roomy(), skip, roomy, BlockOf(addr), m.pc.next)
    {
      ghost var b0, end := BlockOf(addr), addr + size;
      var pn := BlockOf(addr);
      while pn < addr + size
        invariant OnTrack() && Agrees() && TableAgrees() && Steady(m, old(m)) && |log| == |old(log)|
        invariant m.pc == Recording(old(m.pc.acts), old(m.pc.start), pn, 0)
        invariant b0 <= pn < addr + size + BLOCK && 32 * len <= 32 * old(len) + (pn - b0) && len <= |log|
        invariant log[..len] + NewEntries(mem, pn, end, skip) == goal
        invariant KnownUpTo(dedup, Known(), Roomy(), skip, roomy, b0, pn)
      {
        RecordNext(b0, pn, skip, roomy, end);
        pn := pn + BLOCK;
      }
    }

    /** pmem_drain at the end of undo_log_record: from here on the write may happen. */
    method EndRecord()
      requires OnTrack() && Agrees() && m.pc.Recording? && m.pc.fill == 0
      requires AtWrite(m.pc.acts) && m.pc.acts[0].addr + |m.pc.acts[0].data| <= m.pc.next
      modifies this`m, this`steps
      ensures OnTrack() && Agrees() && Steady(m, old(m)) && m.pc == Logged(old(m.pc.acts))
    {
      Take(Consume(DrainRecord));
    }

    /** While the table has room, the blocks of a recorded write are in it. */
    ghost predicate KnowsAfter(roomy: bool, known: set<nat>, addr: nat, size: nat)
      reads this, table, table.slots
    {
      Roomy() ==> roomy && (dedup ==> Known() == KnownAfter(m.freshBytes, addr, size, known))
    }

    /**
     * undo_log_record: a write to fresh memory is not logged; otherwise every block it touches
     * that the table does not have is saved, and the log is drained before the write may happen.
     */
    method Record(addr: nat, size: nat) returns (stop: bool)
      requires Consistent() && m.pc.Running? && AtWrite(m.pc.acts)
      requires addr == m.pc.acts[0].addr && size == |m.pc.acts[0].data|
      requires addr + size <= |mem| <= 0x1_0000_0000_0000_0000
      requires 32 * len + size + 128 < 32 * |log|
      modifies this`m, this`steps, this`log, this`len, table.slots
      ensures Consistent() && Steady(m, old(m)) && |log| == |old(log)|
      ensures len <= |log| && 32 * len < 32 * old(len) + size + 64
      ensures stop <==> !AllFresh(m.freshBytes, addr, size) && len > THRESHOLD
      ensures m.pc == if AllFresh(m.freshBytes, addr, size) then old(m.pc) else Logged(old(m.pc.acts))
      ensures log[..len] == old(log[..len]) + EntriesFor(m.freshBytes, mem, addr, size, old(Known()))
      ensures KnowsAfter(old(Roomy()), old(Known()), addr, size)
    {
      var found := IsFresh(addr, size);
      if found {
        return false;
      }
      RecordOld(addr, size);
      stop := len > THRESHOLD;
    }

    /** undo_log_record past the test for fresh memory. */
    method RecordOld(addr: nat, size: nat)
      requires OnTrack() && Agrees() && TableAgrees() && m.pc.Running? && AtWrite(m.pc.acts)
      requires addr == m.pc.acts[0].addr && size == |m.pc.acts[0].data|
      requires !AllFresh(m.freshBytes, addr, size)
      requires addr + size <= |mem| <= 0x1_0000_0000_0000_0000
      requires 32 * len + size + 128 < 32 * |log|
      modifies this`m, this`steps, this`log, this`len, table.slots
      ensures OnTrack() && Agrees() && TableAgrees() && Steady(m, old(m)) && |log| == |old(log)|
      ensures len <= |log| && 32 * len < 32 * old(len) + size + 64 && m.pc == Logged(old(m.pc.acts))
      ensures log[..len] == old(log[..len]) + NewEntries(mem, BlockOf(addr), addr + size, old(Known()))
      ensures Roomy() ==> old(Roomy()) && (dedup ==> Known() == old(Known()) + BlocksOf(addr, size))
    {
      LoggedFacts(cf, start, steps, m);
      BeginRecord();
      ghost var skip, roomy := Known(), Roomy();
      ghost var goal := log[..len] + NewEntries(mem, BlockOf(addr), addr + size, skip);
      RecordBlocks(addr, size, skip, roomy, goal);
      ghost var next := m.pc.next;
      NoneLeft(log[..len], mem, next, addr + size, skip);
      EndRecord();
      BlocksReach(addr, size, next);
    }

    // ---- Executing a command -----------------------------------------------------------------------

    /** The application's store, once it may happen. */
    method StoreNow(addr: nat, data: seq<Byte>)
      requires OnTrack() && Agrees() && addr + |data| <= |mem|
      requires m.pc.Running? || m.pc.Logged?
      requires m.pc.acts != [] && m.pc.acts[0] == Action.Write(addr, data)
      requires m.pc.Running? ==> AllFresh(m.freshBytes, addr, |data|)
      modifies this`m, this`steps, this`mem
      ensures OnTrack() && Agrees() && mem == Store(old(mem), addr, data)
      ensures m.pc == Running(old(m.pc.acts)[1..])
      ensures Steady(m.(vmem := old(m.vmem)), old(m))
    {
      mem := Store(mem, addr, data);
      if m.pc.Running? {
        Take(Consume(WriteFresh));
      } else {
        Take(Consume(WriteLogged));
      }
    }

    /** record_write: the flag stays set until the batch is committed. */
    method RecordWrite(addr: nat, size: nat)
      requires Valid() && m.pc.Running? && AtWrite(m.pc.acts)
      requires addr == m.pc.acts[0].addr && size == |m.pc.acts[0].data|
      requires addr + size <= |mem| <= 0x1_0000_0000_0000_0000
      requires 32 * len + size + 128 < 32 * |log|
      modifies this`m, this`steps, this`log, this`len, this`shouldCommit, table.slots
      ensures Valid() && Steady(m, old(m)) && |log| == |old(log)|
      ensures 32 * len < 32 * old(len) + size + 64
      ensures shouldCommit <==> old(shouldCommit) || (!AllFresh(m.freshBytes, addr, size) && len > THRESHOLD)
      ensures m.pc == if AllFresh(m.freshBytes, addr, size) then old(m.pc) else Logged(old(m.pc.acts))
      ensures len <= |log| && log[..len] == old(log[..len]) + EntriesFor(m.freshBytes, mem, addr, size, old(Known()))
      ensures KnowsAfter(old(Roomy()), old(Known()), addr, size)
    {
      var stop := Record(addr, size);
      if stop {
        shouldCommit := true;
      }
    }

    /** record_write, and then the write itself. */
    method WriteRecorded(addr: nat, data: seq<Byte>)
      requires Valid() && m.pc.Running? && AtWrite(m.pc.acts) && m.pc.acts[0] == Action.Write(addr, data)
      requires addr + |data| <= |mem| <= 0x1_0000_0000_0000_0000
      requires 32 * len + |data| + 128 < 32 * |log|
      modifies this`m, this`steps, this`log, this`len, this`mem, this`shouldCommit, table.slots
      ensures Valid() && mem == Store(old(mem), addr, data) && m.pc == Running(old(m.pc.acts)[1..])
      ensures Steady(m.(vmem := old(m.vmem)), old(m)) && |log| == |old(log)|
      ensures len <= |log| && 32 * len < 32 * old(len) + |data| + 64
      ensures log[..len] == old(log[..len]) + EntriesFor(m.freshBytes, old(mem), addr, |data|, old(Known()))
      ensures shouldCommit <==> old(shouldCommit) || (!AllFresh(m.freshBytes, addr, |data|) && len > THRESHOLD)
      ensures KnowsAfter(old(Roomy()), old(Known()), addr, |data|)
    {
      RecordWrite(addr, |data|);
      StoreNow(addr, data);
    }

    /** The inlined check: it lets a write skip record_write only if its block has been logged. */
    method CanSkip(addr: nat, size: nat) returns (skip: bool)
      requires Valid() && m.pc.Running? && AtWrite(m.pc.acts)
      requires addr == m.pc.acts[0].addr && size == |m.pc.acts[0].data| && addr + size <= 0x1_0000_0000_0000_0000
      ensures skip <==> skipRecord && F.Skips(table.slots[..], addr, size)
      ensures skip ==> Blocked(log, len, addr, addr + size) && EntriesFor(m.freshBytes, mem, addr, size, Known()) == []
      ensures skip ==> KnownAfter(m.freshBytes, addr, size, Known()) == Known()
    {
      skip := skipRecord && F.Skips(table.slots[..], addr, size);
      if skip {
        SkipFacts(cf, start, steps, m, table.slots[..], addr, size);
        assert Known() == A.Members(table.slots[..]);
      }
    }

    /** The write alone: everything else is as it was. */
    method WriteSkipping(addr: nat, data: seq<Byte>)
      requires Valid() && m.pc.Running? && AtWrite(m.pc.acts) && m.pc.acts[0] == Action.Write(addr, data)
      requires addr + |data| <= |mem| && len <= |log| && Blocked(log, len, addr, addr + |data|)
      modifies this`m, this`steps, this`mem
      ensures Valid() && mem == Store(old(mem), addr, data) && m.pc == Running(old(m.pc.acts)[1..])
      ensures Steady(m.(vmem := old(m.vmem)), old(m)) && log[..len] == old(log[..len]) + []
    {
      StoreSkipped(addr, data);
    }

    method StoreSkipped(addr: nat, data: seq<Byte>)
      requires OnTrack() && Agrees() && m.pc.Running? && AtWrite(m.pc.acts) && m.pc.acts[0] == Action.Write(addr, data)
      requires addr + |data| <= |mem| && Blocked(log, len, addr, addr + |data|)
      modifies this`m, this`steps, this`mem
      ensures OnTrack() && Agrees() && mem == Store(old(mem), addr, data) && m.pc == Running(old(m.pc.acts)[1..])
      ensures Steady(m.(vmem := old(m.vmem)), old(m))
    {
      mem := Store(mem, addr, data);
      Take(Consume(WriteSkipped));
    }

    /**
     * An instrumented write. With the inlined check it may skip record_write, but memory, log and
     * flag end up the same: those blocks are logged that neither are fresh nor have been logged.
     */
    method Write(addr: nat, data: seq<Byte>)
      requires Valid() && m.pc.Running? && AtWrite(m.pc.acts) && m.pc.acts[0] == Action.Write(addr, data)
      requires addr + |data| <= |mem| <= 0x1_0000_0000_0000_0000
      requires 32 * len + |data| + 128 < 32 * |log|
      modifies this`m, this`steps, this`log, this`len, this`mem, this`shouldCommit, table.slots
      ensures Valid() && mem == Store(old(mem), addr, data) && m.pc == Running(old(m.pc.acts)[1..])
      ensures Steady(m.(vmem := old(m.vmem)), old(m)) && |log| == |old(log)|
      ensures len <= |log| && 32 * len < 32 * old(len) + |data| + 64
      ensures log[..len] == old(log[..len]) + EntriesFor(m.freshBytes, old(mem), addr, |data|, old(Known()))
      ensures shouldCommit <==> old(shouldCommit) || (!AllFresh(m.freshBytes, addr, |data|) && len > THRESHOLD)
      ensures KnowsAfter(old(Roomy()), old(Known()), addr, |data|)
    {
      var skip := CanSkip(addr, |data|);
      if skip {
        WriteSkipping(addr, data);
      } else {
        WriteRecorded(addr, data);
      }
    }

    /** A successful mmap: replace_region and undo_log_record_fresh_region. */
    method Map(base: nat, size: nat)
      requires Valid() && m.pc.Running? && m.pc.acts != [] && m.pc.acts[0] == Mmap(base, size) && base + size <= |mem|
      modifies this`m, this`steps, this`mem, this`regions, this`modified, freshRegions
      ensures Valid() && mem == Store(old(mem), base, Zeros(size)) && m.pc == Running(old(m.pc.acts)[1..])
      ensures regions == old(regions) + [Region(base, size)] && modified
      ensures m.freshBytes == old(m.freshBytes) + Span(base, size)
      ensures m.cmds == old(m.cmds) && m.base == old(m.base) && m.ptail == old(m.ptail)
    {
      freshRegions.Insert(base, size);
      MapRegion(base, size);
      assert forall a: nat :: a in Span(base, size) <==> base <= a < base + size;
    }

    method MapRegion(base: nat, size: nat)
      requires OnTrack() && Agrees() && m.pc.Running? && m.pc.acts != [] && m.pc.acts[0] == Mmap(base, size)
      requires base + size <= |mem|
      modifies this`m, this`steps, this`mem, this`regions, this`modified
      ensures OnTrack() && Agrees() && mem == Store(old(mem), base, Zeros(size)) && m.pc == Running(old(m.pc.acts)[1..])
      ensures regions == old(regions) + [Region(base, size)] && modified
      ensures m.freshBytes == old(m.freshBytes) + Span(base, size)
      ensures m.cmds == old(m.cmds) && m.base == old(m.base) && m.ptail == old(m.ptail)
    {
      mem := Store(mem, base, Zeros(size));
      regions := regions + [Region(base, size)];
      modified := true;
      Take(Consume(MapFresh));
    }

    // ---- instrument_commit -------------------------------------------------------------------------

    method Flush(a: nat)
      requires OnTrack() && Agrees() && m.pc == Flushing
      modifies this`m, this`steps
      ensures OnTrack() && Agrees() && Steady(m, old(m)) && m.pc == Flushing
      ensures m.mflush == old(m.mflush) + {LineOf(a)}
    {
      Take(Commit(FlushLine(LineOf(a))));
    }

    /** The first loop of undo_log_commit: the lines of the logged blocks. */
    method FlushLogged()
      requires OnTrack() && Agrees() && m.pc == Flushing && len <= |log|
      modifies this`m, this`steps
      ensures OnTrack() && Agrees() && Steady(m, old(m)) && m.pc == Flushing
      ensures forall i :: 0 <= i < len ==> LineOf(log[i].addr) in m.mflush
    {
      for i := 0 to len
        invariant OnTrack() && Agrees() && Steady(m, old(m)) && m.pc == Flushing
        invariant forall k :: 0 <= k < i ==> LineOf(log[k].addr) in m.mflush
      {
        Flush(log[i].addr);
      }
    }

    /** The second loop: every line that meets a fresh region. */
    method FlushRange(r: R.Range)
      requires OnTrack() && Agrees() && m.pc == Flushing
      modifies this`m, this`steps
      ensures OnTrack() && Agrees() && Steady(m, old(m)) && m.pc == Flushing && old(m.mflush) <= m.mflush
      ensures forall a: nat :: r.Includes(a) ==> LineOf(a) in m.mflush
    {
      Flush(r.start);
      OneLine(r.start);
      var p := r.start - r.start % 64 + 64;
      while p < r.start + r.size
        invariant OnTrack() && Agrees() && Steady(m, old(m)) && m.pc == Flushing && old(m.mflush) <= m.mflush
        invariant p % 64 == 0 && LinesIn(r.start, p, m.mflush)
        decreases r.start + r.size - p
      {
        Flush(p);
        OneLine(p);
        p := p + 64;
      }
    }

    method FlushFresh()
      requires OnTrack() && Agrees() && FreshAgrees() && m.pc == Flushing
      modifies this`m, this`steps
      ensures OnTrack() && Agrees() && Steady(m, old(m)) && m.pc == Flushing && old(m.mflush) <= m.mflush
      ensures forall a :: a in m.freshBytes ==> LineOf(a) in m.mflush
    {
      ghost var v := freshRegions.v;
      for k := 0 to |freshRegions.v|
        invariant OnTrack() && Agrees() && Steady(m, old(m)) && m.pc == Flushing && old(m.mflush) <= m.mflush
        invariant forall i, a: nat :: 0 <= i < k && v[i].Includes(a) ==> LineOf(a) in m.mflush
      {
        FlushRange(freshRegions.v[k]);
      }
      forall a | a in m.freshBytes
        ensures LineOf(a) in m.mflush
      {
        assert R.Covers(v, a);
      }
    }

    /** persist_new_region_table, when a region was mapped since the last commit. */
    method PersistTable()
      requires Consistent() && m.pc == Ready && m.base < tail
      modifies this`m, this`steps, this`files
      ensures Consistent() && m.pc == Flushing && len < |log|
      ensures m.ddisk == files && RenameNew(files).table == regions
      ensures m.cmds == old(m.cmds) && m.base == old(m.base) && m.ptail == old(m.ptail)
    {
      OpenTable();
      if modified {
        var row := 0;
        while row < |regions|
          invariant 0 <= row <= |regions|
          invariant OnTrack() && Agrees() && m.freshBytes == old(m.freshBytes) && m.pc == Tabling(row)
          invariant m.cmds == old(m.cmds) && m.base == old(m.base) && m.ptail == old(m.ptail)
        {
          PersistRow(row);
          row := row + 1;
        }
        SyncTable();
      }
      FlushingFacts(cf, start, steps, m);
    }

    method OpenTable()
      requires OnTrack() && Agrees() && m.pc == Ready && m.base < tail
      modifies this`m, this`steps, this`files
      ensures OnTrack() && Agrees() && m.pc == if modified then Tabling(0) else Flushing
      ensures m.freshBytes == old(m.freshBytes) && m.cmds == old(m.cmds) && m.base == old(m.base)
      ensures m.ptail == old(m.ptail)
    {
      if modified && files.newTable.None? {
        files := files.(newTable := Some([]));
      }
      Take(Commit(StartCommit));
    }

    method PersistRow(row: nat)
      requires OnTrack() && Agrees() && m.pc == Tabling(row) && row < |regions|
      modifies this`m, this`steps, this`files
      ensures OnTrack() && Agrees() && m.pc == Tabling(row + 1)
      ensures m.freshBytes == old(m.freshBytes) && m.cmds == old(m.cmds) && m.base == old(m.base)
      ensures m.ptail == old(m.ptail)
    {
      TablingFacts(cf, start, steps, m);
      files := files.(newTable := Some(PutRow(files.newTable.value, row, regions[row])));
      Take(Commit(WriteRow));
    }

    method SyncTable()
      requires OnTrack() && Agrees() && m.pc == Tabling(|regions|)
      modifies this`m, this`steps
      ensures OnTrack() && Agrees() && m.pc == Flushing
      ensures m.freshBytes == old(m.freshBytes) && m.cmds == old(m.cmds) && m.base == old(m.base)
      ensures m.ptail == old(m.ptail)
    {
      Take(Commit(CommitStep.SyncTable));
    }

    /** The data of the batch is flushed: drain it and write the commit record. */
    method Seal()
      requires OnTrack() && Agrees() && m.pc == Flushing && FlushedAll(m) && len < |log|
      modifies this`m, this`steps, this`log, this`len
      ensures OnTrack() && Agrees() && Steady(m, old(m)) && m.pc == TailPending(false)
      ensures len == old(len) + 1 && log == old(log)[old(len) := old(log)[old(len)].(addr := 0, commit := tail + 1)]
    {
      DrainBatch();
      StoreRecord();
      FinishRecord();
    }

    method DrainBatch()
      requires OnTrack() && Agrees() && m.pc == Flushing && FlushedAll(m)
      modifies this`m, this`steps
      ensures OnTrack() && Agrees() && Steady(m, old(m)) && m.pc == Drained
    {
      Take(Commit(DrainData));
    }

    method FinishRecord()
      requires OnTrack() && Agrees() && m.pc == CommitStored
      modifies this`m, this`steps, this`len
      ensures OnTrack() && Agrees() && Steady(m, old(m)) && m.pc == TailPending(false) && len == old(len) + 1
    {
      FlushRecord();
      Take(Commit(DrainCommit));
    }

    method FlushRecord()
      requires OnTrack() && Agrees() && m.pc == CommitStored
      modifies this`m, this`steps, this`len
      ensures OnTrack() && Agrees() && Steady(m, old(m)) && m.pc == CommitFlushed && len == old(len) + 1
    {
      len := len + 1;
      Take(Commit(FlushCommit));
    }

    method StoreRecord()
      requires OnTrack() && Agrees() && m.pc == Drained && len < |log|
      modifies this`m, this`steps, this`log
      ensures OnTrack() && Agrees() && Steady(m, old(m)) && m.pc == CommitStored
      ensures log == old(log)[len := old(log)[len].(addr := 0, commit := tail + 1)]
    {
      var rec := log[len].(addr := 0, commit := tail + 1);
      log := log[len := rec];
      Take(Commit(StoreCommit));
    }

    /** instrument_commit: from the end of a batch to its durable commit record. */
    method CommitBatch()
      requires Consistent() && m.pc == Ready && m.base < tail
      modifies this`m, this`steps, this`log, this`len, this`files
      ensures OnTrack() && Agrees() && FreshAgrees() && table.Valid() && m.pc == TailPending(false)
      ensures len == old(len) + 1 <= |log| && IsRecord(log[len - 1], tail)
      ensures m.cmds == old(m.cmds) && m.base == old(m.base) && m.ptail == old(m.ptail)
    {
      PersistTable();
      FlushLogged();
      FlushFresh();
      Seal();
    }

    /** psm->update_tail: the tail is durable before the producer can see it. */
    method UpdateTail()
      requires OnTrack() && Follows() && m.pc.TailPending?
      modifies this`m, this`steps, this`logTail, this`psmTail
      ensures OnTrack() && Follows() && psmTail == logTail == tail && SameLog(m, old(m))
      ensures m.pc == if old(m.pc.rec) then Ready else Renaming(false)
      ensures old(m.pc.rec) ==> m.base == tail
    {
      StoreLogTail();
      DrainTail();
      PublishTail();
    }

    method DrainTail()
      requires OnTrack() && Follows() && m.pc.TailStored?
      modifies this`m, this`steps
      ensures OnTrack() && Follows() && SameLog(m, old(m)) && m.pc == TailDurable(old(m.pc.rec))
    {
      Take(Finish(FinishStep.DrainTail));
    }

    /** tail.store(new_tail, release) */
    method PublishTail()
      requires OnTrack() && Follows() && m.pc.TailDurable?
      modifies this`m, this`steps, this`psmTail
      ensures OnTrack() && Follows() && SameLog(m, old(m)) && psmTail == tail
      ensures m.pc == if old(m.pc.rec) then Ready else Renaming(false)
      ensures old(m.pc.rec) ==> m.base == tail
    {
      psmTail := tail;
      Take(Finish(Publish));
    }

    method StoreLogTail()
      requires OnTrack() && Follows() && m.pc.TailPending?
      modifies this`m, this`steps, this`logTail
      ensures OnTrack() && Follows() && logTail == tail && SameLog(m, old(m))
      ensures m.pc == TailStored(old(m.pc.rec))
    {
      logTail := tail;
      Take(Finish(StoreTail));
    }

    method ClearOne(i: nat)
      requires OnTrack() && Follows() && m.pc.Clearing? && m.pc.i == i < len
      modifies this`m, this`steps, this`log
      ensures OnTrack() && Follows() && SameButLog(m, old(m)) && m.pc == Clearing(i + 1, old(m.pc.why))
      ensures log == old(log)[i := NullEntry] && m.vlog == old(m.vlog)[i := NullEntry]
    {
      log := log[i := NullEntry];
      Take(Finish(ClearEntry));
    }

    method ClearEntries()
      requires OnTrack() && Follows() && m.pc.Clearing? && m.pc.i == 0
      modifies this`m, this`steps, this`log
      ensures OnTrack() && Follows() && SameButLog(m, old(m)) && m.pc == Clearing(len, old(m.pc.why))
      ensures log == Cleared(old(log), 0, len) && m.vlog == Cleared(old(m.vlog), 0, len)
    {
      var i := 0;
      assert log == Cleared(log, 0, 0) && m.vlog == Cleared(m.vlog, 0, 0);
      while i < len
        invariant 0 <= i <= len <= |log|
        invariant OnTrack() && Follows() && SameButLog(m, old(m)) && m.pc == Clearing(i, old(m.pc.why))
        invariant |old(log)| == |old(m.vlog)| == |log|
        invariant log == Cleared(old(log), 0, i) && m.vlog == Cleared(old(m.vlog), 0, i)
      {
        ClearOne(i);
        ClearedNext(old(log), i);
        ClearedNext(old(m.vlog), i);
        i := i + 1;
      }
    }

    /** undo_log_clear: zero the entries, drain them, and forget what the batch knew. */
    method Clear()
      requires OnTrack() && Follows() && FreshAgrees() && table.Valid() && m.pc.Clearing? && m.pc.i == 0
      modifies this`m, this`steps, this`log, this`len, this`modified, table.slots, freshRegions
      ensures OnTrack() && Follows() && FreshAgrees() && TableAgrees() && len == 0 && !modified && Roomy()
      ensures log == Cleared(old(log), 0, old(len)) && m.vlog == Cleared(old(m.vlog), 0, old(len))
      ensures m.cmds == old(m.cmds) && m.freshBytes == {}
      ensures m.pc == if old(m.pc.why) == RecoverCommit then TailPending(true) else Ready
      ensures m.base == if old(m.pc.why) == Cleanup then tail else old(m.base)
      ensures m.ptail == old(m.ptail) && m.vtail == old(m.vtail)
    {
      ClearEntries();
      table.Clear();
      freshRegions.Clear();
      FinishClear();
    }

    method FinishClear()
      requires OnTrack() && Follows() && m.pc.Clearing? && m.pc.i == len
      modifies this`m, this`steps, this`len, this`modified
      ensures OnTrack() && Follows() && len == 0 && !modified && m.freshBytes == {} && m.vlog == old(m.vlog)
      ensures m.cmds == old(m.cmds) && m.ptail == old(m.ptail) && m.vtail == old(m.vtail)
      ensures m.pc == if old(m.pc.why) == RecoverCommit then TailPending(true) else Ready
      ensures m.base == if old(m.pc.why) == Cleanup then tail else old(m.base)
    {
      len, modified := 0, false;
      Take(Finish(EndClear));
    }

    /** instrument_cleanup */
    method CleanUp()
      requires OnTrack() && Agrees() && FreshAgrees() && table.Valid() && m.pc == Renaming(false) && len <= |log|
      modifies this`m, this`steps, this`log, this`len, this`modified, this`files, table.slots, freshRegions
      ensures OnTrack() && Agrees() && FreshAgrees() && TableAgrees() && len == 0 && !modified && m.pc == Ready
      ensures Roomy()
      ensures m.cmds == old(m.cmds) && m.base == tail && m.ptail == old(m.ptail)
    {
      RenameTable();
      Take(Finish(SyncRename));
      Clear();
    }

    // ---- _bg_consume -------------------------------------------------------------------------------

    /** The next write or mmap of a command. */
    method Perform(act: Action, ghost full: seq<Entry>, ghost all: seq<Entry>) returns (ghost now: seq<Entry>)
      requires Valid() && m.pc.Running? && m.pc.acts != [] && m.pc.acts[0] == act && |mem| <= 0x1_0000_0000_0000_0000
      requires 32 * len + Cost(m.pc.acts) + 128 < 32 * |log| && SameFirsts(full, log[..len])
      requires full + FullLog(mem, m.freshBytes, m.pc.acts) == all
      modifies this`m, this`steps, this`log, this`len, this`mem, this`regions, this`modified, this`shouldCommit
      modifies table.slots, freshRegions
      ensures Valid() && m.pc == Running(old(m.pc.acts)[1..]) && |mem| == |old(mem)| && len <= |log|
      ensures MemOf(mem, m.pc.acts) == MemOf(old(mem), old(m.pc.acts))
      ensures Roomy() ==> old(Roomy())
      ensures Roomy() ==> log[..len] + BatchLog(m.pc.acts) == old(log[..len]) + old(BatchLog(m.pc.acts))
      ensures SameFirsts(now, log[..len]) && now + FullLog(mem, m.freshBytes, m.pc.acts) == all
      ensures 32 * len + Cost(m.pc.acts) + 128 < 32 * |log|
      ensures m.cmds == old(m.cmds) && m.base == old(m.base) && m.ptail == old(m.ptail)
    {
      RunningFacts(cf, start, steps, m);
      match act
      case Write(addr, data) =>
        ghost var more := PerformWrite(addr, data, full);
        Regroup(full, more, FullLog(mem, m.freshBytes, m.pc.acts));
        now := full + more;
      case Mmap(base, size) =>
        Map(base, size);
        now := full;
    }

    /** Perform's contract for a write. */
    method PerformWrite(addr: nat, data: seq<Byte>, ghost full: seq<Entry>) returns (ghost more: seq<Entry>)
      requires Valid() && m.pc.Running? && AtWrite(m.pc.acts) && m.pc.acts[0] == Action.Write(addr, data)
      requires addr + |data| <= |mem| <= 0x1_0000_0000_0000_0000
      requires 32 * len + Cost(m.pc.acts) + 128 < 32 * |log| && SameFirsts(full, log[..len])
      modifies this`m, this`steps, this`log, this`len, this`mem, this`shouldCommit, table.slots
      ensures Valid() && m.pc == Running(old(m.pc.acts)[1..]) && |mem| == |old(mem)| && len <= |log|
      ensures MemOf(mem, m.pc.acts) == MemOf(old(mem), old(m.pc.acts))
      ensures Roomy() ==> old(Roomy())
      ensures Roomy() ==> log[..len] + BatchLog(m.pc.acts) == old(log[..len]) + old(BatchLog(m.pc.acts))
      ensures SameFirsts(full + more, log[..len])
      ensures more + FullLog(mem, m.freshBytes, m.pc.acts) == old(FullLog(mem, m.freshBytes, m.pc.acts))
      ensures 32 * len + Cost(m.pc.acts) + 128 < 32 * |log|
      ensures m.cmds == old(m.cmds) && m.base == old(m.base) && m.ptail == old(m.ptail)
    {
      ghost var acts, was, es := m.pc.acts, log[..len], EntriesFor(m.freshBytes, mem, addr, |data|, Known());
      more := EntriesFor(m.freshBytes, mem, addr, |data|, {});
      SkipSame(was, full, m.freshBytes, mem, addr, |data|, Known());
      Write(addr, data);
      Regroup(was, es, BatchLog(acts[1..]));
    }

    /** The consume function: the writes and mmaps of one command. */
    method Execute(acts: seq<Action>)
      requires Valid() && m.pc == Running(acts) && |mem| <= 0x1_0000_0000_0000_0000
      requires 32 * len + Cost(acts) + 128 < 32 * |log|
      modifies this`m, this`steps, this`log, this`len, this`mem, this`regions, this`modified, this`shouldCommit
      modifies table.slots, freshRegions
      ensures Valid() && m.pc == Running([]) && tail == old(tail) && |mem| == |old(mem)|
      ensures m.cmds == old(m.cmds) && m.base == old(m.base) && m.ptail == old(m.ptail)
      ensures mem == MemOf(old(mem), acts) && len <= |log|
      ensures Roomy() ==> old(Roomy()) && log[..len] == old(log[..len]) + old(BatchLog(acts))
      ensures SameFirsts(old(log[..len]) + old(FullLog(mem, m.freshBytes, acts)), log[..len])
    {
      var i := 0;
      ghost var goal, full := log[..len] + BatchLog(acts), log[..len];
      ghost var all := log[..len] + FullLog(mem, m.freshBytes, acts);
      while i < |acts|
        invariant 0 <= i <= |acts| && Valid() && m.pc == Running(acts[i..]) && |mem| == |old(mem)|
        invariant 32 * len + Cost(acts[i..]) + 128 < 32 * |log|
        invariant m.cmds == old(m.cmds) && m.base == old(m.base) && m.ptail == old(m.ptail)
        invariant MemOf(mem, acts[i..]) == MemOf(old(mem), acts) && len <= |log|
        invariant Roomy() ==> old(Roomy()) && log[..len] + BatchLog(acts[i..]) == goal
        invariant SameFirsts(full, log[..len]) && full + FullLog(mem, m.freshBytes, acts[i..]) == all
      {
        assert acts[i..][1..] == acts[i + 1..];
        full := Perform(acts[i], full, all);
        i := i + 1;
      }
      assert acts[i..] == [] && full + [] == full && log[..len] + [] == log[..len];
    }

    method BeginCommand(ghost acts: seq<Action>)
      requires Valid() && m.pc == Ready && tail < |m.cmds| && acts == cf.app(m.cmds[tail], ViewOf(mem, regions))
      requires GoodActs(acts, regions, |mem|)
      modifies this`m, this`steps
      ensures Valid() && Steady(m, old(m)) && m.pc == Running(acts)
    {
      Take(Consume(Begin));
    }

    method EndOfCommand()
      requires Valid() && m.pc == Running([])
      modifies this`m, this`steps, this`tail, this`shouldCommit
      ensures Consistent() && m.pc == Ready && tail == old(tail) + 1 && !shouldCommit
      ensures m.cmds == old(m.cmds) && m.base == old(m.base) && m.ptail == old(m.ptail)
    {
      AdvanceTail();
      shouldCommit := false;
    }

    method AdvanceTail()
      requires OnTrack() && Agrees() && m.pc == Running([])
      modifies this`m, this`steps, this`tail
      ensures OnTrack() && Agrees() && m.pc == Ready && tail == old(tail) + 1 && m.freshBytes == old(m.freshBytes)
      ensures m.cmds == old(m.cmds) && m.base == old(m.base) && m.ptail == old(m.ptail)
    {
      tail := tail + 1;
      Take(Consume(EndCommand));
    }

    /** One batch: consume the next command, commit it, update the tail, clean up - in this order. */
    method ConsumeOne(acts: seq<Action>)
      requires Valid() && m.pc == Ready && m.base == tail < |m.cmds|
      requires acts == cf.app(m.cmds[tail], ViewOf(mem, regions)) && GoodActs(acts, regions, |mem|)
      requires |mem| <= 0x1_0000_0000_0000_0000 && 32 * len + Cost(acts) + 128 < 32 * |log|
      modifies this, table.slots, freshRegions
      ensures Valid() && m.pc == Ready && tail == old(tail) + 1 && m.cmds == old(m.cmds)
      ensures m.base == psmTail == logTail == tail && len == 0 && !modified && !shouldCommit
      ensures Shows(cf, mem, regions, m.cmds, tail)
    {
      BeginCommand(acts);
      Execute(acts);
      EndOfCommand();
      FinishBatch();
      ReadyFacts(cf, start, steps, m);
    }

    /** Commit, update the tail, clean up. */
    method FinishBatch()
      requires Consistent() && m.pc == Ready && m.base < tail
      modifies this`m, this`steps, this`log, this`len, this`modified, this`files, this`logTail, this`psmTail
      modifies table.slots
      modifies freshRegions
      ensures Consistent() && m.pc == Ready && len == 0 && !modified && m.cmds == old(m.cmds)
      ensures m.base == m.ptail == tail
    {
      CommitBatch();
      UpdateTail();
      CleanUp();
    }

    // ---- Recovery ------------------------------------------------------------------------------------

    /** undo_log_init: the log's length is the number of entries before the first null one. */
    method ScanEntries() returns (n: nat)
      requires Scan(log) < |log|
      ensures n == Scan(log)
    {
      n := 0;
      while !IsNull(log[n])
        invariant 0 <= n < |log|
        invariant forall i :: 0 <= i < n ==> !IsNull(log[i])
        decreases |log| - n
      {
        ScanPast(log, n);
        n := n + 1;
      }
      ScanIs(log, n);
    }

    /** One turn of the rollback loop, unless its assertion fails. */
    method UndoEntry(i: nat) returns (ok: bool)
      requires OnTrack() && Follows() && m.pc == Undoing(i) && 0 < i <= len
      modifies this`m, this`steps, this`mem
      ensures OnTrack() && Follows() && SameLog(m, old(m)) && m.base == old(m.base)
      ensures ok <==> Covered(regions, log[i - 1].addr)
      ensures ok ==> m.pc == Undoing(i - 1) && Plain(log[i - 1], |old(mem)|) && mem == Restore(old(mem), log[i - 1])
    {
      ok := Covered(regions, log[i - 1].addr);
      if ok {
        UndoingFacts(cf, start, steps, m, i - 1);
        RestoreBlock(i, log[i - 1]);
      }
    }

    /** does_manage holds, so memcpy(entry->addr, &entry->blk, UNDO_BLK_SIZE_B) and pmem_flush. */
    method RestoreBlock(i: nat, e: Entry)
      requires OnTrack() && Follows() && m.pc == Undoing(i) && 0 < i <= len && e == m.vlog[i - 1]
      requires Plain(e, |mem|) && Covered(regions, e.addr)
      modifies this`m, this`steps, this`mem
      ensures OnTrack() && Follows() && m.pc == Undoing(i - 1) && SameLog(m, old(m)) && m.base == old(m.base)
      ensures mem == Restore(old(mem), e)
    {
      mem := Restore(mem, e);
      TakeUndo(i, e);
    }

    ghost method TakeUndo(i: nat, e: Entry)
      requires OnTrack() && m.pc == Undoing(i) && 0 < i <= |m.vlog| && e == m.vlog[i - 1]
      requires Plain(e, |m.vmem|) && Covered(m.regions, e.addr)
      modifies this`m, this`steps
      ensures OnTrack() && m.pc == Undoing(i - 1) && SameLog(m, old(m)) && m.base == old(m.base)
      ensures m.vmem == Restore(old(m.vmem), e) && m.len == old(m.len) && m.regions == old(m.regions)
      ensures m.modified == old(m.modified) && m.vdisk == old(m.vdisk) && m.vtail == old(m.vtail)
      ensures m.tail == old(m.tail) && m.ptail == old(m.ptail)
    {
      Take(Recover(Undo));
    }

    /** The rollback branch: forget the new table, apply the entries from back to front, clear. */
    method RollBack() returns (ok: bool)
      requires OnTrack() && Follows() && FreshAgrees() && table.Valid() && m.pc == Unlinking
      modifies this`m, this`steps, this`log, this`len, this`mem, this`regions, this`modified, this`files
      modifies table.slots, freshRegions
      ensures OnTrack() && (ok <==> old(TableManages(files.table, log, len)))
      ensures ok ==> Follows() && FreshAgrees() && TableAgrees() && m.pc == Ready && m.cmds == old(m.cmds)
      ensures ok ==> len == 0 && !modified && tail == old(tail) == m.base
      ensures ok ==> log == Cleared(old(log), 0, old(len)) && m.vlog == Cleared(old(m.vlog), 0, old(len))
    {
      UnlinkingFacts(cf, start, steps, m);
      ok := UndoBatch();
      if ok {
        Clear();
      }
    }

    /** Up to the drain that makes the restored memory durable. */
    method UndoBatch() returns (ok: bool)
      requires OnTrack() && Follows() && m.pc == Unlinking
      modifies this`m, this`steps, this`mem, this`regions, this`files
      ensures OnTrack() && Follows() && SameLog(m, old(m)) && m.base == old(m.base)
      ensures ok <==> TableManages(old(files.table), log, len)
      ensures ok ==> m.pc == Clearing(0, RecoverUndo)
    {
      Unlink();
      ok := UndoAll();
      if ok {
        DrainRollback();
      }
    }

    /** The rollback loop. */
    method UndoAll() returns (ok: bool)
      requires OnTrack() && Follows() && m.pc == Undoing(len)
      modifies this`m, this`steps, this`mem
      ensures OnTrack() && Follows() && SameLog(m, old(m)) && m.base == old(m.base)
      ensures ok <==> TableManages(regions, log, len)
      ensures ok ==> m.pc == Undoing(0)
    {
      var i := len;
      while i > 0
        invariant 0 <= i <= len && OnTrack() && Follows() && m.pc == Undoing(i)
        invariant SameLog(m, old(m)) && m.base == old(m.base)
        invariant forall k :: i <= k < len ==> Covered(regions, log[k].addr)
      {
        ok := UndoEntry(i);
        if !ok {
          return;
        }
        i := i - 1;
      }
      ok := true;
    }

    method Unlink()
      requires OnTrack() && Follows() && m.pc == Unlinking
      modifies this`m, this`steps, this`regions, this`files
      ensures OnTrack() && Follows() && m.pc == Undoing(len) && SameLog(m, old(m)) && m.base == old(m.base)
      ensures regions == old(files.table)
    {
      RemoveNewTable();
      regions := files.table;
      Take(Recover(SyncUnlink));
    }

    method RemoveNewTable()
      requires OnTrack() && Follows() && m.pc == Unlinking
      modifies this`m, this`steps, this`files
      ensures OnTrack() && Follows() && m.pc == Unlinked && SameLog(m, old(m)) && m.base == old(m.base)
      ensures files.table == old(files.table)
    {
      files := files.(newTable := None);
      Take(Recover(RecoverStep.Unlink));
    }

    method DrainRollback()
      requires OnTrack() && Follows() && m.pc == Undoing(0)
      modifies this`m, this`steps
      ensures OnTrack() && Follows() && m.pc == Clearing(0, RecoverUndo) && SameLog(m, old(m)) && m.base == old(m.base)
    {
      Take(Recover(DrainUndo));
    }

    /** The commit branch: install the new table, clear, and only then persist the recovered tail. */
    method RollForward()
      requires OnTrack() && Follows() && FreshAgrees() && table.Valid() && m.pc == Renaming(true)
      modifies this`m, this`steps, this`log, this`len, this`regions, this`modified, this`files, this`logTail
      modifies this`psmTail
      modifies table.slots, freshRegions
      ensures OnTrack() && Follows() && FreshAgrees() && TableAgrees() && m.pc == Ready && m.cmds == old(m.cmds)
      ensures len == 0 && !modified && m.base == tail
      ensures log == Cleared(old(log), 0, old(len)) && m.vlog == Cleared(old(m.vlog), 0, old(len))
    {
      InstallTable();
      Clear();
      UpdateTail();
    }

    method InstallTable()
      requires OnTrack() && Follows() && m.pc == Renaming(true)
      modifies this`m, this`steps, this`regions, this`files
      ensures OnTrack() && Follows() && m.pc == Clearing(0, RecoverCommit) && SameLog(m, old(m))
    {
      RenameTable();
      regions := files.table;
      Take(Finish(SyncRename));
    }

    /** commit_new_region_table, up to the sync of the directory */
    method RenameTable()
      requires OnTrack() && Follows() && m.pc.Renaming?
      modifies this`m, this`steps, this`files
      ensures OnTrack() && Follows() && m.pc == Renamed(old(m.pc.rec)) && SameLog(m, old(m))
      ensures m.base == old(m.base) && m.ptail == old(m.ptail)
    {
      files := RenameNew(files);
      Take(Finish(Rename));
    }

    /** The scan, and the tail that a commit record gives. */
    method ScanLogOnce()
      requires Restarting()
      modifies this`m, this`steps, this`len, this`tail
      ensures OnTrack() && Follows() && SameLog(m, old(m)) && len == Scan(log) < |log|
      ensures m.pc == if len > 0 && log[len - 1].commit > 0 then Renaming(true) else Unlinking
      ensures tail == old(RecTail(m))
      ensures old(Manageable(m)) <==> (len > 0 && log[len - 1].commit > 0) || TableManages(files.table, log, len)
    {
      RestartFacts(cf, start, steps, m, log);
      var n := ScanEntries();
      assert Manageable(m) <==> (n > 0 && log[n - 1].commit > 0) || TableManages(files.table, log, n);
      TakeLength(n);
    }

    /** The length is that of the machine's scan, and the last entry gives the tail. */
    method TakeLength(n: nat)
      requires OnTrack() && Fields() && m.pc == Down && n == Scan(m.vlog) && SameEntries(log, m.vlog, n)
      requires Accepts(m.vlog) <==> n > 0 && log[n - 1].commit > 0
      requires RecTail(m) == if n > 0 && log[n - 1].commit > 0 then log[n - 1].commit - 1 else logTail
      modifies this`m, this`steps, this`len, this`tail
      ensures OnTrack() && Follows() && SameLog(m, old(m)) && len == n && tail == old(RecTail(m))
      ensures m.pc == if n > 0 && log[n - 1].commit > 0 then Renaming(true) else Unlinking
    {
      len := n;
      tail := if n > 0 && log[n - 1].commit > 0 then log[n - 1].commit - 1 else logTail;
      Take(Recover(ScanLog));
    }

    /** The two branches of undo_log_recover. */
    method Roll() returns (ok: bool)
      requires OnTrack() && Follows() && FreshAgrees() && table.Valid()
      requires m.pc == if len > 0 && log[len - 1].commit > 0 then Renaming(true) else Unlinking
      modifies this`m, this`steps, this`log, this`len, this`mem, this`regions, this`modified, this`files, this`logTail
      modifies this`psmTail
      modifies table.slots, freshRegions
      ensures OnTrack()
      ensures ok <==> old((len > 0 && log[len - 1].commit > 0) || TableManages(files.table, log, len))
      ensures ok ==> Follows() && FreshAgrees() && TableAgrees() && m.pc == Ready && m.cmds == old(m.cmds)
      ensures ok ==> len == 0 && !modified && m.base == tail
      ensures ok ==> log == Cleared(old(log), 0, old(len)) && m.vlog == Cleared(old(m.vlog), 0, old(len))
    {
      if len > 0 && log[len - 1].commit > 0 {
        RollForward();
        ok := true;
      } else {
        ok := RollBack();
      }
    }

    /**
     * Recovery as a whole, after any crash outside the tail window. It gets to its end if and only
     * if its assertions hold; then memory shows exactly the commands before the recovered tail, and
     * the entries that the scan counted are cleared. The class invariant holds again, so that the
     * process can go on, if and only if no entry survived past the first null one.
     */
    method RecoverAll() returns (ok: bool)
      requires Restarting() && (skipRecord ==> dedup)
      modifies this`m, this`steps, this`log, this`len, this`mem, this`regions, this`modified, this`files, this`logTail
      modifies this`psmTail
      modifies this`tail, this`shouldCommit, table.slots, freshRegions
      ensures OnTrack() && (ok <==> old(Manageable(m)))
      ensures ok ==> Follows() && m.pc == Ready && m.cmds == old(m.cmds) && len == 0
      ensures ok ==> tail == old(RecTail(m)) && m.base == psmTail == logTail == tail && !modified && !shouldCommit
      ensures ok ==> Shows(cf, mem, regions, m.cmds, tail)
      ensures ok ==> log == Cleared(old(log), 0, Scan(old(log)))
      ensures ok ==> (Valid() <==> NullBeyondScan(old(log)))
    {
      ok := RecoverLog();
      shouldCommit := false;
      if ok {
        ReadyFacts(cf, start, steps, m);
      }
    }

    method RecoverLog() returns (ok: bool)
      requires Restarting()
      modifies this`m, this`steps, this`log, this`len, this`mem, this`regions, this`modified, this`files, this`logTail
      modifies this`psmTail
      modifies this`tail, table.slots, freshRegions
      ensures OnTrack() && (ok <==> old(Manageable(m)))
      ensures ok ==> Follows() && FreshAgrees() && TableAgrees() && m.pc == Ready && m.cmds == old(m.cmds)
      ensures ok ==>
        len == 0 && !modified && m.base == tail == old(RecTail(m)) && log == Cleared(old(log), 0, Scan(old(log)))
      ensures ok ==> (log == m.vlog <==> NullBeyondScan(old(log)))
    {
      ghost var was := log;
      ScanLogOnce();
      assert m.vlog == Scrubbed(was);
      ok := Roll();
      if ok {
        assert m.vlog == Cleared(Scrubbed(was), 0, Scan(was));
        ScrubbedClears(was);
      }
    }
  }

  /** The table manages the first `n` entries. */
  predicate TableManages(t: seq<Region>, log: seq<Entry>, n: nat)
    requires n <= |log|
  {
    forall k :: 0 <= k < n ==> Covered(t, log[k].addr)
  }

  /**
   * When the inlined check lets a write skip undo_log_record, the call would have added no entry:
   * the write's one block is in the table, and only logged blocks are.
   */
  lemma SkippedLogsNothing(t: seq<nat>, mem: seq<Byte>, addr: nat, size: nat)
    requires F.OfBlocks(t) && 0 < size && addr + size <= 0x1_0000_0000_0000_0000 && BlockOf(addr) > 0
    requires F.Skips(t, addr, size)
    ensures BlockOf(addr) in A.Members(t)
    ensures NewEntries(mem, BlockOf(addr), addr + size, A.Members(t)) == []
  {
    F.SkipsIff(t, addr, size);
    var b := BlockOf(addr);
    assert NewEntries(mem, b + BLOCK, addr + size, A.Members(t)) == [];
  }

  /** A table of logged blocks is a table of blocks. */
  lemma TableOfBlocks(t: seq<nat>, log: seq<Entry>, n: nat)
    requires |t| == 16384 && n <= |log| && forall i :: 0 <= i < n ==> OnBlock(log[i].addr)
    requires forall b :: b in A.Members(t) ==> LoggedBlock(log, n, b)
    ensures F.OfBlocks(t)
  {
    forall i | 0 <= i < |t|
      ensures OnBlock(t[i])
    {
      if t[i] != 0 {
        assert LoggedBlock(log, n, t[i]);
      }
    }
  }

  /** The one block of a skipped write is logged. */
  lemma SkippedBlocked(t: seq<nat>, log: seq<Entry>, n: nat, addr: nat, size: nat)
    requires F.OfBlocks(t) && 0 < size && addr + size <= 0x1_0000_0000_0000_0000 && BlockOf(addr) > 0
    requires F.Skips(t, addr, size) && forall b :: b in A.Members(t) ==> LoggedBlock(log, n, b)
    ensures Blocked(log, n, addr, addr + size)
  {
    F.SkipsIff(t, addr, size);
    SkippedLogsNothing(t, [], addr, size);
    forall b: nat | OnBlock(b) && BlockOf(addr) <= b < addr + size
      ensures LoggedBlock(log, n, b)
    {
      SameBlockStart(BlockOf(addr), b);
    }
  }

  /** What the inlined check implies while a command is at a write. */
  lemma SkipFacts(cf: Config, s0: State, steps: seq<Step>, e: State, t: seq<nat>, addr: nat, size: nat)
    requires RunsTo(cf, s0, steps, e) && e.pc.Running? && AtWrite(e.pc.acts)
    requires addr == e.pc.acts[0].addr && 0 < size && addr + size <= 0x1_0000_0000_0000_0000
    requires |t| == 16384 && F.Skips(t, addr, size) && forall b :: b in A.Members(t) ==> LoggedBlock(e.vlog, e.len, b)
    ensures Blocked(e.vlog, e.len, addr, addr + size)
    ensures EntriesFor(e.freshBytes, e.vmem, addr, size, A.Members(t)) == []
    ensures BlocksOf(addr, size) <= A.Members(t)
  {
    LoggedFacts(cf, s0, steps, e);
    SkipImplies(t, e.vlog, e.len, e.vmem, addr, size);
  }

  lemma SkipImplies(t: seq<nat>, log: seq<Entry>, n: nat, mem: seq<Byte>, addr: nat, size: nat)
    requires n <= |log| && (forall i :: 0 <= i < n ==> OnBlock(log[i].addr)) && 0 < size && BlockOf(addr) > 0
    requires addr + size <= 0x1_0000_0000_0000_0000 && |t| == 16384 && F.Skips(t, addr, size)
    requires forall b :: b in A.Members(t) ==> LoggedBlock(log, n, b)
    ensures Blocked(log, n, addr, addr + size) && NewEntries(mem, BlockOf(addr), addr + size, A.Members(t)) == []
    ensures BlocksOf(addr, size) <= A.Members(t)
  {
    TableOfBlocks(t, log, n);
    SkippedLogsNothing(t, mem, addr, size);
    SkippedBlocked(t, log, n, addr, size);
    F.SkipsIff(t, addr, size);
    assert BlocksTo(BlockOf(addr) + BLOCK, addr + size) == {};
  }

  lemma SameBlockStart(b: nat, c: nat)
    requires OnBlock(b) && OnBlock(c) && b <= c < b + BLOCK
    ensures b == c
  {
  }

  /** While a command is at a write, every entry is for a block and the write is not in block 0. */
  lemma LoggedFacts(cf: Config, s0: State, steps: seq<Step>, e: State)
    requires RunsTo(cf, s0, steps, e) && e.pc.Running? && AtWrite(e.pc.acts)
    ensures e.len <= |e.vlog| && (forall i :: 0 <= i < e.len ==> OnBlock(e.vlog[i].addr))
    ensures BlockOf(e.pc.acts[0].addr) > 0
  {
    RunSized(cf, s0, steps, e);
    RunningBlocks(cf, e);
  }

  lemma RunningBlocks(cf: Config, e: State)
    requires Inv(cf, e) && e.pc.Running? && AtWrite(e.pc.acts)
    ensures e.len <= |e.vlog| && (forall i :: 0 <= i < e.len ==> OnBlock(e.vlog[i].addr))
    ensures BlockOf(e.pc.acts[0].addr) > 0
  {
    assert InvRunning(cf, e, e.pc.acts);
    assert Covered(e.regions, e.pc.acts[0].addr);
    BatchSteps.BlockCovered(e.regions, |e.vmem|, e.pc.acts[0].addr);
  }

  /** The lines of all bytes from `lo` up to `hi` are among `lines`. */
  ghost predicate LinesIn(lo: nat, hi: nat, lines: set<nat>) {
    forall a: nat {:trigger LineOf(a)} :: lo <= a < hi ==> LineOf(a) in lines
  }

  lemma OneLine(p: nat)
    ensures p < p - p % 64 + 64
    ensures forall a: nat {:trigger LineOf(a)} :: p <= a < p - p % 64 + 64 ==> LineOf(a) == LineOf(p)
  {
  }

  lemma ClearedNext(log: seq<Entry>, i: nat)
    requires i < |log|
    ensures Cleared(log, 0, i)[i := NullEntry] == Cleared(log, 0, i + 1)
  {
  }

  /** After a crash, the scan of the log is that of the log without stale entries. */
  lemma RestartFacts(cf: Config, s0: State, steps: seq<Step>, e: State, log: seq<Entry>)
    requires RunsTo(cf, s0, steps, e) && e.pc == Down && e.vlog == Scrubbed(log)
    ensures var n := Scan(log);
      && n == Scan(e.vlog) < |log| && SameEntries(log, e.vlog, n)
      && (Accepts(e.vlog) <==> n > 0 && log[n - 1].commit > 0)
      && RecTail(e) == (if n > 0 && log[n - 1].commit > 0 then log[n - 1].commit - 1 else e.vtail)
      && (Manageable(e) <==> (n > 0 && log[n - 1].commit > 0) || TableManages(e.vdisk.table, log, n))
  {
    DownFacts(cf, s0, steps, e);
    ScannedTail(log, e);
    ScannedTable(log, e);
  }

  lemma ScannedTable(log: seq<Entry>, e: State)
    requires e.vlog == e.dlog && e.vdisk == e.ddisk && SameEntries(log, e.vlog, Scan(e.vlog))
    ensures !Accepts(e.dlog) ==> (Manageable(e) <==> TableManages(e.vdisk.table, log, Scan(e.vlog)))
  {
    var n := Scan(e.vlog);
    if !Accepts(e.dlog) && TableManages(e.vdisk.table, log, n) {
      forall i | 0 <= i < n
        ensures Covered(e.ddisk.table, e.dlog[i].addr)
      {
        assert Covered(e.vdisk.table, log[i].addr);
      }
    }
    if Manageable(e) && !Accepts(e.dlog) {
      forall k | 0 <= k < n
        ensures Covered(e.vdisk.table, log[k].addr)
      {
        assert Covered(e.ddisk.table, e.dlog[k].addr);
      }
    }
  }

  lemma ScannedTail(log: seq<Entry>, e: State)
    requires e.vlog == e.dlog == Scrubbed(log) && e.vtail == e.dtail && Scan(e.vlog) < |log|
    ensures var n := Scan(log);
      && n == Scan(e.vlog) < |log| && SameEntries(log, e.vlog, n)
      && (Accepts(e.vlog) <==> n > 0 && log[n - 1].commit > 0)
      && RecTail(e) == if n > 0 && log[n - 1].commit > 0 then log[n - 1].commit - 1 else e.vtail
  {
    ScrubbedScan(log);
  }

  /** Bytes of undo log that the writes of a command may need. */
  function Cost(acts: seq<Action>): nat
    decreases |acts|
  {
    if acts == [] then 0 else (if acts[0].Write? then |acts[0].data| + 64 else 0) + Cost(acts[1..])
  }

  lemma ScanPast(log: seq<Entry>, n: nat)
    requires Scan(log) < |log| && n < |log| && !IsNull(log[n]) && forall i :: 0 <= i < n ==> !IsNull(log[i])
    ensures n + 1 < |log|
  {
    assert IsNull(log[Scan(log)]);
  }

  lemma RunningFacts(cf: Config, s0: State, steps: seq<Step>, e: State)
    requires RunsTo(cf, s0, steps, e) && e.pc.Running? && e.pc.acts != []
    ensures var a := e.pc.acts[0];
      if a.Write? then a.data != [] && a.addr + |a.data| <= |e.vmem| else a.base + a.size <= |e.vmem|
  {
    RunSized(cf, s0, steps, e);
    FirstActFits(cf, e);
  }

  lemma FirstActFits(cf: Config, e: State)
    requires Inv(cf, e) && e.pc.Running? && e.pc.acts != []
    ensures var a := e.pc.acts[0];
      if a.Write? then a.data != [] && a.addr + |a.data| <= |e.vmem| else a.base + a.size <= |e.vmem|
  {
    assert InvRunning(cf, e, e.pc.acts);
    GoodFirst(e.pc.acts, e.regions, |e.vmem|);
  }

  lemma GoodFirst(acts: seq<Action>, t: seq<Region>, n: nat)
    requires GoodActs(acts, t, n) && acts != [] && Mapped(t, n)
    ensures var a := acts[0];
      if a.Write? then a.data != [] && a.addr + |a.data| <= n else a.base + a.size <= n
  {
    if acts[0].Mmap? {
      var r := Region(acts[0].base, acts[0].size);
      assert [r][0] == r;
    } else {
      assert Covered(t, acts[0].addr + |acts[0].data| - 1);
    }
  }

  lemma ReadyFacts(cf: Config, s0: State, steps: seq<Step>, e: State)
    requires RunsTo(cf, s0, steps, e) && e.pc == Ready
    ensures Shows(cf, e.vmem, e.regions, e.cmds, e.tail) && e.ptail == e.vtail == e.base
  {
    RunSized(cf, s0, steps, e);
  }

  lemma UndoingFacts(cf: Config, s0: State, steps: seq<Step>, e: State, i: nat)
    requires RunsTo(cf, s0, steps, e) && e.pc.Undoing? && i < e.len
    ensures e.len < |e.vlog| && Plain(e.vlog[i], |e.vmem|)
  {
    RunSized(cf, s0, steps, e);
    UndoingPlain(cf, e, i);
  }

  lemma UndoingPlain(cf: Config, e: State, i: nat)
    requires Inv(cf, e) && e.pc.Undoing? && i < e.len
    ensures e.len < |e.vlog| && Plain(e.vlog[i], |e.vmem|)
  {
    assert UndoLogReady(cf, e);
  }

  lemma UnlinkingFacts(cf: Config, s0: State, steps: seq<Step>, e: State)
    requires RunsTo(cf, s0, steps, e) && e.pc == Unlinking
    ensures e.base == e.tail
  {
    RunSized(cf, s0, steps, e);
  }

  lemma DownFacts(cf: Config, s0: State, steps: seq<Step>, e: State)
    requires RunsTo(cf, s0, steps, e) && e.pc == Down
    ensures e.vlog == e.dlog && e.vtail == e.dtail && e.vdisk == e.ddisk && Scan(e.vlog) < |e.vlog|
    ensures e.freshBytes == {}
  {
    RunSized(cf, s0, steps, e);
  }

  lemma FlushingFacts(cf: Config, s0: State, steps: seq<Step>, e: State)
    requires RunsTo(cf, s0, steps, e) && e.pc == Flushing
    ensures e.len < |e.vlog| && NewTableReady(e)
  {
    RunSized(cf, s0, steps, e);
    CommitPhase(cf, e, FlushLine(0));
  }

  lemma TablingFacts(cf: Config, s0: State, steps: seq<Step>, e: State)
    requires RunsTo(cf, s0, steps, e) && e.pc.Tabling?
    requires e.pc.row < |e.regions|
    ensures e.vdisk.newTable.Some? && e.pc.row <= |e.vdisk.newTable.value|
  {
    RunSized(cf, s0, steps, e);
  }

  lemma NextEntries(was: seq<Entry>, now: seq<Entry>, mem: seq<Byte>, pn: nat, end: nat, skip: set<nat>)
    requires pn < end && pn + BLOCK <= |mem|
    requires now == was + (if pn in skip then [] else [Entry(mem[pn..pn + BLOCK], pn, 0)])
    ensures now + NewEntries(mem, pn + BLOCK, end, skip) == was + NewEntries(mem, pn, end, skip)
  {
    var one := if pn in skip then [] else [Entry(mem[pn..pn + BLOCK], pn, 0)];
    Regroup(was, one, NewEntries(mem, pn + BLOCK, end, skip));
  }

  lemma NoneLeft(es: seq<Entry>, mem: seq<Byte>, pn: nat, end: nat, skip: set<nat>)
    requires end <= pn
    ensures es + NewEntries(mem, pn, end, skip) == es
  {
  }

  lemma Regroup(a: seq<Entry>, b: seq<Entry>, c: seq<Entry>)
    ensures (a + b) + c == a + (b + c)
  {
  }

  /** Appending an entry forgets no logged block. */
  lemma LoggedLater(log: seq<Entry>, n: nat, log': seq<Entry>, n': nat)
    requires n <= n' <= |log'| && n <= |log| && log[..n] == log'[..n]
    ensures forall b :: LoggedBlock(log, n, b) ==> LoggedBlock(log', n', b)
  {
    forall b | LoggedBlock(log, n, b)
      ensures LoggedBlock(log', n', b)
    {
      var i :| 0 <= i < n && log[i].addr == b;
      assert log[..n][i] == log'[..n][i];
      assert log'[i].addr == b;
    }
  }

  /** What the invariant says about the state at the end of a run. */
  lemma RunSized(cf: Config, s0: State, steps: seq<Step>, e: State)
    requires RunsTo(cf, s0, steps, e)
    ensures Inv(cf, e) && Shape(e)
  {
    assert Unfold(0);
    RunInv(cf, s0, steps);
    AlwaysSafe(cf, e);
  }

  lemma RunShape(cf: Config, s0: State, steps: seq<Step>, e: State)
    requires RunsTo(cf, s0, steps, e)
    ensures Shape(e)
  {
    RunSized(cf, s0, steps, e);
  }

  lemma RecordFits(cf: Config, s0: State, steps: seq<Step>, e: State, pn: nat)
    requires RunsTo(cf, s0, steps, e)
    requires e.pc.Recording? && e.pc.next == pn < |e.vmem| && e.len < |e.vlog|
    ensures pn + BLOCK <= |e.vmem| && |e.vlog[e.len].blk| == BLOCK
  {
    RunSized(cf, s0, steps, e);
    RecordingFacts(cf, e);
    BlockFits(|e.vmem|, pn);
  }

  lemma RecordingFacts(cf: Config, s: State)
    requires Inv(cf, s) && s.pc.Recording?
    ensures OnBlock(s.pc.next)
  {
  }

  lemma BlockFits(n: nat, pn: nat)
    requires n % 64 == 0 && OnBlock(pn) && pn < n
    ensures pn + BLOCK <= n
  {
  }
}
