/**
 * The whole system: the foreground process that appends to the command log and the background
 * process that executes what it reads from the log's bytes, crashing together at any point.
 */
module WholeSystem {
  import opened Bytes
  import opened Application
  import P = Protocol
  import PI = ProtocolInvariant
  import D = Durability
  import PS = PersistSteps
  import R = Ring
  import RI = RingInvariant

  datatype State = State(u: P.State, r: R.State)

  datatype Step =
    | Background(bg: P.Step)
    | Fetch                    // consume finds an entry and the consume function starts on its bytes
    | Foreground(fg: R.Step)
    | CrashAll

  function Datas(slots: seq<R.Slot>): (cs: seq<Cmd>)
    ensures |cs| == |slots| && forall i :: 0 <= i < |slots| ==> cs[i] == slots[i].data
  {
    seq(|slots|, i requires 0 <= i < |slots| => slots[i].data)
  }

  /** What recovery makes of the log: head and tail as they are in persistent memory. */
  function CrashRing(r: R.State, tail: nat): R.State
    requires r.dhead <= |r.slots|
  {
    r.(vbuf := r.dbuf, bflush := {}, slots := r.slots[..r.dhead], vhead := r.dhead, head := r.dhead,
       tail := tail, ltail := tail, pc := R.Idle)
  }

  function FetchResult(f: RI.Parser, s: State): R.Consumed
    requires |s.r.vbuf| == R.SIZE && s.r.head <= |s.r.slots| && s.u.tail <= |s.r.slots|
  {
    R.Consume(f, s.r.vbuf, R.Off(s.r.slots, s.r.head), R.Off(s.r.slots, s.u.tail))
  }

  /** The command that the consume function sees: bytes of the log. */
  function Fetched(f: RI.Parser, s: State): Cmd
    requires |s.r.vbuf| == R.SIZE && s.r.head <= |s.r.slots| && s.u.tail <= |s.r.slots|
    requires FetchResult(f, s).Entry? && FetchResult(f, s).at + FetchResult(f, s).len <= R.SIZE
  {
    s.r.vbuf[FetchResult(f, s).at..FetchResult(f, s).at + FetchResult(f, s).len]
  }

  ghost predicate Enabled(cf: Config, f: RI.Parser, s: State, st: Step) {
    match st
    case Background(bg) => P.Enabled(cf, s.u, bg) && bg != P.Crash && !bg.Produce? && bg != P.Consume(P.Begin)
    case Fetch =>
      && s.u.pc == P.Ready
      && |s.r.vbuf| == R.SIZE && s.r.head <= |s.r.slots| && s.u.tail <= |s.r.slots|
      && FetchResult(f, s).Entry? && FetchResult(f, s).at + FetchResult(f, s).len <= R.SIZE
      && GoodActs(cf.app(Fetched(f, s), ViewOf(s.u.vmem, s.u.regions)), s.u.regions, |s.u.vmem|)
    case Foreground(fg) => R.CanStep(f, s.r, fg)
    case CrashAll => P.CleanCrash(s.u) && s.r.dhead <= |s.r.slots|
  }

  ghost function After(cf: Config, f: RI.Parser, s: State, st: Step): State
    requires Enabled(cf, f, s, st)
  {
    match st
    case Background(bg) =>
      var u := P.After(cf, s.u, bg);
      State(u, s.r.(tail := u.ptail))
    case Fetch => s.(u := s.u.(pc := P.Running(cf.app(Fetched(f, s), ViewOf(s.u.vmem, s.u.regions)))))
    case Foreground(fg) =>
      var r := R.DoStep(f, s.r, fg);
      State(s.u.(cmds := Datas(if r.dhead <= |r.slots| then r.slots[..r.dhead] else [])), r)
    case CrashAll => State(P.CrashState(s.u), CrashRing(s.r, s.u.dtail))
  }

  ghost predicate IsRun(cf: Config, f: RI.Parser, s: State, steps: seq<Step>)
    decreases |steps|
  {
    steps == [] || (Enabled(cf, f, s, steps[0]) && IsRun(cf, f, After(cf, f, s, steps[0]), steps[1..]))
  }

  ghost function End(cf: Config, f: RI.Parser, s: State, steps: seq<Step>): State
    requires IsRun(cf, f, s, steps)
    decreases |steps|
  {
    if steps == [] then s else End(cf, f, After(cf, f, s, steps[0]), steps[1..])
  }

  ghost predicate Initial(cf: Config, s: State) {
    && P.Initial(cf, s.u)
    && |s.r.vbuf| == R.SIZE && s.r.dbuf == s.r.vbuf && s.r.bflush == {} && s.r.slots == [] && s.r.pc == R.Idle
    && s.r.vhead == s.r.dhead == s.r.head == s.r.tail == s.r.ltail == 0
  }

  // ---- The invariant -----------------------------------------------------------------------------

  predicate InCommand(pc: P.PC) { pc.Running? || pc.Recording? || pc.Stored? || pc.Logged? }

  ghost predicate SysInv(cf: Config, f: RI.Parser, s: State) {
    && PI.Inv(cf, s.u) && RI.RingInv(f, s.r)
    && s.u.cmds == Datas(s.r.slots[..s.r.dhead])
    && s.r.tail == s.u.ptail
    && s.u.tail <= s.r.head && (InCommand(s.u.pc) ==> s.u.tail < s.r.head)
  }

  // ---- Background steps ------------------------------------------------------------------------

  /** Background steps move the tails forward only, and past commands only by executing them. */
  ghost predicate TailsAdvance(u: P.State, u': P.State, ended: bool) {
    && u'.cmds == u.cmds
    && u'.tail == (if ended then u.tail + 1 else u.tail)
    && (InCommand(u'.pc) ==> InCommand(u.pc)) && (ended ==> InCommand(u.pc) && !InCommand(u'.pc))
    && (u'.ptail == u.ptail || u'.ptail == u.tail)
  }

  lemma ConsumeTails(cf: Config, u: P.State, st: P.ConsumeStep)
    requires P.Sized(u) && P.CanConsume(cf, u, st) && st != P.Begin
    ensures TailsAdvance(u, P.DoConsume(cf, u, st), st == P.EndCommand)
  {
  }

  lemma CommitTails(u: P.State, st: P.CommitStep)
    requires P.Sized(u) && P.CanCommit(u, st)
    ensures TailsAdvance(u, P.DoCommit(u, st), false)
  {
  }

  lemma FinishTails(u: P.State, st: P.FinishStep)
    requires P.Sized(u) && P.CanFinish(u, st)
    ensures TailsAdvance(u, P.DoFinish(u, st), false)
  {
  }

  lemma RecoverTails(cf: Config, u: P.State, st: P.RecoverStep)
    requires PI.Inv(cf, u) && P.Sized(u) && P.CanRecover(u, st)
    ensures TailsAdvance(u, P.DoRecover(u, st), false)
  {
    D.RecoverPhase(cf, u, st);
  }

  lemma EnvTails(u: P.State, st: P.EnvStep)
    requires P.Sized(u) && P.CanEnv(u, st)
    ensures TailsAdvance(u, P.DoEnv(u, st), false)
  {
  }

  lemma BackgroundTails(cf: Config, u: P.State, bg: P.Step)
    requires PI.Inv(cf, u) && P.Enabled(cf, u, bg) && bg != P.Crash && !bg.Produce? && bg != P.Consume(P.Begin)
    ensures TailsAdvance(u, P.After(cf, u, bg), bg == P.Consume(P.EndCommand))
  {
    match bg
    case Env(e) => EnvTails(u, e);
    case Consume(c) => ConsumeTails(cf, u, c);
    case Commit(c) => CommitTails(u, c);
    case Finish(c) => FinishTails(u, c);
    case Recover(r) => RecoverTails(cf, u, r);
  }

  lemma TailsOrdered(cf: Config, u: P.State)
    requires PI.Inv(cf, u)
    ensures u.ptail <= u.dtail <= |u.cmds| && u.ptail <= u.tail <= |u.cmds|
  {
    D.AlwaysSafe(cf, u);
  }

  lemma KeepsBackground(cf: Config, f: RI.Parser, s: State, bg: P.Step)
    requires SysInv(cf, f, s) && Enabled(cf, f, s, Background(bg))
    ensures SysInv(cf, f, After(cf, f, s, Background(bg)))
  {
    D.Keeps(cf, s.u, bg);
    BackgroundTails(cf, s.u, bg);
    TailsOrdered(cf, s.u);
  }

  /** Consume finds nothing if everything published is consumed, and the next command otherwise. */
  ghost predicate FetchesNext(f: RI.Parser, s: State) {
    && |s.r.vbuf| == R.SIZE && s.u.tail <= s.r.head <= |s.u.cmds| <= |s.r.slots|
    && (FetchResult(f, s) == R.NoEntry <==> s.u.tail == s.r.head)
    && (s.u.tail < s.r.head ==>
          && FetchResult(f, s).Entry? && FetchResult(f, s).at + FetchResult(f, s).len <= R.SIZE
          && Fetched(f, s) == s.u.cmds[s.u.tail] && FetchResult(f, s).tail == R.Off(s.r.slots, s.u.tail + 1))
  }

  lemma FetchIsNext(cf: Config, f: RI.Parser, s: State)
    requires SysInv(cf, f, s)
    ensures FetchesNext(f, s)
  {
    var r, t := s.r, s.u.tail;
    if t < r.head {
      TailsOrdered(cf, s.u);
      assert RI.Intact(r.vbuf, r.slots, t);
      RI.PosGrows(f, r.slots, r.ltail, t);
      RI.PosGrows(f, r.slots, r.head, |r.slots|);
      RI.ConsumeFinds(f, r.vbuf, r.slots, t, r.head);
    }
  }

  lemma KeepsFetch(cf: Config, f: RI.Parser, s: State)
    requires SysInv(cf, f, s) && Enabled(cf, f, s, Fetch)
    ensures SysInv(cf, f, After(cf, f, s, Fetch))
  {
    FetchIsNext(cf, f, s);
    FetchBegins(cf, f, s);
    D.StepConsume(cf, s.u, P.Begin);
  }

  /** Fetching an entry is beginning the next command of the background. */
  lemma FetchBegins(cf: Config, f: RI.Parser, s: State)
    requires FetchesNext(f, s) && P.Sized(s.u) && Enabled(cf, f, s, Fetch)
    ensures s.u.tail < s.r.head && P.CanConsume(cf, s.u, P.Begin)
    ensures After(cf, f, s, Fetch).u == P.DoConsume(cf, s.u, P.Begin)
  {
  }

  // ---- Foreground steps --------------------------------------------------------------------------

  lemma {:induction false} KeepsCommands(cf: Config, u: P.State, more: seq<Cmd>)
    requires PI.Inv(cf, u)
    ensures PI.Inv(cf, u.(cmds := u.cmds + more))
    decreases |more|
  {
    if more == [] {
      assert u.cmds + more == u.cmds;
    } else {
      KeepsCommands(cf, u, more[..|more| - 1]);
      KeepsOneMore(cf, u, more);
    }
  }

  lemma KeepsOneMore(cf: Config, u: P.State, more: seq<Cmd>)
    requires more != [] && PI.Inv(cf, u.(cmds := u.cmds + more[..|more| - 1]))
    ensures PI.Inv(cf, u.(cmds := u.cmds + more))
  {
    var n := |more| - 1;
    var u' := u.(cmds := u.cmds + more[..n]);
    assert u'.cmds + [more[n]] == u.cmds + more;
    assert u'.(cmds := u'.cmds + [more[n]]) == u.(cmds := u.cmds + more);
    PS.KeepsProduce(cf, u', more[n]);
  }

  lemma ForegroundGrows(f: RI.Parser, r: R.State, fg: R.Step)
    requires RI.RingInv(f, r) && R.CanStep(f, r, fg)
    ensures var r' := R.DoStep(f, r, fg);
      r.dhead <= r'.dhead <= |r'.slots| && r.slots <= r'.slots && r'.tail == r.tail && r.head <= r'.head
  {
    RI.KeepsRing(f, r, fg);
  }

  lemma DatasPrefix(slots: seq<R.Slot>, slots': seq<R.Slot>, n: nat, n': nat)
    requires slots <= slots' && n <= |slots| && n <= n' <= |slots'|
    ensures Datas(slots[..n]) <= Datas(slots'[..n'])
  {
    assert forall i :: 0 <= i < n ==> slots'[i] == slots[i];
  }

  lemma CommandsGrow(cf: Config, u: P.State, slots: seq<R.Slot>, slots': seq<R.Slot>, n: nat, n': nat)
    requires PI.Inv(cf, u) && slots <= slots' && n <= |slots| && n <= n' <= |slots'| && u.cmds == Datas(slots[..n])
    ensures PI.Inv(cf, u.(cmds := Datas(slots'[..n']))) && u.cmds <= Datas(slots'[..n'])
  {
    DatasPrefix(slots, slots', n, n');
    var cs := Datas(slots'[..n']);
    assert u.cmds + cs[n..] == cs;
    KeepsCommands(cf, u, cs[n..]);
  }

  lemma KeepsForeground(cf: Config, f: RI.Parser, s: State, fg: R.Step)
    requires SysInv(cf, f, s) && Enabled(cf, f, s, Foreground(fg))
    ensures SysInv(cf, f, After(cf, f, s, Foreground(fg)))
    ensures s.u.cmds <= After(cf, f, s, Foreground(fg)).u.cmds
  {
    var r' := R.DoStep(f, s.r, fg);
    RI.KeepsRing(f, s.r, fg);
    ForegroundGrows(f, s.r, fg);
    CommandsGrow(cf, s.u, s.r.slots, r'.slots, s.r.dhead, r'.dhead);
    assert After(cf, f, s, Foreground(fg)) == State(s.u.(cmds := Datas(r'.slots[..r'.dhead])), r');
  }

  // ---- Crashes -----------------------------------------------------------------------------------

  lemma CrashRingInv(f: RI.Parser, r: R.State, tail: nat)
    requires RI.RingInv(f, r) && r.tail <= tail <= r.dhead
    ensures RI.RingInv(f, CrashRing(r, tail))
  {
    var r' := CrashRing(r, tail);
    forall k | 0 <= k < r.dhead
      ensures RI.Placed(f, r'.slots, k)
    {
      assert RI.Placed(f, r.slots, k);
    }
    RI.SameIntact(r.dbuf, r.slots, r'.slots, r.ltail, r.dhead);
    RI.PosGrows(f, r.slots, r.ltail, tail);
    RI.PosGrows(f, r.slots, r.dhead, |r.slots|);
  }

  lemma KeepsCrashAll(cf: Config, f: RI.Parser, s: State)
    requires SysInv(cf, f, s) && Enabled(cf, f, s, CrashAll)
    ensures SysInv(cf, f, After(cf, f, s, CrashAll))
    ensures s.u.cmds == After(cf, f, s, CrashAll).u.cmds
  {
    TailsOrdered(cf, s.u);
    D.AlwaysSafe(cf, s.u);
    D.KeepsCrash(cf, s.u);
    CrashRingInv(f, s.r, s.u.dtail);
    assert s.r.slots[..s.r.dhead][..s.r.dhead] == s.r.slots[..s.r.dhead];
  }

  lemma KeepsAll(cf: Config, f: RI.Parser, s: State, st: Step)
    requires SysInv(cf, f, s) && Enabled(cf, f, s, st)
    ensures SysInv(cf, f, After(cf, f, s, st))
    ensures s.u.cmds <= After(cf, f, s, st).u.cmds
  {
    match st
    case Background(bg) =>
      KeepsBackground(cf, f, s, bg);
      BackgroundTails(cf, s.u, bg);
    case Fetch => KeepsFetch(cf, f, s);
    case Foreground(fg) => KeepsForeground(cf, f, s, fg);
    case CrashAll => KeepsCrashAll(cf, f, s);
  }

  lemma InitialInv(cf: Config, f: RI.Parser, s: State)
    requires Initial(cf, s)
    ensures SysInv(cf, f, s)
  {
    D.InitialInv(cf, s.u);
  }

  lemma {:induction false} RunInv(cf: Config, f: RI.Parser, s: State, steps: seq<Step>)
    requires SysInv(cf, f, s) && IsRun(cf, f, s, steps)
    ensures SysInv(cf, f, End(cf, f, s, steps))
    ensures s.u.cmds <= End(cf, f, s, steps).u.cmds
    decreases |steps|
  {
    if steps != [] {
      KeepsAll(cf, f, s, steps[0]);
      RunInv(cf, f, After(cf, f, s, steps[0]), steps[1..]);
    }
  }

  // ---- Theorems ----------------------------------------------------------------------------------

  /** psm_init's replay loop over `buf`, from offset `tail` to offset `head`, executes exactly `cs`. */
  ghost predicate Replays(f: RI.Parser, buf: seq<Byte>, head: nat, tail: nat, cs: seq<Cmd>)
    requires |buf| == R.SIZE && tail < R.SIZE
    decreases |cs|
  {
    var c := R.Consume(f, buf, head, tail);
    if cs == [] then c == R.NoEntry
    else
      && c.Entry? && c.at + c.len <= R.SIZE && c.tail < R.SIZE
      && buf[c.at..c.at + c.len] == cs[0] && Replays(f, buf, head, c.tail, cs[1..])
  }

  lemma ReplaysNext(f: RI.Parser, buf: seq<Byte>, head: nat, tail: nat, at: nat, c: Cmd, next: nat, cs: seq<Cmd>)
    requires |buf| == R.SIZE && tail < R.SIZE && next < R.SIZE
    requires R.Consume(f, buf, head, tail) == R.Entry(at, |c|, next)
    requires at + |c| <= R.SIZE && buf[at..at + |c|] == c && Replays(f, buf, head, next, cs)
    ensures Replays(f, buf, head, tail, [c] + cs)
  {
    assert ([c] + cs)[1..] == cs;
  }

  lemma LogConsume(f: RI.Parser, buf: seq<Byte>, slots: seq<R.Slot>, lo: nat, t: nat, head: nat)
    requires RI.Layout(f, slots) && lo <= t < head <= |slots| && |buf| == R.SIZE
    requires RI.AllIntact(buf, slots, lo, head) && R.Pos(slots, head) < R.Pos(slots, lo) + R.SIZE
    ensures var at, c := R.Phys(slots[t].start), slots[t].data;
      && R.Consume(f, buf, R.Off(slots, head), R.Off(slots, t)) == R.Entry(at, |c|, R.Off(slots, t + 1))
      && at + |c| <= R.SIZE && buf[at..at + |c|] == c
  {
    assert RI.Intact(buf, slots, t);
    RI.PosGrows(f, slots, lo, t);
    RI.ConsumeFinds(f, buf, slots, t, head);
  }

  lemma DatasSplit(slots: seq<R.Slot>, t: nat, head: nat)
    requires t < head <= |slots|
    ensures Datas(slots[t..head]) == [slots[t].data] + Datas(slots[t + 1..head])
  {
  }

  lemma DatasCut(slots: seq<R.Slot>, t: nat, head: nat)
    requires t <= head <= |slots|
    ensures Datas(slots[..head])[..t] == Datas(slots[..t]) && Datas(slots[..head])[t..] == Datas(slots[t..head])
  {
  }

  lemma LogReplaysOne(f: RI.Parser, buf: seq<Byte>, slots: seq<R.Slot>, lo: nat, t: nat, head: nat)
    requires RI.Layout(f, slots) && lo <= t < head <= |slots| && |buf| == R.SIZE
    requires RI.AllIntact(buf, slots, lo, head) && R.Pos(slots, head) < R.Pos(slots, lo) + R.SIZE
    requires Replays(f, buf, R.Off(slots, head), R.Off(slots, t + 1), Datas(slots[t + 1..head]))
    ensures Replays(f, buf, R.Off(slots, head), R.Off(slots, t), Datas(slots[t..head]))
  {
    LogConsume(f, buf, slots, lo, t, head);
    ReplaysNext(f, buf, R.Off(slots, head), R.Off(slots, t), R.Phys(slots[t].start), slots[t].data,
                R.Off(slots, t + 1), Datas(slots[t + 1..head]));
    DatasSplit(slots, t, head);
  }

  lemma {:induction false} LogReplays(f: RI.Parser, buf: seq<Byte>, slots: seq<R.Slot>, lo: nat, t: nat, head: nat)
    requires RI.Layout(f, slots) && lo <= t <= head <= |slots| && |buf| == R.SIZE
    requires RI.AllIntact(buf, slots, lo, head) && R.Pos(slots, head) < R.Pos(slots, lo) + R.SIZE
    ensures Replays(f, buf, R.Off(slots, head), R.Off(slots, t), Datas(slots[t..head]))
    decreases head - t
  {
    if t < head {
      LogReplays(f, buf, slots, lo, t + 1, head);
      LogReplaysOne(f, buf, slots, lo, t, head);
    } else {
      RI.ConsumeStops(f, buf, slots, head);
    }
  }

  /**
   * End to end: at every point of every run, the bytes that a crash leaves in persistent memory
   * suffice. Recovery turns memory into the effect of the first RecTail commands, the replay loop
   * reads exactly the remaining durably committed commands out of the log, and together they give
   * the effect of every durably committed command, in order, each executed once.
   */
  lemma EndToEnd(cf: Config, f: RI.Parser, s0: State, steps: seq<Step>)
    requires Initial(cf, s0) && IsRun(cf, f, s0, steps)
    requires !P.TailLost(End(cf, f, s0, steps).u)
    ensures var s := End(cf, f, s0, steps);
      var t := P.RecTail(s.u);
      && |s.r.dbuf| == R.SIZE && t <= s.r.dhead <= |s.r.slots| && P.CanRollBack(s.u)
      && P.RecView(s.u) == Fold(cf, Datas(s.r.slots[..t]))
      && Replays(f, s.r.dbuf, R.Off(s.r.slots, s.r.dhead), R.Off(s.r.slots, t), Datas(s.r.slots[t..s.r.dhead]))
      && Replay(cf, P.RecView(s.u), Datas(s.r.slots[t..s.r.dhead])) == Fold(cf, Datas(s.r.slots[..s.r.dhead]))
  {
    InitialInv(cf, f, s0);
    RunInv(cf, f, s0, steps);
    var s := End(cf, f, s0, steps);
    var t := P.RecTail(s.u);
    D.AlwaysSafe(cf, s.u);
    D.RecoveredView(cf, s.u);
    ReplayFrom(cf, s.u.cmds, t);
    DatasCut(s.r.slots, t, s.r.dhead);
    RI.PosGrows(f, s.r.slots, s.r.dhead, |s.r.slots|);
    LogReplays(f, s.r.dbuf, s.r.slots, s.r.ltail, t, s.r.dhead);
  }

  /** FIFO: whatever consume returns during a run is the next committed command, and it never aborts. */
  lemma Fifo(cf: Config, f: RI.Parser, s0: State, steps: seq<Step>)
    requires Initial(cf, s0) && IsRun(cf, f, s0, steps)
    ensures FetchesNext(f, End(cf, f, s0, steps))
  {
    InitialInv(cf, f, s0);
    RunInv(cf, f, s0, steps);
    FetchIsNext(cf, f, End(cf, f, s0, steps));
  }

  /** A command that psm_commit has made durable is never lost, however the run goes on. */
  lemma {:induction false} NothingLost(cf: Config, f: RI.Parser, s0: State, steps: seq<Step>, more: seq<Step>)
    requires Initial(cf, s0) && IsRun(cf, f, s0, steps) && IsRun(cf, f, End(cf, f, s0, steps), more)
    ensures var s, s' := End(cf, f, s0, steps), End(cf, f, End(cf, f, s0, steps), more);
      && s.r.head <= s.r.dhead <= |s.r.slots| && s'.r.dhead <= |s'.r.slots|
      && Datas(s.r.slots[..s.r.dhead]) <= Datas(s'.r.slots[..s'.r.dhead])
  {
    InitialInv(cf, f, s0);
    RunInv(cf, f, s0, steps);
    RunInv(cf, f, End(cf, f, s0, steps), more);
  }
}
