/**
 * The application that Persimmon makes persistent: a deterministic state machine whose commands
 * act on the managed memory by writes and by mapping fresh memory.
 */
module Application {
  import opened Bytes

  /** A command is the content of one entry of the command log. */
  type Cmd = seq<Byte>

  /** What the application can see: the managed addresses and their bytes. */
  type View = map<nat, Byte>

  datatype Region = Region(base: nat, size: nat)

  datatype Action =
    | Write(addr: nat, data: seq<Byte>)
    | Mmap(base: nat, size: nat)

  /** `app(c, v)` is what executing `c` does when it starts from `v`; `init` is the checkpointed memory. */
  datatype Config = Config(app: (Cmd, View) -> seq<Action>, init: View)

  predicate Within(r: Region, a: nat) { r.base <= a < r.base + r.size }

  predicate Covered(t: seq<Region>, a: nat) { exists i :: 0 <= i < |t| && Within(t[i], a) }

  function ViewOf(mem: seq<Byte>, t: seq<Region>): View {
    map a: nat | a < |mem| && Covered(t, a) :: mem[a]
  }

  function Span(base: nat, size: nat): set<nat> {
    set a: nat | a < base + size && Within(Region(base, size), a)
  }

  /** The effect of one action on what the application sees. */
  function Act(v: View, act: Action): View {
    match act
    case Write(addr, data) => map a | a in v :: if addr <= a < addr + |data| then data[a - addr] else v[a]
    case Mmap(base, size) => v + (map a | a in Span(base, size) :: 0)
  }

  function ActAll(v: View, acts: seq<Action>): View
    decreases |acts|
  {
    if acts == [] then v else ActAll(Act(v, acts[0]), acts[1..])
  }

  function Execute(cf: Config, v: View, c: Cmd): View { ActAll(v, cf.app(c, v)) }

  /** The commands of `cs`, each executed once and in order, starting from `v`. */
  function Replay(cf: Config, v: View, cs: seq<Cmd>): View
    decreases |cs|
  {
    if cs == [] then v else Execute(cf, Replay(cf, v, cs[..|cs| - 1]), cs[|cs| - 1])
  }

  /** The reference semantics of a history of commands. */
  function Fold(cf: Config, cs: seq<Cmd>): View { Replay(cf, cf.init, cs) }

  lemma {:induction false} ReplaySplits(cf: Config, v: View, cs: seq<Cmd>, ds: seq<Cmd>)
    ensures Replay(cf, v, cs + ds) == Replay(cf, Replay(cf, v, cs), ds)
    decreases |ds|
  {
    if ds == [] {
      assert cs + ds == cs;
    } else {
      var n := |ds| - 1;
      assert (cs + ds)[..|cs + ds| - 1] == cs + ds[..n];
      ReplaySplits(cf, v, cs, ds[..n]);
    }
  }

  /** Replaying what follows position `k` on top of what precedes it is the whole history. */
  lemma ReplayFrom(cf: Config, cs: seq<Cmd>, k: nat)
    requires k <= |cs|
    ensures Replay(cf, Fold(cf, cs[..k]), cs[k..]) == Fold(cf, cs)
  {
    assert cs == cs[..k] + cs[k..];
    ReplaySplits(cf, cf.init, cs[..k], cs[k..]);
  }

  lemma FoldNext(cf: Config, cs: seq<Cmd>, k: nat)
    requires k < |cs|
    ensures Fold(cf, cs[..k + 1]) == Execute(cf, Fold(cf, cs[..k]), cs[k])
  {
    assert cs[..k + 1][..k] == cs[..k];
  }

  /** Every byte of the range is managed, in one region or in several that adjoin. */
  predicate AllCovered(t: seq<Region>, addr: nat, size: nat) {
    forall a: nat {:trigger Covered(t, a)} :: addr <= a < addr + size ==> Covered(t, a)
  }

  /** Regions come from mmap: aligned, not the null page, inside a memory of `n` bytes. */
  predicate Mapped(t: seq<Region>, n: nat) {
    forall i :: 0 <= i < |t| ==> t[i].base > 0 && OnBlock(t[i].base) && t[i].base + t[i].size <= n
  }

  predicate FreshRegion(t: seq<Region>, r: Region, n: nat) {
    Mapped([r], n) && forall a: nat :: r.base <= a < r.base + r.size ==> !Covered(t, a)
  }

  /** Each write goes to managed memory and each mmap returns unused memory. */
  predicate GoodActs(acts: seq<Action>, t: seq<Region>, n: nat)
    decreases |acts|
  {
    acts == [] ||
    match acts[0]
    case Write(addr, data) => data != [] && AllCovered(t, addr, |data|) && GoodActs(acts[1..], t, n)
    case Mmap(base, size) =>
      FreshRegion(t, Region(base, size), n) && GoodActs(acts[1..], t + [Region(base, size)], n)
  }

  lemma CoveredAppend(t: seq<Region>, r: Region, a: nat)
    ensures Covered(t + [r], a) <==> Covered(t, a) || Within(r, a)
  {
    if Covered(t, a) {
      var i :| 0 <= i < |t| && Within(t[i], a);
      assert (t + [r])[i] == t[i];
    }
    if Within(r, a) {
      assert (t + [r])[|t|] == r;
    }
  }

  /** A store into managed memory is the action's effect on the view. */
  lemma WriteView(mem: seq<Byte>, t: seq<Region>, addr: nat, data: seq<Byte>)
    requires addr + |data| <= |mem|
    ensures ViewOf(Store(mem, addr, data), t) == Act(ViewOf(mem, t), Write(addr, data))
  {
  }

  function Zeros(n: nat): seq<Byte> { seq(n, i => 0) }

  lemma MmapView(mem: seq<Byte>, t: seq<Region>, base: nat, size: nat)
    requires base + size <= |mem|
    ensures ViewOf(Store(mem, base, Zeros(size)), t + [Region(base, size)]) == Act(ViewOf(mem, t), Mmap(base, size))
  {
    var r := Region(base, size);
    forall a: nat
      ensures Covered(t + [r], a) <==> Covered(t, a) || Within(r, a)
    {
      CoveredAppend(t, r, a);
    }
  }
}
