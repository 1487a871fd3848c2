/** The table of logged block addresses: open addressing that must agree with a plain set. */
module LoggedAddrs {
  import opened Probe

  function Hash(addr: nat): nat { addr / 32 }

  /** The addresses stored in the table. */
  function Members(t: seq<nat>): set<nat> { set i | 0 <= i < |t| && t[i] != 0 :: t[i] }

  predicate Full(t: seq<nat>) { forall i :: 0 <= i < |t| ==> t[i] != 0 }

  type SlotIndex = i: nat | i < SLOTS witness 0

  /** Which slot probe `k` of an address looks at. */
  type Prober = (nat, nat) -> SlotIndex

  const HashProbe: Prober := (addr: nat, k: nat) => Slot(Hash(addr), k)

  /** Probe `k` finds `addr`, and no earlier probe finds an empty slot. */
  ghost predicate FoundAt(f: Prober, t: seq<nat>, addr: nat, k: nat)
    requires |t| == SLOTS
  {
    t[f(addr, k)] == addr && forall j: nat :: j < k ==> t[f(addr, j)] != 0
  }

  ghost predicate Found(f: Prober, t: seq<nat>, addr: nat)
    requires |t| == SLOTS
  {
    exists k: nat :: k < PROBES && FoundAt(f, t, addr, k)
  }

  /** Every stored address can be found by its probe sequence. */
  ghost predicate Findable(f: Prober, t: seq<nat>) {
    |t| == SLOTS && forall i :: 0 <= i < SLOTS && t[i] != 0 ==> Found(f, t, t[i])
  }

  /** The first `n` probes of `addr` meet neither an empty slot nor `addr`. */
  ghost predicate Missed(f: Prober, t: seq<nat>, addr: nat, n: nat)
    requires |t| == SLOTS
  {
    forall j: nat :: j < n ==> t[f(addr, j)] != 0 && t[f(addr, j)] != addr
  }

  /** An empty slot on the way proves that the address is nowhere in the table. */
  lemma EmptyMeansAbsent(f: Prober, t: seq<nat>, addr: nat, n: nat)
    requires Findable(f, t) && Missed(f, t, addr, n) && addr != 0 && t[f(addr, n)] == 0
    ensures addr !in Members(t)
  {
    forall k: nat
      ensures !FoundAt(f, t, addr, k)
    {
    }
  }

  /** Missing on every probe means that the table is full and does not contain the address. */
  lemma AllMissed(t: seq<nat>, addr: nat)
    requires |t| == SLOTS && Missed(HashProbe, t, addr, PROBES) && addr < 0x1_0000_0000_0000_0000
    ensures Full(t) && (addr != 0 ==> addr !in Members(t))
  {
    forall i | 0 <= i < SLOTS
      ensures t[i] != 0 && t[i] != addr
    {
      var k := ProbesEverySlot(Hash(addr), i);
      assert HashProbe(addr, k) == i;
    }
  }

  /** Storing a new address at the first empty slot of its sequence. */
  lemma StoreFindable(f: Prober, t: seq<nat>, addr: nat, n: nat)
    requires Findable(f, t) && 0 < addr && n < PROBES && Missed(f, t, addr, n) && t[f(addr, n)] == 0
    ensures var t' := t[f(addr, n) := addr];
      Findable(f, t') && Members(t') == Members(t) + {addr}
  {
    var s := f(addr, n);
    var t' := t[s := addr];
    assert FoundAt(f, t', addr, n);
    forall i | 0 <= i < SLOTS && t'[i] != 0
      ensures Found(f, t', t'[i])
    {
      if i != s {
        assert Found(f, t, t[i]);
        var k: nat :| k < PROBES && FoundAt(f, t, t[i], k);
        assert FoundAt(f, t', t'[i], k);
      }
    }
    StoreMembers(t, s, addr);
  }

  lemma StoreMembers(t: seq<nat>, s: nat, addr: nat)
    requires s < |t| && t[s] == 0 && addr != 0
    ensures Members(t[s := addr]) == Members(t) + {addr}
  {
    var t' := t[s := addr];
    forall a | a in Members(t) + {addr}
      ensures a in Members(t')
    {
      if a == addr {
        assert t'[s] == a;
      } else {
        var i :| 0 <= i < |t| && t[i] != 0 && t[i] == a;
        assert t'[i] == a;
      }
    }
  }

  lemma ModuloTwice(x: nat, m: nat, y: nat)
    requires x == 16384 * m + y
    ensures x % 16384 == y % 16384
  {
  }

  /** The 64-bit wrap-around of the probe index does not change the slot. */
  lemma ProbeWraps(i: nat, p: nat)
    ensures ((5 * i + p + 1) % 0x1_0000_0000_0000_0000) % 16384 == (5 * (i % 16384) + p + 1) % 16384
  {
    var x := 5 * i + p + 1;
    var q := x / 0x1_0000_0000_0000_0000;
    ModuloTwice(x, 0x4_0000_0000_0000 * q, x % 0x1_0000_0000_0000_0000);
    ModuloTwice(x, 5 * (i / 16384), 5 * (i % 16384) + p + 1);
  }

  class Table {
    const slots: array<nat>

    ghost predicate Valid()
      reads this, slots
    {
      slots.Length == SLOTS && Findable(HashProbe, slots[..])
    }

    constructor ()
      ensures Valid() && fresh(slots) && Members(slots[..]) == {} && !Full(slots[..])
    {
      slots := new nat[SLOTS](_ => 0);
      new;
      assert slots[..][0] == 0;
    }

    /** memset of the table in undo_log_clear */
    method Clear()
      requires Valid()
      modifies slots
      ensures Valid() && Members(slots[..]) == {} && !Full(slots[..])
    {
      for i := 0 to slots.Length
        invariant forall k :: 0 <= k < i ==> slots[k] == 0
      {
        slots[i] := 0;
      }
      assert slots[..][0] == 0;
    }

    /**
     * Returns false exactly for the addresses in the table; stores every other address while a
     * slot is free, and leaves a full table alone.
     */
    method Insert(addr: nat) returns (isNew: bool)
      requires Valid() && addr < 0x1_0000_0000_0000_0000
      modifies slots
      ensures Valid()
      ensures isNew <==> addr !in old(Members(slots[..]))
      ensures !isNew || old(Full(slots[..])) || addr == 0 ==> slots[..] == old(slots[..])
      ensures isNew && !old(Full(slots[..])) && addr != 0 ==> Members(slots[..]) == old(Members(slots[..])) + {addr}
    {
      ghost var t := slots[..];
      var i, perturb, count := Hash(addr), Hash(addr), 0;
      while count < PROBES
        invariant 0 <= count <= PROBES && slots[..] == t
        invariant i % 16384 == HashProbe(addr, count) && perturb == Perturb(Hash(addr), count)
        invariant Missed(HashProbe, t, addr, count)
      {
        var curr := slots[i % 16384];
        assert curr == t[HashProbe(addr, count)];
        if curr == 0 {
          if addr != 0 {
            EmptyMeansAbsent(HashProbe, t, addr, count);
            StoreFindable(HashProbe, t, addr, count);
          }
          slots[i % 16384] := addr;
          assert slots[..] == t[HashProbe(addr, count) := addr];
          assert 0 !in Members(t);
          assert !Full(t);
          return true;
        } else if curr == addr {
          assert addr in Members(t);
          return false;
        }
        ProbeWraps(i, perturb);
        i := (5 * i + perturb + 1) % 0x1_0000_0000_0000_0000;
        perturb := perturb / 32;
        count := count + 1;
      }
      AllMissed(t, addr);
      return true;
    }
  }
}
