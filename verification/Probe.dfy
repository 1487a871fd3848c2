/** The probe sequence of the table of logged addresses visits every slot. */
module Probe {

  /** LOGGED_ADDR_HASH_SIZE */
  const SLOTS: nat := 16384

  /** The bound of the probe loop. */
  const PROBES: nat := 16384 + 13

  /** perturb before probe `k`: five more bits are shifted out each time. */
  function Perturb(hash: nat, k: nat): nat {
    if k == 0 then hash else Perturb(hash, k - 1) / 32
  }

  /** The slot that probe `k` looks at. */
  function Slot(hash: nat, k: nat): (i: nat)
    ensures i < SLOTS
  {
    if k == 0 then hash % 16384 else (5 * Slot(hash, k - 1) + Perturb(hash, k - 1) + 1) % 16384
  }

  // ---- After twelve shifts the sequence is i -> 5i + 1 --------------------------------------------

  /** A hash is a 64-bit address divided by the block size. */
  lemma PerturbVanishes(hash: nat, k: nat)
    requires hash < 0x800_0000_0000_0000 && 12 <= k
    ensures Perturb(hash, k) == 0
    decreases k
  {
    if k == 12 {
      assert Perturb(hash, 1) < 0x40_0000_0000_0000;
      assert Perturb(hash, 2) < 0x2_0000_0000_0000;
      assert Perturb(hash, 3) < 0x1000_0000_0000;
      assert Perturb(hash, 4) < 0x80_0000_0000;
      assert Perturb(hash, 5) < 0x4_0000_0000;
      assert Perturb(hash, 6) < 0x2000_0000;
      assert Perturb(hash, 7) < 0x100_0000;
      assert Perturb(hash, 8) < 0x8_0000;
      assert Perturb(hash, 9) < 0x4000;
      assert Perturb(hash, 10) < 0x200;
      assert Perturb(hash, 11) < 0x10;
    } else {
      PerturbVanishes(hash, k - 1);
    }
  }

  /** n turns of i -> 5i + 1. */
  function Iterate(x: nat, n: nat): nat {
    if n == 0 then x else (5 * Iterate(x, n - 1) + 1) % 16384
  }

  lemma {:induction false} SlotIterates(hash: nat, n: nat)
    requires hash < 0x800_0000_0000_0000
    ensures Slot(hash, 12 + n) == Iterate(Slot(hash, 12), n)
  {
    if n > 0 {
      SlotIterates(hash, n - 1);
      PerturbVanishes(hash, 12 + n - 1);
    }
  }

  // ---- The period of i -> 5i + 1 is the whole table ------------------------------------------------

  /** 1 + 5 + ... + 5^(n-1) */
  function Geo(n: nat): nat {
    if n == 0 then 0 else 5 * Geo(n - 1) + 1
  }

  function Pow2(k: nat): (p: nat)
    ensures p > 0
  {
    if k == 0 then 1 else 2 * Pow2(k - 1)
  }

  ghost predicate Divides(p: nat, x: nat) { exists q: nat :: x == p * q }

  lemma GeoAddsOne(g: nat, h: nat)
    ensures 5 * (g * (4 * h + 1) + h) + 1 == g * (4 * (5 * h + 1) + 1) + (5 * h + 1)
  {
    assert g * (4 * h + 1) == 4 * (g * h) + g;
    assert g * (20 * h + 5) == 20 * (g * h) + 5 * g;
  }

  lemma GeoDoubles(g: nat)
    ensures g * (4 * g + 1) + g == 2 * (g * (2 * g + 1))
  {
    assert g * (4 * g + 1) == 4 * (g * g) + g;
    assert g * (2 * g + 1) == 2 * (g * g) + g;
  }

  lemma {:induction false} GeoAdds(m: nat, n: nat)
    ensures Geo(m + n) == Geo(m) * (4 * Geo(n) + 1) + Geo(n)
    decreases n
  {
    if n > 0 {
      GeoAdds(m, n - 1);
      GeoAddsOne(Geo(m), Geo(n - 1));
    }
  }

  lemma {:induction false} GeoParity(n: nat)
    ensures Geo(n) % 2 == n % 2
  {
    if n > 0 {
      GeoParity(n - 1);
    }
  }

  /** An odd factor does not help a power of two to divide. */
  lemma {:induction false} OddFactor(k: nat, a: nat, o: nat)
    requires Divides(Pow2(k), a * (2 * o + 1))
    ensures Divides(Pow2(k), a)
  {
    if k == 0 {
      assert a == Pow2(0) * a;
    } else {
      var q: nat :| a * (2 * o + 1) == Pow2(k) * q;
      var b := a / 2;
      HalvePower(Pow2(k - 1), a * (2 * o + 1), q);
      EvenFactor(a, o, Pow2(k - 1) * q);
      assert b * (2 * o + 1) == Pow2(k - 1) * q;
      OddFactor(k - 1, b, o);
      DoublePower(k, b);
    }
  }

  lemma EvenFactor(a: nat, o: nat, h: nat)
    requires a * (2 * o + 1) == 2 * h
    ensures a == 2 * (a / 2) && (a / 2) * (2 * o + 1) == h
  {
    assert a * (2 * o + 1) == 2 * (a * o) + a;
    var b := a / 2;
    assert a == 2 * b;
    assert (2 * b) * (2 * o + 1) == 2 * (b * (2 * o + 1));
  }

  lemma HalvePower(p: nat, x: nat, q: nat)
    requires x == (2 * p) * q
    ensures x == 2 * (p * q)
  {
  }

  lemma DoublePower(k: nat, x: nat)
    requires 0 < k && Divides(Pow2(k - 1), x)
    ensures Divides(Pow2(k), 2 * x)
  {
    var r: nat :| x == Pow2(k - 1) * r;
    assert 2 * x == Pow2(k) * r;
  }

  /** The power of two that divides 1 + 5 + ... + 5^(d-1) also divides d. */
  lemma {:induction false} GeoDivides(k: nat, d: nat)
    requires Divides(Pow2(k), Geo(d))
    ensures Divides(Pow2(k), d)
    decreases k
  {
    if k == 0 {
      assert d == Pow2(0) * d;
    } else {
      var q: nat :| Geo(d) == Pow2(k) * q;
      var m, g := d / 2, Geo(d / 2);
      HalvePower(Pow2(k - 1), Geo(d), q);
      GeoParity(d);
      GeoAdds(m, m);
      GeoDoubles(g);
      assert g * (2 * g + 1) == Pow2(k - 1) * q;
      OddFactor(k - 1, g, g);
      GeoDivides(k - 1, m);
      DoublePower(k, m);
    }
  }

  lemma TurnClosed(x: nat, g: nat)
    ensures x + (5 * g + 1) * (4 * x + 1) == 5 * (x + g * (4 * x + 1)) + 1
  {
    var z := 4 * x + 1;
    assert (5 * g + 1) * z == 5 * (g * z) + z;
  }

  lemma TurnModulo(y: nat)
    ensures (5 * (y % 16384) + 1) % 16384 == (5 * y + 1) % 16384
  {
  }

  /** Without the modulus: n turns take x to x + (1 + 5 + ... + 5^(n-1)) * (4x + 1). */
  lemma {:induction false} IterateClosed(x: nat, n: nat)
    requires x < SLOTS
    ensures Iterate(x, n) == (x + Geo(n) * (4 * x + 1)) % 16384
  {
    if n > 0 {
      IterateClosed(x, n - 1);
      TurnClosed(x, Geo(n - 1));
      TurnModulo(x + Geo(n - 1) * (4 * x + 1));
    }
  }

  lemma {:induction false} IterateSplits(x: nat, m: nat, d: nat)
    ensures Iterate(x, m + d) == Iterate(Iterate(x, m), d)
    decreases d
  {
    if d > 0 {
      IterateSplits(x, m, d - 1);
    }
  }

  lemma IterateSmall(x: nat, n: nat)
    requires x < SLOTS
    ensures Iterate(x, n) < SLOTS
  {
  }

  lemma CycleDivides(x: nat, w: nat)
    requires x < SLOTS && (x + w) % 16384 == x
    ensures Divides(Pow2(14), w)
  {
    Pow2Is();
    assert w == 16384 * (w / 16384);
  }

  lemma {:induction false} CycleLength(x: nat, d: nat)
    requires Divides(Pow2(14), Geo(d) * (4 * x + 1))
    ensures Divides(Pow2(14), d)
  {
    assert 4 * x + 1 == 2 * (2 * x) + 1;
    OddFactor(14, Geo(d), 2 * x);
    GeoDivides(14, d);
  }

  lemma {:induction false} TooShort(d: nat)
    requires 0 < d < SLOTS
    ensures !Divides(Pow2(14), d)
  {
    Pow2Is();
  }

  /** The sequence does not return to where it was in fewer turns than there are slots. */
  lemma {:induction false} NoShortCycle(x: nat, d: nat)
    requires x < SLOTS && 0 < d < SLOTS
    ensures Iterate(x, d) != x
  {
    IterateClosed(x, d);
    TooShort(d);
    var w := Geo(d) * (4 * x + 1);
    if (x + w) % 16384 == x {
      CycleDivides(x, w);
      CycleLength(x, d);
    }
  }

  lemma Pow2Is()
    ensures Pow2(14) == 16384
  {
    assert Pow2(4) == 16;
    assert Pow2(8) == 256;
    assert Pow2(12) == 4096;
  }

  /** The slots visited in the first `n` turns. */
  function Visited(x: nat, n: nat): set<nat> {
    if n == 0 then {} else Visited(x, n - 1) + {Iterate(x, n - 1)}
  }

  lemma {:induction false} VisitedWhen(x: nat, n: nat, y: nat) returns (k: nat)
    requires y in Visited(x, n)
    ensures k < n && Iterate(x, k) == y
  {
    if y == Iterate(x, n - 1) {
      k := n - 1;
    } else {
      k := VisitedWhen(x, n - 1, y);
    }
  }

  lemma {:induction false} VisitedCount(x: nat, n: nat)
    requires x < SLOTS && n <= SLOTS
    ensures |Visited(x, n)| == n
    ensures forall y :: y in Visited(x, n) ==> y < SLOTS
  {
    if n > 0 {
      VisitedCount(x, n - 1);
      IterateSmall(x, n - 1);
      NotVisited(x, n - 1);
    }
  }

  lemma NoRepeat(x: nat, k: nat, n: nat)
    requires x < SLOTS && k < n < SLOTS
    ensures Iterate(x, k) != Iterate(x, n)
  {
    IterateSplits(x, k, n - k);
    IterateSmall(x, k);
    NoShortCycle(Iterate(x, k), n - k);
  }

  lemma NotVisited(x: nat, n: nat)
    requires x < SLOTS && n < SLOTS
    ensures Iterate(x, n) !in Visited(x, n)
  {
    forall y | y in Visited(x, n)
      ensures y != Iterate(x, n)
    {
      var k := VisitedWhen(x, n, y);
      NoRepeat(x, k, n);
    }
  }

  function Below(n: nat): set<nat> {
    if n == 0 then {} else Below(n - 1) + {n - 1}
  }

  lemma {:induction false} BelowIs(n: nat)
    ensures |Below(n)| == n
    ensures forall y: nat :: y in Below(n) <==> y < n
  {
    if n > 0 {
      BelowIs(n - 1);
    }
  }

  lemma FullSet(a: set<nat>, b: set<nat>)
    requires a <= b && |a| == |b|
    ensures a == b
  {
    assert |b - a| == 0;
  }

  /** Every slot is visited within one period, from any start. */
  lemma FullPeriod(x: nat, y: nat) returns (n: nat)
    requires x < SLOTS && y < SLOTS
    ensures n < SLOTS && Iterate(x, n) == y
  {
    VisitedCount(x, SLOTS);
    BelowIs(SLOTS);
    assert Visited(x, SLOTS) <= Below(SLOTS);
    FullSet(Visited(x, SLOTS), Below(SLOTS));
    n := VisitedWhen(x, SLOTS, y);
  }

  /** For every address, the probe loop looks at every slot. */
  lemma ProbesEverySlot(hash: nat, y: nat) returns (k: nat)
    requires hash < 0x800_0000_0000_0000 && y < SLOTS
    ensures k < PROBES && Slot(hash, k) == y
  {
    var n := FullPeriod(Slot(hash, 12), y);
    SlotIterates(hash, n);
    k := 12 + n;
  }
}
