/** The inlined check that skips undo_log_record, and the deduplicated log it leads to. */
module FastPath {
  import opened Bytes
  import opened Probe
  import opened LoggedAddrs

  // ---- The machine's bit operations, bit by bit ----------------------------------------------------

  function Xor(a: nat, b: nat): nat {
    if a == 0 && b == 0 then 0 else (a % 2 + b % 2) % 2 + 2 * Xor(a / 2, b / 2)
  }

  function And(a: nat, b: nat): nat {
    if a == 0 || b == 0 then 0 else (a % 2) * (b % 2) + 2 * And(a / 2, b / 2)
  }

  lemma {:induction false} XorZero(a: nat, b: nat)
    ensures Xor(a, b) == 0 <==> a == b
  {
    if a != 0 || b != 0 {
      XorZero(a / 2, b / 2);
    }
  }

  lemma XorHalves(a: nat, b: nat)
    ensures Xor(a, b) / 2 == Xor(a / 2, b / 2)
  {
  }

  /** Two numbers differ in their low five bits only exactly when they are in the same block. */
  lemma XorBelowBlock(a: nat, b: nat)
    ensures Xor(a, b) < 32 <==> a / 32 == b / 32
  {
    XorHalves(a, b);
    XorHalves(a / 2, b / 2);
    XorHalves(a / 4, b / 4);
    XorHalves(a / 8, b / 8);
    XorHalves(a / 16, b / 16);
    Halves(a);
    Halves(b);
    XorZero(a / 32, b / 32);
    var x := Xor(a, b);
    Halves(x);
    assert x / 32 == Xor(a / 32, b / 32);
  }

  lemma Halves(a: nat)
    ensures a / 2 / 2 == a / 4 && a / 4 / 2 == a / 8 && a / 8 / 2 == a / 16 && a / 16 / 2 == a / 32
  {
  }

  lemma {:induction false} AndMask(a: nat, k: nat)
    ensures And(a, Pow2(k) - 1) == a % Pow2(k)
    decreases k
  {
    if k > 0 {
      AndMask(a / 2, k - 1);
      MaskHalf(Pow2(k - 1));
      ModDouble(a, Pow2(k - 1));
    }
  }

  lemma MaskHalf(p: nat)
    requires p > 0
    ensures (2 * p - 1) / 2 == p - 1 && (2 * p - 1) % 2 == 1
  {
  }

  lemma ModDouble(a: nat, p: nat)
    requires p > 0
    ensures a % (2 * p) == a % 2 + 2 * ((a / 2) % p)
  {
    var b := a / 2;
    var q, r := b / p, b % p;
    assert b == p * q + r;
    assert a == (2 * p) * q + (a % 2 + 2 * r);
    ModUnique(a, 2 * p, q, a % 2 + 2 * r);
  }

  lemma Between(m: nat, x: nat, y: nat)
    ensures x < y ==> m * x + m <= m * y
  {
    if x < y {
      var d := y - x - 1;
      assert m * (x + 1 + d) == m * x + m + m * d;
    }
  }

  lemma ModUnique(a: nat, m: nat, q: nat, r: nat)
    requires m > 0 && r < m && a == m * q + r
    ensures a % m == r
  {
    var q', r' := a / m, a % m;
    assert a == m * q' + r';
    Between(m, q, q');
    Between(m, q', q);
  }

  lemma AndShift(a: nat, b: nat)
    ensures And(a, 2 * b) == 2 * And(a / 2, b)
  {
  }

  /** (address >> 2) & 8 * (LOGGED_ADDR_HASH_SIZE - 1) is 8 times the first slot of the address's block. */
  lemma SlotOffset(dst: nat)
    ensures And(dst / 4, 8 * 16383) == 8 * ((dst / 32) % 16384)
  {
    AndShift(dst / 4, 4 * 16383);
    AndShift(dst / 4 / 2, 2 * 16383);
    AndShift(dst / 4 / 2 / 2, 16383);
    Pow2Is();
    AndMask(dst / 32, 14);
    Halves(dst);
  }

  // ---- The check -----------------------------------------------------------------------------------

  /** The code emitted by undo_insert_fast_path jumps to SKIP. */
  predicate Skips(t: seq<nat>, dst: nat, size: nat)
    requires |t| == SLOTS
  {
    && size <= 32
    && (size > 1 ==> Xor((dst + (size - 1)) % 0x1_0000_0000_0000_0000, dst) <= 31)
    && var offset := And(dst / 4, 8 * 16383);
       offset / 8 < SLOTS && Xor(t[offset / 8], dst) < 32
  }

  /** A table of block addresses. */
  predicate OfBlocks(t: seq<nat>) { |t| == SLOTS && forall i :: 0 <= i < SLOTS ==> OnBlock(t[i]) }

  /**
   * The check skips a write exactly when the write stays within one block and the first slot that
   * a probe for the block looks at holds the block (or, for the null page, is empty).
   */
  lemma SkipsIff(t: seq<nat>, dst: nat, size: nat)
    requires OfBlocks(t) && 0 < size && dst + size <= 0x1_0000_0000_0000_0000
    ensures Skips(t, dst, size) <==>
      dst + size <= BlockOf(dst) + BLOCK && t[Slot(Hash(BlockOf(dst)), 0)] == BlockOf(dst)
  {
    var s := (dst / 32) % 16384;
    SlotOffset(dst);
    NoWrap(dst + (size - 1));
    XorBelowBlock(dst + (size - 1), dst);
    XorBelowBlock(t[s], dst);
    SameBlock(t[s], dst);
    assert Hash(BlockOf(dst)) == dst / 32;
    OneBlock(dst, size);
  }

  lemma NoWrap(x: nat)
    requires x < 0x1_0000_0000_0000_0000
    ensures x % 0x1_0000_0000_0000_0000 == x
  {
  }

  lemma SameBlock(b: nat, a: nat)
    requires OnBlock(b)
    ensures b / 32 == a / 32 <==> b == BlockOf(a)
  {
  }

  lemma OneBlock(dst: nat, size: nat)
    requires 0 < size
    ensures (dst + size - 1) / 32 == dst / 32 <==> dst + size <= BlockOf(dst) + BLOCK
  {
  }
}
