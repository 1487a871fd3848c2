/** Bytes, cache lines and undo blocks of persistent memory. */
module Bytes {

  type Byte = b: int | 0 <= b < 256

  /** CACHE_LINE_SIZE_B: the unit of a flush. */
  const LINE: nat := 64

  /** UNDO_BLK_SIZE_B: the unit of an undo-log entry. */
  const BLOCK: nat := 32

  function LineOf(a: nat): nat { a / 64 }

  /** A multiple of the cache line size. */
  predicate Lined(n: nat) { n % 64 == 0 }

  predicate OnBlock(a: nat) { a % 32 == 0 }

  /** addr & ~(UNDO_BLK_SIZE_B - 1) */
  function BlockOf(a: nat): (b: nat)
    ensures b <= a < b + BLOCK && OnBlock(b)
  {
    a - a % 32
  }

  /** Every byte of a block lies on the block's line: a logged block never straddles a cache line. */
  lemma BlockOnOneLine(b: nat, a: nat)
    requires OnBlock(b) && b <= a < b + BLOCK
    ensures LineOf(a) == LineOf(b)
  {
    var q := b / BLOCK;
    assert b == BLOCK * q;
    if q % 2 == 0 {
      assert b == LINE * (q / 2);
    } else {
      assert b == LINE * (q / 2) + BLOCK;
    }
  }

  /** Two addresses share a line exactly if nothing but their offsets in 64 aligned bytes differ. */
  lemma SameLineIff(a: nat, b: nat)
    ensures LineOf(a) == LineOf(b) <==> a - a % 64 == b - b % 64
  {
    assert a == 64 * (a / 64) + a % 64 && b == 64 * (b / 64) + b % 64;
  }

  /** Two aligned blocks that share a byte are the same block. */
  lemma BlockIsUnique(b: nat, a: nat)
    requires OnBlock(b) && b <= a < b + BLOCK
    ensures BlockOf(a) == b
  {
  }

  /** `d` with the positions in `these` brought up to date with `v`. */
  function Mix<T>(d: seq<T>, v: seq<T>, these: set<nat>): (r: seq<T>)
    requires |d| == |v|
    ensures |r| == |d|
    ensures forall a: nat :: a < |d| ==> r[a] == if a in these then v[a] else d[a]
  {
    seq(|d|, a requires 0 <= a < |d| => if a in these then v[a] else d[a])
  }

  /** The addresses of the flushed lines. */
  function OnLines(n: nat, lines: set<nat>): set<nat> { set a: nat | a < n && LineOf(a) in lines }

  /** `mem` with `data` stored at `addr`. */
  function Store(mem: seq<Byte>, addr: nat, data: seq<Byte>): (r: seq<Byte>)
    requires addr + |data| <= |mem|
    ensures |r| == |mem|
    ensures forall a :: addr <= a < addr + |data| ==> r[a] == data[a - addr]
    ensures forall a :: 0 <= a < |mem| && !(addr <= a < addr + |data|) ==> r[a] == mem[a]
  {
    mem[..addr] + data + mem[addr + |data|..]
  }
}
