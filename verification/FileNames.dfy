/** The names of region files: mem_ADDR_FILEID in hexadecimal. */
module FileNames {

  /** FILE_NAME_BUF_LEN */
  const NAME_LEN: nat := 4 + 16 + 1 + 8 + 1

  function Digit(d: nat): (c: char)
    requires d < 16
    ensures if d < 10 then c as int == '0' as int + d else c as int == 'a' as int + d - 10
  {
    "0123456789abcdef"[d]
  }

  /** The hexadecimal digits of a number, most significant first. */
  function Hex(n: nat): (s: string)
    ensures |s| > 0 && '_' !in s
  {
    if n < 16 then [Digit(n)] else Hex(n / 16) + [Digit(n % 16)]
  }

  function Value(c: char): nat {
    if '0' <= c <= '9' then (c - '0') as nat else if 'a' <= c <= 'f' then (c - 'a') as nat + 10 else 0
  }

  function Unhex(s: string): nat {
    if s == [] then 0 else 16 * Unhex(s[..|s| - 1]) + Value(s[|s| - 1])
  }

  lemma {:induction false} UnhexHex(n: nat)
    ensures Unhex(Hex(n)) == n
  {
    var s := Hex(n);
    if n < 16 {
      assert s[..0] == [];
      assert Unhex([]) == 0;
    } else {
      UnhexHex(n / 16);
      assert s[..|s| - 1] == Hex(n / 16);
    }
  }

  function Pow16(k: nat): nat {
    if k == 0 then 1 else 16 * Pow16(k - 1)
  }

  lemma {:induction false} HexFits(n: nat, k: nat)
    requires n < Pow16(k) && 0 < k
    ensures |Hex(n)| <= k
    decreases k
  {
    if n >= 16 {
      HexFits(n / 16, k - 1);
    }
  }

  function Name(base: nat, fileId: nat): (s: string)
    ensures |s| > 4 && s[..4] == "mem_"
  {
    "mem_" + Hex(base) + "_" + Hex(fileId)
  }

  /** The position of the first '_' at or after `i`. */
  function Separator(s: string, i: nat): (j: nat)
    requires i <= |s|
    ensures i <= j <= |s|
    decreases |s| - i
  {
    if i == |s| || s[i] == '_' then i else Separator(s, i + 1)
  }

  /** Reads the two numbers back from a name. */
  function Decode(s: string): (nat, nat) {
    if |s| < 4 then (0, 0)
    else
      var j := Separator(s, 4);
      (Unhex(s[4..j]), if j < |s| then Unhex(s[j + 1..]) else 0)
  }

  lemma {:induction false} SeparatorIs(s: string, i: nat, j: nat)
    requires i <= j < |s| && s[j] == '_' && forall k :: i <= k < j ==> s[k] != '_'
    ensures Separator(s, i) == j
    decreases j - i
  {
    if i < j {
      SeparatorIs(s, i + 1, j);
    }
  }

  /** Names decode to the pair they were made from, for all numbers: names are injective. */
  lemma NameDecodes(base: nat, fileId: nat)
    ensures Decode(Name(base, fileId)) == (base, fileId)
  {
    var s, b, f := Name(base, fileId), Hex(base), Hex(fileId);
    var j := 4 + |b|;
    assert s[4..j] == b && s[j] == '_' && s[j + 1..] == f;
    forall k | 4 <= k < j
      ensures s[k] != '_'
    {
      assert s[k] == b[k - 4];
    }
    SeparatorIs(s, 4, j);
    UnhexHex(base);
    UnhexHex(fileId);
  }

  lemma NamesDiffer(b1: nat, f1: nat, b2: nat, f2: nat)
    ensures Name(b1, f1) == Name(b2, f2) <==> b1 == b2 && f1 == f2
  {
    NameDecodes(b1, f1);
    NameDecodes(b2, f2);
  }

  /** Every name of a 64-bit address and a 32-bit id fits in the buffer, with its terminator. */
  lemma NameFits(base: nat, fileId: nat)
    requires base < 0x1_0000_0000_0000_0000 && fileId < 0x1_0000_0000
    ensures |Name(base, fileId)| + 1 <= NAME_LEN
  {
    assert Pow16(4) == 0x1_0000;
    assert Pow16(8) == 0x1_0000_0000;
    assert Pow16(12) == 0x1_0000_0000_0000;
    assert Pow16(16) == 0x1_0000_0000_0000_0000;
    HexFits(base, 16);
    HexFits(fileId, 8);
  }

  /** The first loop of write_hex: how many digits the number has. */
  method HexLength(number: nat) returns (n: nat)
    ensures n == |Hex(number)|
  {
    n := 0;
    var copy := number;
    while copy > 0
      invariant 0 <= copy && (copy > 0 ==> |Hex(number)| == n + |Hex(copy)|)
      invariant copy == 0 ==> n == if number == 0 then 0 else |Hex(number)|
      decreases copy
    {
      copy := copy / 16;
      n := n + 1;
    }
    if n == 0 {
      n := 1;
    }
  }

  /** write_hex: the digits from `p` on, written from the last to the first. */
  method WriteHex(buf: array<char>, p: nat, number: nat) returns (q: nat)
    requires p + |Hex(number)| <= buf.Length
    modifies buf
    ensures q == p + |Hex(number)| && buf[p..q] == Hex(number)
    ensures buf[..p] == old(buf[..p]) && buf[q..] == old(buf[q..])
  {
    var n := HexLength(number);
    WriteDigits(buf, p, n, number, Hex(number));
    q := p + n;
    assert forall k :: 0 <= k < n ==> buf[p..q][k] == Hex(number)[k];
  }

  /** The second loop of write_hex, which writes the digits `s`. */
  method WriteDigits(buf: array<char>, p: nat, n: nat, number: nat, ghost s: string)
    requires p + n <= buf.Length && n == |s| && s == Hex(number)
    modifies buf
    ensures forall k :: 0 <= k < n ==> buf[p + k] == s[k]
    ensures forall k :: 0 <= k < buf.Length && !(p <= k < p + n) ==> buf[k] == old(buf[k])
  {
    var i, left := n, number;
    assert s[..n] == s;
    while i > 0
      invariant 0 <= i <= n && (i > 0 ==> s[..i] == Hex(left))
      invariant forall k :: i <= k < n ==> buf[p + k] == s[k]
      invariant forall k :: 0 <= k < buf.Length && !(p <= k < p + n) ==> buf[k] == old(buf[k])
    {
      HexLast(s, i, left);
      buf[p + i - 1] := Digit(left % 16);
      left := left / 16;
      i := i - 1;
    }
  }

  lemma HexLast(s: string, i: nat, left: nat)
    requires 0 < i <= |s| && s[..i] == Hex(left)
    ensures s[i - 1] == Digit(left % 16) && (i > 1 ==> s[..i - 1] == Hex(left / 16))
  {
    assert s[..i][i - 1] == s[i - 1];
    assert s[..i][..i - 1] == s[..i - 1];
  }

  /** make_file_name: the name and a terminating NUL. */
  method MakeFileName(buf: array<char>, base: nat, fileId: nat)
    requires buf.Length >= NAME_LEN && base < 0x1_0000_0000_0000_0000 && fileId < 0x1_0000_0000
    modifies buf
    ensures |Name(base, fileId)| < buf.Length && buf[..4] == "mem_"
    ensures buf[..|Name(base, fileId)|] == Name(base, fileId) && buf[|Name(base, fileId)|] == '\0'
  {
    NameFits(base, fileId);
    buf[0], buf[1], buf[2], buf[3] := 'm', 'e', 'm', '_';
    assert buf[..4] == "mem_";
    var p := WriteHex(buf, 4, base);
    assert buf[..p] == "mem_" + Hex(base) by {
      assert buf[..p] == buf[..4] + buf[4..p];
    }
    buf[p] := '_';
    assert buf[..p + 1] == "mem_" + Hex(base) + "_" by {
      assert buf[..p] == "mem_" + Hex(base);
    }
    var q := WriteHex(buf, p + 1, fileId);
    assert buf[..q] == buf[..p + 1] + buf[p + 1..q];
    buf[q] := '\0';
    assert buf[..q] == Name(base, fileId);
    assert buf[..4] == buf[..q][..4];
  }
}
