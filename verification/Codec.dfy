/** Byte formats of the block store: little-endian integers, sealed-block plaintext
    and the directory record that stores the named roots. */
module Codec {
  import opened Options

  newtype Byte = b: int | 0 <= b < 256
  type Bytes = seq<Byte>

  const U32_LIMIT: nat := 0x1_0000_0000
  const U64_LIMIT: nat := 0x1_0000_0000_0000_0000

  // ---- Little-endian integers -------------------------------------------------

  function Pow256(k: nat): (p: nat)
    ensures p > 0
  {
    if k == 0 then 1 else 256 * Pow256(k - 1)
  }

  /** The k low bytes of v, least significant first. */
  function LittleEndian(v: nat, k: nat): (s: Bytes)
    ensures |s| == k
  {
    if k == 0 then [] else [(v % 256) as Byte] + LittleEndian(v / 256, k - 1)
  }

  function FromLittleEndian(s: Bytes): (v: nat)
    ensures v < Pow256(|s|)
  {
    if s == [] then 0 else s[0] as nat + 256 * FromLittleEndian(s[1..])
  }

  /** Writing k bytes keeps a value modulo 256^k: wide values are truncated, not rejected. */
  lemma {:induction false} LittleEndianReads(v: nat, k: nat)
    ensures FromLittleEndian(LittleEndian(v, k)) == v % Pow256(k)
  {
    if k != 0 {
      LittleEndianReads(v / 256, k - 1);
      var s := LittleEndian(v, k);
      assert s[1..] == LittleEndian(v / 256, k - 1);
      ModularSplit(v, Pow256(k - 1));
    }
  }

  /** Byte i is digit i of the value to base 256: the lowest digit comes first. */
  lemma {:induction false} LittleEndianDigit(v: nat, k: nat, i: nat)
    requires i < k
    ensures LittleEndian(v, k)[i] as nat == v / Pow256(i) % 256
  {
    if i > 0 {
      LittleEndianDigit(v / 256, k - 1, i - 1);
      NestedQuotient(v, Pow256(i - 1));
    }
  }

  lemma NestedQuotient(v: nat, p: nat)
    requires p > 0
    ensures v / 256 / p == v / (256 * p)
  {
    var q := v / 256;
    var d, m, r := q / p, q % p, v % 256;
    assert v == 256 * (d * p + m) + r == (256 * p) * d + (256 * m + r);
    assert 0 <= 256 * m + r < 256 * p;
    Quotient(v, 256 * p, d, 256 * m + r);
  }

  lemma Quotient(v: nat, n: nat, q: nat, r: nat)
    requires n > 0 && v == q * n + r && r < n
    ensures v / n == q
  {
    if v / n < q {
      TimesMonotone(n, v / n + 1, q);
    } else if v / n > q {
      TimesMonotone(n, q + 1, v / n);
    }
  }

  lemma ModularSplit(v: nat, p: nat)
    requires p > 0
    ensures v % (256 * p) == v % 256 + 256 * (v / 256 % p)
  {
    var q, r := v / 256, v % 256;
    var d, m := q / p, q % p;
    assert v == 256 * (d * p + m) + r == (256 * p) * d + (256 * m + r);
    assert m <= p - 1;
    assert 0 <= 256 * m + r < 256 * p;
    Remainder(v, 256 * p, d, 256 * m + r);
  }

  lemma Remainder(v: nat, n: nat, d: nat, r: nat)
    requires n > 0 && v == n * d + r && r < n
    ensures v % n == r
  {
    if v / n < d {
      TimesMonotone(n, v / n + 1, d);
    } else if v / n > d {
      TimesMonotone(n, d + 1, v / n);
    }
  }

  lemma TimesMonotone(n: nat, a: nat, b: nat)
    requires a <= b
    ensures n * a <= n * b
  {
  }

  lemma LowByte(b: nat, rest: nat)
    requires b < 256
    ensures (b + 256 * rest) % 256 == b && (b + 256 * rest) / 256 == rest
  {
  }

  lemma {:induction false} LittleEndianWrites(s: Bytes)
    ensures LittleEndian(FromLittleEndian(s), |s|) == s
  {
    if s != [] {
      LittleEndianWrites(s[1..]);
      LowByte(s[0] as nat, FromLittleEndian(s[1..]));
      assert s == [s[0]] + s[1..];
    }
  }

  lemma Widths()
    ensures Pow256(1) == 256 && Pow256(4) == U32_LIMIT && Pow256(8) == U64_LIMIT
  {
    assert Pow256(2) == 0x1_0000;
    assert Pow256(3) == 0x100_0000;
    assert Pow256(5) == 0x100_0000_0000;
    assert Pow256(6) == 0x1_0000_0000_0000;
    assert Pow256(7) == 0x100_0000_0000_0000;
  }

  lemma NarrowReads(v: nat, k: nat)
    requires v < Pow256(k)
    ensures FromLittleEndian(LittleEndian(v, k)) == v
  {
    LittleEndianReads(v, k);
    Remainder(v, Pow256(k), 0, v);
  }

  /** w32 and w64: byte i holds v >> 8 * i. */
  method PutLittleEndian(v: nat, k: nat) returns (p: Bytes)
    ensures p == LittleEndian(v, k)
  {
    p := [];
    var rest := v;
    for i := 0 to k
      invariant |p| == i
      invariant p + LittleEndian(rest, k - i) == LittleEndian(v, k)
    {
      assert LittleEndian(rest, k - i) == [(rest % 256) as Byte] + LittleEndian(rest / 256, k - i - 1);
      p := p + [(rest % 256) as Byte];
      rest := rest / 256;
    }
  }

  lemma Distribute(w: nat, x: nat, y: nat)
    ensures w * (x + 256 * y) == w * x + (256 * w) * y
  {
  }

  /** r32 and r64: the bytes or-ed together at shifts 0, 8, 16, ... */
  method GetLittleEndian(p: Bytes) returns (v: nat)
    ensures v == FromLittleEndian(p)
  {
    v := 0;
    var weight := 1;
    for i := 0 to |p|
      invariant weight == Pow256(i)
      invariant v + weight * FromLittleEndian(p[i..]) == FromLittleEndian(p)
    {
      assert p[i..][1..] == p[i + 1..];
      Distribute(weight, p[i] as nat, FromLittleEndian(p[i + 1..]));
      v := v + weight * p[i] as nat;
      weight := 256 * weight;
    }
    assert p[|p|..] == [];
  }

  // ---- Block plaintext ----------------------------------------------------------

  const FREE := 0
  const HEAD := 1
  const CONTINUATION := 2

  const BLOCK_HEADER: nat := 17

  datatype Block = Block(kind: nat, tag: nat, next: nat, data: Bytes)

  /** The blocks that one plaintext of capacity cap can carry. */
  predicate Storable(b: Block, cap: nat) {
    b.kind <= CONTINUATION && b.tag < U32_LIMIT && b.next < U64_LIMIT && |b.data| <= cap
  }

  function Zeros(n: nat): (s: Bytes)
    ensures |s| == n
  {
    seq(n, _ => 0)
  }

  function EncodeBlock(b: Block, cap: nat): (p: Bytes)
    requires |b.data| <= cap
    ensures |p| == BLOCK_HEADER + cap
  {
    [(b.kind % 256) as Byte] + LittleEndian(b.tag, 4) + LittleEndian(b.next, 8)
    + LittleEndian(|b.data|, 4) + b.data + Zeros(cap - |b.data|)
  }

  function DecodeBlock(p: Bytes, cap: nat): (r: Option<Block>)
    requires |p| == BLOCK_HEADER + cap
  {
    var used := FromLittleEndian(p[13..17]);
    if p[0] as nat > CONTINUATION || used > cap then None
    else Some(Block(p[0] as nat, FromLittleEndian(p[1..5]), FromLittleEndian(p[5..13]), p[17..17 + used]))
  }

  lemma EncodedFields(b: Block, cap: nat)
    requires |b.data| <= cap
    ensures var p := EncodeBlock(b, cap);
            && p[0] as nat == b.kind % 256
            && p[1..5] == LittleEndian(b.tag, 4)
            && p[5..13] == LittleEndian(b.next, 8)
            && p[13..17] == LittleEndian(|b.data|, 4)
            && p[17..17 + |b.data|] == b.data
  {
  }

  /** A block survives sealing and opening exactly when every field fits its width. */
  lemma BlockRoundTrip(b: Block, cap: nat)
    requires |b.data| <= cap < U32_LIMIT
    ensures DecodeBlock(EncodeBlock(b, cap), cap) == Some(b) <==> Storable(b, cap)
  {
    EncodedFields(b, cap);
    Widths();
    LittleEndianReads(b.tag, 4);
    LittleEndianReads(b.next, 8);
    NarrowReads(|b.data|, 4);
    if Storable(b, cap) {
      Remainder(b.tag, U32_LIMIT, 0, b.tag);
      Remainder(b.next, U64_LIMIT, 0, b.next);
    }
  }

  lemma SameFields(p: Bytes, q: Bytes, n: nat)
    requires BLOCK_HEADER <= n <= |p| && n <= |q|
    requires p[0] == q[0] && p[1..5] == q[1..5] && p[5..13] == q[5..13]
    requires p[13..17] == q[13..17] && p[17..n] == q[17..n]
    ensures p[..n] == q[..n]
  {
    assert p[..n] == [p[0]] + p[1..5] + p[5..13] + p[13..17] + p[17..n];
    assert q[..n] == [q[0]] + q[1..5] + q[5..13] + q[13..17] + q[17..n];
  }

  lemma DecodedFields(p: Bytes, cap: nat)
    requires |p| == BLOCK_HEADER + cap
    requires DecodeBlock(p, cap).Some?
    ensures var b := DecodeBlock(p, cap).value;
            && Storable(b, cap)
            && p[0] as nat == b.kind
            && p[1..5] == LittleEndian(b.tag, 4)
            && p[5..13] == LittleEndian(b.next, 8)
            && p[13..17] == LittleEndian(|b.data|, 4)
            && p[17..17 + |b.data|] == b.data
  {
    Widths();
    LittleEndianWrites(p[1..5]);
    LittleEndianWrites(p[5..13]);
    LittleEndianWrites(p[13..17]);
  }

  /** Whatever decodes is storable, and encodes back to the same header and data bytes. */
  lemma DecodedBlockEncodes(p: Bytes, cap: nat)
    requires |p| == BLOCK_HEADER + cap
    requires DecodeBlock(p, cap).Some?
    ensures var b := DecodeBlock(p, cap).value;
            && Storable(b, cap)
            && var n := BLOCK_HEADER + |b.data|;
            EncodeBlock(b, cap)[..n] == p[..n]
  {
    var b := DecodeBlock(p, cap).value;
    DecodedFields(p, cap);
    EncodedFields(b, cap);
    SameFields(EncodeBlock(b, cap), p, BLOCK_HEADER + |b.data|);
  }
}
