/** Byte buffers and the big-endian integers a `DataView` reads and writes in them. */
module Buffers {
  type Byte = x: int | 0 <= x < 256
  type Bytes = seq<Byte>

  const WORD := 0x1_0000_0000

  /** `setUint32`: the value modulo 2^32, most significant byte first. */
  function U32(n: nat): (b: Bytes)
    ensures |b| == 4
  {
    [n / 256 / 256 / 256 % 256, n / 256 / 256 % 256, n / 256 % 256, n % 256]
  }

  /** `getUint32`. */
  function FromU32(b: Bytes): (n: nat)
    requires |b| == 4
    ensures n < WORD
  {
    ((b[0] as int * 256 + b[1]) * 256 + b[2]) * 256 + b[3]
  }

  function U64(n: nat): (b: Bytes)
    ensures |b| == 8
  {
    U32(n / WORD) + U32(n % WORD)
  }

  function FromU64(b: Bytes): (n: nat)
    requires |b| == 8
    ensures n < WORD * WORD
  {
    FromU32(b[..4]) * WORD + FromU32(b[4..])
  }

  lemma ReadWritten32(n: nat)
    ensures FromU32(U32(n)) == n % WORD
  {
    var a, b, c := n / 256, n / 256 / 256, n / 256 / 256 / 256;
    assert n == 256 * a + n % 256 && a == 256 * b + a % 256 && b == 256 * c + b % 256;
    assert n == WORD * (c / 256) + FromU32(U32(n));
    Remainder(c / 256, FromU32(U32(n)), WORD);
  }

  lemma WrittenRead32(b: Bytes)
    requires |b| == 4
    ensures U32(FromU32(b)) == b
  {
    var p: int := b[0];
    var q := p * 256 + b[1];
    var r := q * 256 + b[2];
    Remainder(r, b[3], 256);
    Remainder(q, b[2], 256);
    Remainder(p, b[1], 256);
  }

  lemma Remainder(q: nat, r: nat, base: nat)
    requires r < base
    ensures (q * base + r) / base == q && (q * base + r) % base == r
  {
    var n := q * base + r;
    SameQuotient(n / base, n % base, q, r, base);
  }

  lemma SameQuotient(k: int, m: nat, q: int, r: nat, base: nat)
    requires m < base && r < base && k * base + m == q * base + r
    ensures k == q && m == r
  {
    var d := k - q;
    assert d * base == r - m;
    Multiple(d, base);
  }

  /** Only zero among a number's multiples is smaller than it. */
  lemma Multiple(d: int, base: nat)
    ensures d >= 1 ==> d * base >= base
    ensures d <= -1 ==> d * base + base <= 0
  {
    if d >= 1 {
      assert (d - 1) * base >= 0;
    }
    if d <= -1 {
      assert (d + 1) * base <= 0;
    }
  }

  lemma ReadWritten64(n: nat)
    ensures FromU64(U64(n)) == n % (WORD * WORD)
  {
    hide U32, FromU32;
    assert U64(n)[..4] == U32(n / WORD) && U64(n)[4..] == U32(n % WORD);
    ReadWritten32(n / WORD);
    ReadWritten32(n % WORD);
    var hi := n / WORD;
    assert n == (hi / WORD) * (WORD * WORD) + ((hi % WORD) * WORD + n % WORD);
    Remainder(hi / WORD, (hi % WORD) * WORD + n % WORD, WORD * WORD);
  }

  lemma WrittenRead64(b: Bytes)
    requires |b| == 8
    ensures U64(FromU64(b)) == b
  {
    hide U32, FromU32;
    WrittenRead32(b[..4]);
    WrittenRead32(b[4..]);
    var hi, lo := FromU32(b[..4]), FromU32(b[4..]);
    Remainder(hi, lo, WORD);
    assert b == b[..4] + b[4..];
  }

  /** Copy bytes into a buffer at an offset, leaving the rest of it alone. */
  method Blit(out: array<Byte>, offset: nat, bytes: Bytes)
    requires offset + |bytes| <= out.Length
    modifies out
    ensures out[..] == old(out[..offset]) + bytes + old(out[offset + |bytes|..])
  {
    var i := 0;
    while i < |bytes|
      invariant 0 <= i <= |bytes|
      invariant out[offset..offset + i] == bytes[..i]
      invariant out[..offset] == old(out[..offset])
      invariant out[offset + i..] == old(out[offset + i..])
    {
      out[offset + i] := bytes[i];
      assert out[offset..offset + i + 1] == out[offset..offset + i] + [bytes[i]];
      i := i + 1;
    }
    assert out[..] == out[..offset] + out[offset..offset + |bytes|] + out[offset + |bytes|..];
  }
}
