// Bytes: integers in both byte orders, and streams that are written and read from the front.
module Bytes {
  import opened Prelude

  type Bytes = seq<u8>

  type Key32 = k: Bytes | |k| == 32 witness seq(32, _ => 0)

  // How one account is used by an instruction.
  datatype AccountMeta = AccountMeta(pubkey: Key32, isSigner: bool, isWritable: bool)

  function BoolByte(b: bool): u8 {
    if b then 1 else 0
  }

  function Zeros(n: nat): (z: Bytes)
    ensures |z| == n && forall i :: 0 <= i < n ==> z[i] == 0
  {
    seq(n, _ => 0)
  }

  predicate AllZero(b: Bytes) {
    forall i :: 0 <= i < |b| ==> b[i] == 0
  }

  // ---------- Integers ----------

  // The number of values of that many bytes.
  function Values(width: nat): (n: nat)
    ensures n > 0
  {
    if width == 0 then 1 else 256 * Values(width - 1)
  }

  function LittleEndian(n: nat, width: nat): (b: Bytes)
    ensures |b| == width
    decreases n, width
  {
    if width == 0 then [] else [n % 256] + LittleEndian(n / 256, width - 1)
  }

  function FromLittleEndian(b: Bytes): (n: nat)
    ensures n < Values(|b|)
  {
    if |b| == 0 then 0 else b[0] + 256 * FromLittleEndian(b[1..])
  }

  function BigEndian(n: nat, width: nat): (b: Bytes)
    ensures |b| == width
    decreases n, width
  {
    if width == 0 then [] else BigEndian(n / 256, width - 1) + [n % 256]
  }

  function FromBigEndian(b: Bytes): (n: nat)
    ensures n < Values(|b|)
  {
    if |b| == 0 then 0 else 256 * FromBigEndian(b[..|b| - 1]) + b[|b| - 1]
  }

  lemma {:induction false} LittleEndianRoundTrip(n: nat, width: nat)
    requires n < Values(width)
    ensures FromLittleEndian(LittleEndian(n, width)) == n
  {
    if width == 0 {
    } else {
      LittleEndianRoundTrip(n / 256, width - 1);
      assert LittleEndian(n, width)[1..] == LittleEndian(n / 256, width - 1);
    }
  }

  lemma {:induction false} LittleEndianIsCanonical(b: Bytes)
    ensures LittleEndian(FromLittleEndian(b), |b|) == b
  {
    if |b| == 0 {
    } else {
      LittleEndianIsCanonical(b[1..]);
      assert FromLittleEndian(b) % 256 == b[0] && FromLittleEndian(b) / 256 == FromLittleEndian(b[1..]);
      assert b == [b[0]] + b[1..];
    }
  }

  lemma {:induction false} BigEndianRoundTrip(n: nat, width: nat)
    requires n < Values(width)
    ensures FromBigEndian(BigEndian(n, width)) == n
  {
    if width == 0 {
    } else {
      BigEndianRoundTrip(n / 256, width - 1);
      assert BigEndian(n, width)[..width - 1] == BigEndian(n / 256, width - 1);
    }
  }

  // Widths used by the formats.
  lemma ValuesOfWidths()
    ensures Values(4) == U32_MAX + 1
    ensures Values(8) == U64_MAX + 1
    ensures U64_MAX < Values(32)
  {
    assert Values(2) == 0x1_0000;
    assert Values(4) == 0x1_0000_0000;
    assert Values(6) == 0x1_0000_0000_0000;
    assert Values(8) == 0x1_0000_0000_0000_0000;
    MoreBytesMoreValues(8, 32);
  }

  lemma {:induction false} MoreBytesMoreValues(narrow: nat, wide: nat)
    requires narrow <= wide
    ensures Values(narrow) <= Values(wide)
  {
    if narrow == wide {
    } else {
      MoreBytesMoreValues(narrow, wide - 1);
    }
  }

  // ---------- Integers byte by byte ----------

  // The byte at a position, as a number.
  function At(b: Bytes, i: nat): nat
    requires i < |b|
  {
    b[i]
  }

  // Four bytes from position i on, the lowest first.
  predicate Le32At(b: Bytes, i: nat, n: nat) {
    i + 4 <= |b| && n == At(b, i) + 0x100 * At(b, i + 1) + 0x1_0000 * At(b, i + 2) + 0x100_0000 * At(b, i + 3)
  }

  lemma LittleEndianStep(b: Bytes)
    requires |b| > 0
    ensures FromLittleEndian(b) == b[0] + 0x100 * FromLittleEndian(b[1..])
  {}

  /** Little endian means lowest byte first. */
  lemma LittleEndianByBytes(b: Bytes, i: nat)
    requires i + 4 <= |b|
    ensures Le32At(b, i, FromLittleEndian(b[i..i + 4]))
  {
    LittleEndianStep(b[i..i + 4]);
    LittleEndianStep(b[i + 1..i + 4]);
    LittleEndianStep(b[i + 2..i + 4]);
    LittleEndianStep(b[i + 3..i + 4]);
    assert b[i..i + 4][1..] == b[i + 1..i + 4] && b[i + 1..i + 4][1..] == b[i + 2..i + 4];
    assert b[i + 2..i + 4][1..] == b[i + 3..i + 4] && b[i + 3..i + 4][1..] == [];
  }

  // The eight bytes from position i on, the highest first.
  function Be64(b: Bytes, i: nat): nat
    requires i + 8 <= |b|
  {
    0x100_0000_0000_0000 * At(b, i) + 0x1_0000_0000_0000 * At(b, i + 1) + 0x100_0000_0000 * At(b, i + 2)
    + 0x1_0000_0000 * At(b, i + 3) + 0x100_0000 * At(b, i + 4) + 0x1_0000 * At(b, i + 5) + 0x100 * At(b, i + 6)
    + At(b, i + 7)
  }

  // 32 bytes from position i on: zeros, and the number in the last eight of them.
  predicate WordAt(b: Bytes, i: nat, n: nat) {
    i + 32 <= |b| && AllZero(b[i..i + 24]) && n == Be64(b, i + 24)
  }

  lemma BigEndianStep(b: Bytes, n: nat)
    requires n < |b|
    ensures FromBigEndian(b[..n + 1]) == 0x100 * FromBigEndian(b[..n]) + b[n]
  {
    assert b[..n + 1][..n] == b[..n];
  }

  lemma {:induction false} BigEndianZeros(b: Bytes)
    ensures FromBigEndian(b) == 0 <==> AllZero(b)
  {
    if |b| == 0 {
    } else {
      BigEndianZeros(b[..|b| - 1]);
      assert AllZero(b) <==> AllZero(b[..|b| - 1]) && b[|b| - 1] == 0;
    }
  }

  lemma EightLowBytes(w: Key32)
    ensures FromBigEndian(w) == 0x1_0000_0000_0000_0000 * FromBigEndian(w[..24]) + Be64(w, 24)
  {
    BigEndianStep(w, 24);
    BigEndianStep(w, 25);
    BigEndianStep(w, 26);
    BigEndianStep(w, 27);
    BigEndianStep(w, 28);
    BigEndianStep(w, 29);
    BigEndianStep(w, 30);
    BigEndianStep(w, 31);
    assert w[..32] == w;
  }

  /** A word holds a number below 2^64 when its low bytes do, highest first, and the others are zero. */
  lemma BigEndianByBytes(b: Bytes, i: nat, n: u64)
    requires i + 32 <= |b|
    ensures FromBigEndian(b[i..i + 32]) == n <==> WordAt(b, i, n)
  {
    var w: Key32 := b[i..i + 32];
    EightLowBytes(w);
    BigEndianZeros(w[..24]);
    assert w[..24] == b[i..i + 24];
  }

  lemma LowestDigit(high: nat, low: u8)
    ensures (256 * high + low) % 256 == low && (256 * high + low) / 256 == high
  {}

  lemma {:induction false} BigEndianIsCanonical(b: Bytes)
    ensures BigEndian(FromBigEndian(b), |b|) == b
  {
    if |b| == 0 {
    } else {
      BigEndianIsCanonical(b[..|b| - 1]);
      LowestDigit(FromBigEndian(b[..|b| - 1]), b[|b| - 1]);
      assert b == b[..|b| - 1] + [b[|b| - 1]];
    }
  }

  /** The bytes of a length are the only four that hold it. */
  lemma Length32ByBytes(b: Bytes, i: nat, n: nat)
    requires i + 4 <= |b|
    ensures Le32At(b, i, n) <==> n <= U32_MAX && b[i..i + 4] == Length32(n)
  {
    ValuesOfWidths();
    LittleEndianByBytes(b, i);
    LittleEndianIsCanonical(b[i..i + 4]);
    if n <= U32_MAX {
      LittleEndianRoundTrip(n, 4);
    }
  }

  /** The bytes of a word are the only 32 that hold its number. */
  lemma WordByBytes(b: Bytes, i: nat, n: nat)
    requires i + 32 <= |b|
    ensures WordAt(b, i, n) <==> n <= U64_MAX && b[i..i + 32] == BigEndian(n, 32)
  {
    ValuesOfWidths();
    if n <= U64_MAX {
      BigEndianByBytes(b, i, n);
      BigEndianIsCanonical(b[i..i + 32]);
      BigEndianRoundTrip(n, 32);
    }
  }

  // Borsh stores lengths in four bytes.
  function Length32(n: nat): (b: Bytes)
    ensures |b| == 4
  {
    LittleEndian(n, 4)
  }

  lemma Length32RoundTrip(n: nat, rest: Bytes)
    requires n <= U32_MAX
    ensures FromLittleEndian((Length32(n) + rest)[..4]) == n && (Length32(n) + rest)[4..] == rest
  {
    ValuesOfWidths();
    LittleEndianRoundTrip(n, 4);
    assert (Length32(n) + rest)[..4] == Length32(n);
  }

  lemma Length32IsCanonical(b: Bytes)
    requires |b| >= 4
    ensures FromLittleEndian(b[..4]) <= U32_MAX && Length32(FromLittleEndian(b[..4])) + b[4..] == b
  {
    ValuesOfWidths();
    LittleEndianIsCanonical(b[..4]);
    assert b[..4] + b[4..] == b;
  }

  // ---------- Parts ----------

  lemma InTwo(b: Bytes, x: Bytes, rest: Bytes)
    requires |b| == |x| + |rest|
    ensures b == x + rest <==> b[..|x|] == x && b[|x|..] == rest
  {
    assert b == b[..|x|] + b[|x|..];
  }

  lemma TwoParts(b: Bytes, i: nat, x: Bytes, rest: Bytes)
    requires i + |x| + |rest| == |b|
    ensures b[i..] == x + rest <==> b[i..i + |x|] == x && b[i + |x|..] == rest
  {
    assert b[i..] == b[i..i + |x|] + b[i + |x|..];
  }

  // ---------- Streams ----------

  class Writer {
    var written: Bytes

    constructor (start: Bytes)
      ensures written == start
    {
      written := start;
    }

    method WriteAll(b: Bytes)
      modifies this
      ensures written == old(written) + b
    {
      written := written + b;
    }
  }

  class Reader {
    var rest: Bytes

    constructor (b: Bytes)
      ensures rest == b
    {
      rest := b;
    }

    method ReadExact(n: nat) returns (b: Option<Bytes>)
      modifies this
      ensures if |old(rest)| < n then b == None && rest == old(rest)
              else b == Some(old(rest)[..n]) && rest == old(rest)[n..]
    {
      if |rest| < n {
        return None;
      }
      b := Some(rest[..n]);
      rest := rest[n..];
    }
  }
}
