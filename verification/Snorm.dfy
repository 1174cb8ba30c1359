/**
 Packed signed-normalized vertex fields: the shift pair the wrapper emits, and
 the normalization rule for fixed-point data, over exact reals.
 */
module Snorm {
  /** A 32-bit pattern read as a signed integer. */
  function Signed(u: nat): int { if u < 0x8000_0000 then u else u - 0x1_0000_0000 }

  function Pow2(n: nat): nat { if n == 0 then 1 else 2 * Pow2(n - 1) }

  /** The low 32 bits, as a signed integer. */
  function Wrap(i: int): (r: int)
    ensures -0x8000_0000 <= r < 0x8000_0000
  {
    Signed(i % 0x1_0000_0000)
  }

  function ShiftLeft(i: int, n: nat): int { Wrap(i * Pow2(n)) }

  /** An arithmetic shift right rounds toward negative infinity. */
  function ShiftRight(i: int, n: nat): int
    requires Pow2(n) > 0
  {
    i / Pow2(n)
  }

  /** The four fields of a packed attribute: three of ten bits, one of two. */
  predicate Field(offset: nat, width: nat) {
    (offset == 0 && width == 10) || (offset == 10 && width == 10) || (offset == 20 && width == 10)
      || (offset == 30 && width == 2)
  }

  /** Bits `[offset, offset + width)` as an unsigned number, then in two's complement. */
  function Bits(u: nat, offset: nat, width: nat): nat
    requires Field(offset, width)
  {
    if offset == 0 then u % 1024 else if offset == 10 then u / 1024 % 1024
    else if offset == 20 then u / 1048576 % 1024 else u / 1073741824 % 4
  }

  function SignedField(u: nat, offset: nat, width: nat): (r: int)
    requires Field(offset, width)
    ensures if width == 10 then -512 <= r <= 511 else -2 <= r <= 1
  {
    var bits := Bits(u, offset, width);
    if width == 10 then (if bits < 512 then bits else bits - 1024) else if bits < 2 then bits else bits - 4
  }

  lemma Powers()
    ensures Pow2(0) == 1 && Pow2(2) == 4 && Pow2(12) == 4096 && Pow2(22) == 4194304 && Pow2(30) == 1073741824
  {
    assert Pow2(4) == 16;
    assert Pow2(8) == 256;
    assert Pow2(12) == 4096;
    assert Pow2(16) == 65536;
    assert Pow2(20) == 1048576;
    assert Pow2(22) == 4194304;
    assert Pow2(26) == 67108864;
    assert Pow2(30) == 1073741824;
  }

  /** Shifting a field to the top and back down sign-extends it. */
  lemma ShiftsExtract(u: nat, offset: nat, width: nat)
    requires u < 0x1_0000_0000 && Field(offset, width)
    ensures Pow2(32 - width) > 0
    ensures ShiftRight(ShiftLeft(Signed(u), 32 - offset - width), 32 - width) == SignedField(u, offset, width)
  {
    Powers();
    if offset == 0 {
      ExtractLow(u);
    } else if offset == 10 {
      ExtractMiddle(u);
    } else if offset == 20 {
      ExtractHigh(u);
    }
  }

  lemma ExtractLow(u: nat)
    requires u < 0x1_0000_0000
    ensures Wrap(Signed(u) * 4194304) / 4194304 == SignedField(u, 0, 10)
  {
    var q, f := u / 1024, u % 1024;
    assert u * 4194304 == q * 0x1_0000_0000 + f * 4194304;
    Multiple(Signed(u) * 4194304, if u < 0x8000_0000 then q else q - 4194304, f * 4194304);
  }

  lemma ExtractMiddle(u: nat)
    requires u < 0x1_0000_0000
    ensures Wrap(Signed(u) * 4096) / 4194304 == SignedField(u, 10, 10)
  {
    var low, rest := u % 1024, u / 1024;
    var q, f := rest / 1024, rest % 1024;
    assert u * 4096 == q * 0x1_0000_0000 + (f * 4194304 + low * 4096);
    Multiple(Signed(u) * 4096, if u < 0x8000_0000 then q else q - 4096, f * 4194304 + low * 4096);
  }

  lemma ExtractHigh(u: nat)
    requires u < 0x1_0000_0000
    ensures Wrap(Signed(u) * 4) / 4194304 == SignedField(u, 20, 10)
  {
    var low, rest := u % 1048576, u / 1048576;
    var q, f := rest / 1024, rest % 1024;
    assert u * 4 == q * 0x1_0000_0000 + (f * 4194304 + low * 4);
    Multiple(Signed(u) * 4, if u < 0x8000_0000 then q else q - 4, f * 4194304 + low * 4);
  }

  /** Only the remainder survives the wrap. */
  lemma Multiple(i: int, q: int, r: nat)
    requires i == q * 0x1_0000_0000 + r && r < 0x1_0000_0000
    ensures Wrap(i) == Signed(r)
  {
  }

  /** The largest magnitude a field of this width normalizes by. */
  function Divisor(width: nat): (r: int)
    requires width == 10 || width == 2
    ensures r > 0
  {
    if width == 10 then 511 else 1
  }

  function Larger(a: real, b: real): real { if a < b then b else a }

  /** Signed-normalized conversion: the most negative code also means minus one. */
  function Normalized(code: int, width: nat): real
    requires width == 10 || width == 2
  {
    Larger(code as real / Divisor(width) as real, -1.0)
  }

  /** Every field normalizes into [-1, 1]; zero and the extremes are exact; two codes share minus one. */
  lemma NormalizedRange(u: nat, offset: nat, width: nat)
    requires Field(offset, width)
    ensures -1.0 <= Normalized(SignedField(u, offset, width), width) <= 1.0
    ensures Normalized(0, width) == 0.0 && Normalized(Divisor(width), width) == 1.0
    ensures Normalized(-Divisor(width), width) == -1.0 && Normalized(-Divisor(width) - 1, width) == -1.0
  {
    var code, d := SignedField(u, offset, width), Divisor(width);
    assert code <= d;
  }

  /** Distinct codes, the two lowest aside, stay distinct: the conversion loses nothing else. */
  lemma NormalizedInjective(a: int, b: int, width: nat)
    requires (width == 10 || width == 2) && -Divisor(width) <= a < b <= Divisor(width)
    ensures Normalized(a, width) < Normalized(b, width)
  {
  }

  // ------------------------------------------------------------------- packing

  predicate Codes(x: int, y: int, z: int, w: int) {
    -512 <= x <= 511 && -512 <= y <= 511 && -512 <= z <= 511 && -2 <= w <= 1
  }

  /** The word that packs four codes: the first in the lowest ten bits, the last in the highest two. */
  function PackFields(x: int, y: int, z: int, w: int): nat {
    x % 1024 + 1024 * (y % 1024) + 1048576 * (z % 1024) + 1073741824 * (w % 4)
  }

  /** The vector four codes stand for, each clamped at minus one. */
  function Unpacked(x: int, y: int, z: int, w: int): seq<real> {
    [if x <= -511 then -1.0 else x as real / 511.0, if y <= -511 then -1.0 else y as real / 511.0,
     if z <= -511 then -1.0 else z as real / 511.0, if w <= -1 then -1.0 else w as real]
  }

  /** Each code comes back from its own bits. */
  lemma PackedFields(x: int, y: int, z: int, w: int)
    requires Codes(x, y, z, w)
    ensures PackFields(x, y, z, w) < 0x1_0000_0000
    ensures SignedField(PackFields(x, y, z, w), 0, 10) == x && SignedField(PackFields(x, y, z, w), 10, 10) == y
    ensures SignedField(PackFields(x, y, z, w), 20, 10) == z && SignedField(PackFields(x, y, z, w), 30, 2) == w
  {
    var a, b, c, d := x % 1024, y % 1024, z % 1024, w % 4;
    DigitsOf(a, b, c, d);
    TenBits(x);
    TenBits(y);
    TenBits(z);
    assert d == if w < 0 then w + 4 else w;
  }

  /** Four digits stand side by side. */
  lemma DigitsOf(a: nat, b: nat, c: nat, d: nat)
    requires a < 1024 && b < 1024 && c < 1024 && d < 4
    ensures var u := a + 1024 * b + 1048576 * c + 1073741824 * d;
      u < 0x1_0000_0000 && u % 1024 == a && u / 1024 % 1024 == b && u / 1048576 % 1024 == c && u / 1073741824 % 4 == d
  {
    var u := a + 1024 * b + 1048576 * c + 1073741824 * d;
    Above10(u, b + 1024 * c + 1048576 * d, a);
    Above10(b + 1024 * c + 1048576 * d, c + 1024 * d, b);
    Above20(u, c + 1024 * d, a + 1024 * b);
    Above10(c + 1024 * d, d, c);
    Above30(u, d, a + 1024 * b + 1048576 * c);
  }

  lemma Above10(u: nat, q: nat, r: nat)
    requires u == 1024 * q + r && r < 1024
    ensures u / 1024 == q && u % 1024 == r
  {
  }

  lemma Above20(u: nat, q: nat, r: nat)
    requires u == 1048576 * q + r && r < 1048576
    ensures u / 1048576 == q
  {
  }

  lemma Above30(u: nat, q: nat, r: nat)
    requires u == 1073741824 * q + r && r < 1073741824
    ensures u / 1073741824 == q
  {
  }

  lemma TenBits(code: int)
    requires -512 <= code <= 511
    ensures code % 1024 == if code < 0 then code + 1024 else code
  {
  }

  /** Every word packs the codes of its fields. */
  lemma WordPacked(u: nat)
    requires u < 0x1_0000_0000
    ensures Codes(SignedField(u, 0, 10), SignedField(u, 10, 10), SignedField(u, 20, 10), SignedField(u, 30, 2))
    ensures PackFields(SignedField(u, 0, 10), SignedField(u, 10, 10), SignedField(u, 20, 10), SignedField(u, 30, 2))
      == u
  {
    var b := u / 1024;
    var c := b / 1024;
    var d := c / 1024;
    Above20(u, c, u % 1024 + 1024 * (b % 1024));
    Above30(u, d, u % 1024 + 1024 * (b % 1024) + 1048576 * (c % 1024));
    CodeBits(u % 1024);
    CodeBits(b % 1024);
    CodeBits(c % 1024);
    assert d < 4;
    assert (if d < 2 then d else d - 4) % 4 == d;
  }

  lemma CodeBits(bits: nat)
    requires bits < 1024
    ensures var code := if bits < 512 then bits else bits - 1024;
      -512 <= code <= 511 && code % 1024 == bits
  {
  }
}
