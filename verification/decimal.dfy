/** `decimal128_bytes_to_double`: the sixteen bytes of an Arrow Decimal128
    slot, read as a low and a high 64-bit word on a little-endian host,
    composed into one 128-bit integer and scaled by a power of ten. The
    composition is exact integer arithmetic here; the conversions to
    `double` are replaced by exact `real` division. */
module Decimal {

  const TWO_TO_THE_63: int := 0x8000_0000_0000_0000
  const TWO_TO_THE_64: int := 0x1_0000_0000_0000_0000
  const TWO_TO_THE_127: int := 0x8000_0000_0000_0000_0000_0000_0000_0000
  const TWO_TO_THE_128: int := 0x1_0000_0000_0000_0000_0000_0000_0000_0000

  newtype uint8 = x: int | 0 <= x < 0x100

  /** One slot of a Decimal128 array's data buffer: sixteen bytes. */
  type Slot = bs: seq<uint8> | |bs| == 16 witness seq(16, _ => 0 as uint8)

  /** 256 to the power n: one more than the largest n-byte unsigned value. */
  function Pow256(n: nat): (p: nat)
    ensures p >= 1
  {
    if n == 0 then 1 else 0x100 * Pow256(n - 1)
  }

  /** The unsigned value of bytes stored least significant first, which is
      what `memcpy` into an integer produces on a little-endian host. */
  function LittleEndian(bs: seq<uint8>): (v: nat)
    ensures v < Pow256(|bs|)
  {
    if |bs| == 0 then 0 else bs[0] as int + 0x100 * LittleEndian(bs[1..])
  }

  /** The first k bytes are the low digits, the rest the high digits. */
  lemma {:induction false} LittleEndianSplit(bs: seq<uint8>, k: nat)
    requires k <= |bs|
    ensures LittleEndian(bs) == LittleEndian(bs[..k]) + Pow256(k) * LittleEndian(bs[k..])
    decreases k
  {
    if k > 0 {
      var rest := bs[1..];
      LittleEndianSplit(rest, k - 1);
      assert rest[..k - 1] == bs[..k][1..];
      assert rest[k - 1..] == bs[k..];
      ShiftProduct(bs[0] as int, LittleEndian(bs[..k][1..]), Pow256(k - 1), LittleEndian(bs[k..]),
                   LittleEndian(rest), LittleEndian(bs), LittleEndian(bs[..k]), Pow256(k));
    }
  }

  /** Shifting a number with a high part by one byte shifts the high part:
      the arithmetic step of `LittleEndianSplit`. */
  lemma ShiftProduct(x: int, a: int, p: int, b: int, rest: int, whole: int, low: int, shifted: int)
    requires rest == a + p * b && whole == x + 0x100 * rest
    requires low == x + 0x100 * a && shifted == 0x100 * p
    ensures whole == low + shifted * b
  {
    calc {
      whole;
      x + 0x100 * (a + p * b);
      x + 0x100 * a + 0x100 * (p * b);
      { assert 0x100 * (p * b) == (0x100 * p) * b; }
      low + shifted * b;
    }
  }

  /** The n bytes of u, least significant first: the inverse of
      `LittleEndian` on values that fit. */
  function LittleEndianBytes(u: nat, n: nat): (bs: seq<uint8>)
    ensures |bs| == n
  {
    if n == 0 then [] else [(u % 0x100) as uint8] + LittleEndianBytes(u / 0x100, n - 1)
  }

  lemma {:induction false} LittleEndianRoundTrip(u: nat, n: nat)
    requires u < Pow256(n)
    ensures LittleEndian(LittleEndianBytes(u, n)) == u
  {
    if n > 0 {
      LittleEndianRoundTrip(u / 0x100, n - 1);
      assert LittleEndianBytes(u, n)[1..] == LittleEndianBytes(u / 0x100, n - 1);
    }
  }

  lemma Pow256Words()
    ensures Pow256(8) == TWO_TO_THE_64
    ensures Pow256(16) == TWO_TO_THE_128
  {
    assert Pow256(8) == TWO_TO_THE_64 by {
      assert Pow256(4) == 0x1_0000_0000;
    }
    assert Pow256(16) == TWO_TO_THE_128 by {
      assert Pow256(12) == 0x1_0000_0000_0000_0000_0000_0000;
    }
  }

  /** `int64_t` filled by `memcpy` from eight bytes: two's complement. */
  function Int64(bs: seq<uint8>): (v: int)
    requires |bs| == 8
    ensures -TWO_TO_THE_63 <= v < TWO_TO_THE_63
    ensures v < 0 <==> bs[7] >= 0x80
    ensures v % TWO_TO_THE_64 == LittleEndian(bs)
  {
    TopByteSign(bs);
    var u := LittleEndian(bs);
    if u >= TWO_TO_THE_63 then u - TWO_TO_THE_64 else u
  }

  /** An eight-byte word reaches 2^63 exactly when its top byte has its high
      bit set. */
  lemma TopByteSign(bs: seq<uint8>)
    requires |bs| == 8
    ensures LittleEndian(bs) < TWO_TO_THE_64
    ensures LittleEndian(bs) >= TWO_TO_THE_63 <==> bs[7] >= 0x80
  {
    Pow256Words();
    LittleEndianSplit(bs, 7);
    assert bs[7..] == [bs[7]];
    assert LittleEndian([bs[7]]) == bs[7] as int by {
      assert [bs[7]][1..] == [];
    }
    assert Pow256(7) == 0x100_0000_0000_0000 by {
      assert Pow256(4) == 0x1_0000_0000;
    }
  }

  /** The low word as `Decimal128::low_bits()` returns it: `uint64_t`. This
      unsigned reading is the one assumption the composition rests on. */
  function Uint64(bs: seq<uint8>): (v: nat)
    requires |bs| == 8
    ensures v < TWO_TO_THE_64
  {
    Pow256Words();
    LittleEndian(bs)
  }

  /** The integer `high_bits() * 2^64 + low_bits()` of a 16-byte slot, the
      high word signed and the low word unsigned. */
  function Decimal128Value(bs: seq<uint8>): (v: int)
    requires |bs| == 16
    ensures -TWO_TO_THE_127 <= v < TWO_TO_THE_127
    ensures v < 0 <==> Int64(bs[8..]) < 0
  {
    Int64(bs[8..]) * TWO_TO_THE_64 + Uint64(bs[..8])
  }

  /** The signed value of a 128-bit word: the reference reading of a
      Decimal128 as one two's-complement integer. */
  function TwosComplement128(u: nat): int
  {
    if u >= TWO_TO_THE_127 then u - TWO_TO_THE_128 else u
  }

  /** With the low word unsigned, composing the two words gives the
      two's-complement value of the whole 16 bytes, negative values
      included. */
  lemma DecimalIsTwosComplement(bs: seq<uint8>)
    requires |bs| == 16
    ensures Decimal128Value(bs) == TwosComplement128(LittleEndian(bs))
  {
    Pow256Words();
    LittleEndianSplit(bs, 8);
    var lo := LittleEndian(bs[..8]);
    var hi := LittleEndian(bs[8..]);
    assert LittleEndian(bs) == lo + TWO_TO_THE_64 * hi;
    assert Int64(bs[8..]) == if hi >= TWO_TO_THE_63 then hi - TWO_TO_THE_64 else hi;
    if hi >= TWO_TO_THE_63 {
      assert LittleEndian(bs) >= TWO_TO_THE_127;
      assert (hi - TWO_TO_THE_64) * TWO_TO_THE_64 == TWO_TO_THE_64 * hi - TWO_TO_THE_128;
    } else {
      assert hi <= TWO_TO_THE_63 - 1;
      assert TWO_TO_THE_64 * hi <= TWO_TO_THE_127 - TWO_TO_THE_64;
    }
  }

  /** The sixteen bytes Arrow stores for the integer v. */
  function Encode128(v: int): (bs: seq<uint8>)
    requires -TWO_TO_THE_127 <= v < TWO_TO_THE_127
    ensures |bs| == 16
  {
    LittleEndianBytes(if v < 0 then v + TWO_TO_THE_128 else v, 16)
  }

  /** Decoding the stored bytes of any representable integer gives it back,
      negative integers as negative. */
  lemma DecodeEncode(v: int)
    requires -TWO_TO_THE_127 <= v < TWO_TO_THE_127
    ensures Decimal128Value(Encode128(v)) == v
  {
    Pow256Words();
    var u := if v < 0 then v + TWO_TO_THE_128 else v;
    LittleEndianRoundTrip(u, 16);
    DecimalIsTwosComplement(Encode128(v));
  }

  function Pow10(e: nat): (p: nat)
    ensures p >= 1
  {
    if e == 0 then 1 else 10 * Pow10(e - 1)
  }

  /** `std::pow(10.0, scale)` for any integer scale. */
  function ScaleFactor(scale: int): (f: real)
    ensures f > 0.0
  {
    if scale >= 0 then Pow10(scale) as real else 1.0 / (Pow10(-scale) as real)
  }

  /** The declared type of a column: a Decimal128 with its scale, or
      anything else. */
  datatype ColumnType = Decimal128Type(scale: int) | OtherType

  /** The scale a program uses for a column: the declared one for a
      DECIMAL128 column, 2 otherwise. */
  function EffectiveScale(t: ColumnType): int
  {
    match t
    case Decimal128Type(s) => s
    case OtherType => 2
  }

  /** v / f: an integer divided by a positive scale factor. */
  function Scaled(v: int, f: real): real
    requires f > 0.0
  {
    v as real / f
  }

  /** Scaling back up gives the integer, and the quotient keeps its sign. */
  lemma ScaledSpec(v: int, f: real)
    requires f > 0.0
    ensures Scaled(v, f) * f == v as real
    ensures Scaled(v, f) < 0.0 <==> v < 0
  {
  }

  /** `decimal128_bytes_to_double(bytes, scale)` over exact reals: the
      composed integer divided by 10^scale. */
  function Decode(bs: seq<uint8>, scale: int): real
    requires |bs| == 16
  {
    Scaled(Decimal128Value(bs), ScaleFactor(scale))
  }

  /** A decoded value is negative exactly when the slot's high word is. */
  lemma DecodeSign(bs: seq<uint8>, scale: int)
    requires |bs| == 16
    ensures Decode(bs, scale) < 0.0 <==> Int64(bs[8..]) < 0
  {
    ScaledSpec(Decimal128Value(bs), ScaleFactor(scale));
  }

  /** Decode undoes encoding of a scaled integer: the stored bytes of v
      decode to v / 10^scale. */
  lemma DecodeRoundTrip(v: int, scale: int)
    requires -TWO_TO_THE_127 <= v < TWO_TO_THE_127
    ensures Decode(Encode128(v), scale) == Scaled(v, ScaleFactor(scale))
  {
    DecodeEncode(v);
  }
}
