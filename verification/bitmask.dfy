/** Packed predicate masks: one bit per row, row i at bit i % 8 of byte
    i / 8, written by OR-ing into a zeroed `uint8_t` buffer of (n + 7) / 8
    bytes and read back with `mask[i / 8] & (1 << (i % 8))`. The two
    writers are `check_late_delivery_rvv` (Q4) and
    `check_shipping_conditions_rvv` (Q12). */
module Bitmask {
  import opened Common
  import opened Strip

  /** `(n + 7) / 8`: bytes needed for n rows. */
  function MaskBytes(n: nat): nat
  {
    (n + 7) / 8
  }

  /** The zeroed buffer `std::vector<uint8_t>((n + 7) / 8, 0)`. */
  function ZeroMask(n: nat): (m: seq<bv8>)
    ensures |m| == MaskBytes(n)
  {
    seq(MaskBytes(n), _ => 0)
  }

  /** `1 << k` as a byte. */
  function BitOf(k: nat): bv8
    requires k < 8
  {
    (1 as bv8) << k
  }

  /** Row i's flag: `mask[i / 8] & (1 << (i % 8))` is non-zero. */
  predicate Bit(mask: seq<bv8>, i: nat)
    requires i / 8 < |mask|
  {
    mask[i / 8] & BitOf(i % 8) != 0
  }

  /** `results[i / 8] |= (1 << (i % 8))`. */
  function SetBit(mask: seq<bv8>, i: nat): (r: seq<bv8>)
    requires i / 8 < |mask|
    ensures |r| == |mask|
  {
    mask[i / 8 := mask[i / 8] | BitOf(i % 8)]
  }

  lemma ByteBits(x: bv8, a: nat, b: nat)
    requires a < 8 && b < 8
    ensures (x | BitOf(a)) & BitOf(b) != 0 <==> (x & BitOf(b) != 0 || a == b)
  {
  }

  lemma ByteOr(x: bv8, a: nat)
    requires a < 8
    ensures x | (x | BitOf(a)) == x | BitOf(a)
  {
  }

  /** Setting bit i sets bit i and changes no other bit. */
  lemma SetBitEffect(mask: seq<bv8>, i: nat, j: nat)
    requires i / 8 < |mask| && j / 8 < |mask|
    ensures Bit(SetBit(mask, i), j) == (Bit(mask, j) || i == j)
  {
    if i / 8 == j / 8 {
      ByteBits(mask[i / 8], i % 8, j % 8);
      assert i % 8 == j % 8 <==> i == j;
    }
  }

  /** Eight equal bits make equal bytes. */
  lemma BitsDetermineByte(x: bv8, y: bv8)
    requires forall k :: 0 <= k < 8 ==> (x & BitOf(k) != 0) == (y & BitOf(k) != 0)
    ensures x == y
  {
    assert (x & 1 != 0) == (y & 1 != 0) by { assert BitOf(0) == 1; }
    assert (x & 2 != 0) == (y & 2 != 0) by { assert BitOf(1) == 2; }
    assert (x & 4 != 0) == (y & 4 != 0) by { assert BitOf(2) == 4; }
    assert (x & 8 != 0) == (y & 8 != 0) by { assert BitOf(3) == 8; }
    assert (x & 16 != 0) == (y & 16 != 0) by { assert BitOf(4) == 16; }
    assert (x & 32 != 0) == (y & 32 != 0) by { assert BitOf(5) == 32; }
    assert (x & 64 != 0) == (y & 64 != 0) by { assert BitOf(6) == 64; }
    assert (x & 128 != 0) == (y & 128 != 0) by { assert BitOf(7) == 128; }
  }

  /** Two buffers of one length that agree on every bit are equal. */
  lemma MaskDeterminedByBits(a: seq<bv8>, b: seq<bv8>)
    requires |a| == |b|
    requires forall i: nat :: i / 8 < |a| ==> Bit(a, i) == Bit(b, i)
    ensures a == b
  {
    forall p | 0 <= p < |a| ensures a[p] == b[p] {
      forall k | 0 <= k < 8 ensures (a[p] & BitOf(k) != 0) == (b[p] & BitOf(k) != 0) {
        var i: nat := 8 * p + k;
        assert i / 8 == p && i % 8 == k;
        assert Bit(a, i) == Bit(b, i);
      }
      BitsDetermineByte(a[p], b[p]);
    }
  }

  /** The sequential reference: set bit i for every i < |flags| with
      flags[i], in index order, on top of `mask`. */
  function MarkAll(mask: seq<bv8>, flags: seq<bool>): (r: seq<bv8>)
    requires MaskBytes(|flags|) <= |mask|
    ensures |r| == |mask|
  {
    if |flags| == 0 then mask
    else
      var m := MarkAll(mask, flags[..|flags| - 1]);
      if flags[|flags| - 1] then SetBit(m, |flags| - 1) else m
  }

  /** After marking, a bit is set iff it was set before or its row's flag
      is true: bits are only ever OR-ed in. */
  lemma {:induction false} MarkAllBits(mask: seq<bv8>, flags: seq<bool>, j: nat)
    requires MaskBytes(|flags|) <= |mask| && j / 8 < |mask|
    ensures Bit(MarkAll(mask, flags), j) == (Bit(mask, j) || (j < |flags| && flags[j]))
    decreases |flags|
  {
    if |flags| > 0 {
      var n := |flags| - 1;
      var pre := flags[..n];
      MarkAllBits(mask, pre, j);
      if flags[n] {
        SetBitEffect(MarkAll(mask, pre), n, j);
      }
    }
  }

  /** Bytes at or beyond (|flags| + 7) / 8 are never written. */
  lemma {:induction false} MarkAllUntouched(mask: seq<bv8>, flags: seq<bool>, p: nat)
    requires MaskBytes(|flags|) <= p < |mask|
    ensures MarkAll(mask, flags)[p] == mask[p]
    decreases |flags|
  {
    if |flags| > 0 {
      MarkAllUntouched(mask, flags[..|flags| - 1], p);
    }
  }

  /** Marking one more row sets its bit exactly when its flag holds. */
  lemma MarkStep(mask: seq<bv8>, flags: seq<bool>, idx: nat, out: seq<bv8>, flag: bool)
    requires idx < |flags| && MaskBytes(|flags|) <= |mask|
    requires out == MarkAll(mask, flags[..idx]) && flag == flags[idx]
    ensures MaskBytes(idx + 1) <= |mask| && idx / 8 < |out|
    ensures flag ==> SetBit(out, idx) == MarkAll(mask, flags[..idx + 1])
    ensures !flag ==> out == MarkAll(mask, flags[..idx + 1])
  {
    MaskBytesMonotone(idx + 1, |flags|);
    assert flags[..idx + 1][..idx] == flags[..idx];
  }

  /** More rows never need fewer bytes. */
  lemma MaskBytesMonotone(a: nat, b: nat)
    requires a <= b
    ensures MaskBytes(a) <= MaskBytes(b)
  {
    var x, y := a + 7, b + 7;
    assert x == 8 * (x / 8) + x % 8 && y == 8 * (y / 8) + y % 8;
  }

  /** What a writer that marked every flag leaves behind: each bit is its
      old value OR-ed with its row's flag, and the bytes past the rows are
      untouched. */
  lemma MarkAllSpec(mask: seq<bv8>, flags: seq<bool>)
    requires MaskBytes(|flags|) <= |mask|
    ensures forall i: nat :: i / 8 < |mask| ==>
              (Bit(MarkAll(mask, flags), i) <==> Bit(mask, i) || (i < |flags| && flags[i]))
    ensures forall p :: MaskBytes(|flags|) <= p < |mask| ==> MarkAll(mask, flags)[p] == mask[p]
  {
    forall i: nat | i / 8 < |mask|
      ensures Bit(MarkAll(mask, flags), i) <==> Bit(mask, i) || (i < |flags| && flags[i])
    {
      MarkAllBits(mask, flags, i);
    }
    forall p | MaskBytes(|flags|) <= p < |mask| ensures MarkAll(mask, flags)[p] == mask[p] {
      MarkAllUntouched(mask, flags, p);
    }
  }

  /** Every byte of the result contains the byte it started from. */
  lemma {:induction false} MarkAllOnlySets(mask: seq<bv8>, flags: seq<bool>, p: nat)
    requires MaskBytes(|flags|) <= |mask| && p < |mask|
    ensures mask[p] | MarkAll(mask, flags)[p] == MarkAll(mask, flags)[p]
    decreases |flags|
  {
    if |flags| > 0 {
      var n := |flags| - 1;
      var m := MarkAll(mask, flags[..n]);
      MarkAllOnlySets(mask, flags[..n], p);
      if flags[n] && p == n / 8 {
        ByteOr(m[p], n % 8);
        assert mask[p] | (m[p] | BitOf(n % 8)) == (mask[p] | m[p]) | BitOf(n % 8);
      }
    }
  }

  /** Pack a flag vector into a fresh zeroed buffer. */
  function Pack(flags: seq<bool>): (mask: seq<bv8>)
    ensures |mask| == MaskBytes(|flags|)
  {
    MarkAll(ZeroMask(|flags|), flags)
  }

  /** Read n flags back out of a buffer. */
  function Unpack(mask: seq<bv8>, n: nat): (flags: seq<bool>)
    requires MaskBytes(n) <= |mask|
    ensures |flags| == n
  {
    seq(n, i requires 0 <= i < n => Bit(mask, i))
  }

  lemma ZeroMaskBits(n: nat, j: nat)
    requires j / 8 < MaskBytes(n)
    ensures !Bit(ZeroMask(n), j)
  {
  }

  /** Reading bit i of a packed buffer recovers flag i, and the padding
      bits of the last byte stay clear. */
  lemma PackBits(flags: seq<bool>, j: nat)
    requires j / 8 < MaskBytes(|flags|)
    ensures Bit(Pack(flags), j) == (j < |flags| && flags[j])
  {
    MarkAllBits(ZeroMask(|flags|), flags, j);
    ZeroMaskBits(|flags|, j);
  }

  /** Pack then unpack is the identity on flag vectors. */
  lemma UnpackPack(flags: seq<bool>)
    ensures Unpack(Pack(flags), |flags|) == flags
  {
    forall i | 0 <= i < |flags| ensures Unpack(Pack(flags), |flags|)[i] == flags[i] {
      assert i / 8 < MaskBytes(|flags|);
      PackBits(flags, i);
    }
  }

  /** Unpack then pack is the identity on buffers of the right length whose
      padding bits are clear. */
  lemma PackUnpack(mask: seq<bv8>, n: nat)
    requires |mask| == MaskBytes(n)
    requires forall j: nat :: n <= j && j / 8 < |mask| ==> !Bit(mask, j)
    ensures Pack(Unpack(mask, n)) == mask
  {
    var flags := Unpack(mask, n);
    forall j: nat | j / 8 < |mask| ensures Bit(Pack(flags), j) == Bit(mask, j) {
      PackBits(flags, j);
    }
    MaskDeterminedByBits(Pack(flags), mask);
  }

  /** The flag vector of Q4's late-delivery test over the first n rows. */
  function LateFlags(commit: seq<int>, receipt: seq<int>, n: nat): (flags: seq<bool>)
    requires n <= |commit| && n <= |receipt|
    ensures |flags| == n
  {
    seq(n, i requires 0 <= i < n => commit[i] < receipt[i])
  }

  /** `check_late_delivery_rvv(commitdates, receiptdates, results, length)`:
      strip-mined over lengths granted by `vsetvl`, setting the bit of every
      row whose commit date is before its receipt date. */
  method CheckLateDelivery(commit: seq<int>, receipt: seq<int>, results: seq<bv8>, length: nat, vsetvl: nat -> nat)
    returns (out: seq<bv8>)
    requires VsetvlOk(vsetvl)
    requires length <= |commit| && length <= |receipt| && MaskBytes(length) <= |results|
    ensures |out| == |results|
    ensures forall i: nat :: i / 8 < |results| ==>
              (Bit(out, i) <==> Bit(results, i) || (i < length && commit[i] < receipt[i]))
    ensures forall p :: MaskBytes(length) <= p < |results| ==> out[p] == results[p]
    ensures out == MarkAll(results, LateFlags(commit, receipt, length))
  {
    ghost var flags := LateFlags(commit, receipt, length);
    out := results;
    var i := 0;
    while i < length
      invariant i <= length
      invariant out == MarkAll(results, flags[..i])
    {
      var vl := vsetvl(length - i);
      out := LateStrip(commit, receipt, results, length, out, i, vl, flags);
      i := i + vl;
    }
    assert flags[..length] == flags;
    MarkAllSpec(results, flags);
  }

  /** One strip of `check_late_delivery_rvv`: the lanes i .. i + vl - 1,
      each setting its row's bit when the commit date is before the receipt
      date. */
  method LateStrip(commit: seq<int>, receipt: seq<int>, results: seq<bv8>, length: nat, out: seq<bv8>,
                   i: nat, vl: nat, ghost flags: seq<bool>)
    returns (out': seq<bv8>)
    requires length <= |commit| && length <= |receipt| && MaskBytes(length) <= |results|
    requires flags == LateFlags(commit, receipt, length) && i + vl <= length
    requires out == MarkAll(results, flags[..i])
    ensures out' == MarkAll(results, flags[..i + vl])
  {
    MaskBytesMonotone(i, length);
    out' := out;
    var j := 0;
    while j < vl
      invariant j <= vl
      invariant MaskBytes(i + j) <= |results|
      invariant out' == MarkAll(results, flags[..i + j])
    {
      var idx := i + j;
      var late := commit[idx] < receipt[idx];
      MarkStep(results, flags, idx, out', late);
      if late {
        out' := SetBit(out', idx);
      }
      j := j + 1;
    }
  }

  /** Q12's four-way date test for row i, as the scalar recomputation in the
      writer states it. */
  predicate ShippingCondition(ship: int, commit: int, receipt: int, start: int, end: int)
  {
    commit < receipt && ship < commit && receipt >= start && receipt < end
  }

  function ShippingFlags(ship: seq<int>, commit: seq<int>, receipt: seq<int>, start: int, end: int, n: nat): (flags: seq<bool>)
    requires n <= |ship| && n <= |commit| && n <= |receipt|
    ensures |flags| == n
  {
    seq(n, i requires 0 <= i < n => ShippingCondition(ship[i], commit[i], receipt[i], start, end))
  }

  /* ---- the vector comparisons of `check_shipping_conditions_rvv` ---- */

  /** `vmslt.vv`: lane-wise signed less-than over the first vl lanes. */
  function Vmslt(a: seq<int>, b: seq<int>, vl: nat): (m: seq<bool>)
    requires vl <= |a| && vl <= |b|
    ensures |m| == vl
  {
    seq(vl, k requires 0 <= k < vl => a[k] < b[k])
  }

  /** `vmsge.vv`: lane-wise signed greater-or-equal. */
  function Vmsge(a: seq<int>, b: seq<int>, vl: nat): (m: seq<bool>)
    requires vl <= |a| && vl <= |b|
    ensures |m| == vl
  {
    seq(vl, k requires 0 <= k < vl => a[k] >= b[k])
  }

  /** `vmand.mm`: lane-wise conjunction of two masks. */
  function Vmand(a: seq<bool>, b: seq<bool>, vl: nat): (m: seq<bool>)
    requires vl <= |a| && vl <= |b|
    ensures |m| == vl
  {
    seq(vl, k requires 0 <= k < vl => a[k] && b[k])
  }

  /** The AND of the four vector comparisons of a strip. */
  function StripConditions(ship: seq<int>, commit: seq<int>, receipt: seq<int>, start: int, end: int, i: nat, vl: nat): (m: seq<bool>)
    requires i + vl <= |ship| && i + vl <= |commit| && i + vl <= |receipt|
    ensures |m| == vl
  {
    var s := ship[i..i + vl];
    var c := commit[i..i + vl];
    var r := receipt[i..i + vl];
    var c1 := Vmslt(c, r, vl);
    var c2 := Vmslt(s, c, vl);
    var c3 := Vmsge(r, Broadcast(start, vl), vl);
    var c4 := Vmslt(r, Broadcast(end, vl), vl);
    Vmand(Vmand(Vmand(c1, c2, vl), c3, vl), c4, vl)
  }

  /** The mask register the writer computes agrees lane by lane with the
      scalar recomputation it actually stores. */
  lemma StripConditionsAgree(ship: seq<int>, commit: seq<int>, receipt: seq<int>, start: int, end: int, i: nat, vl: nat, k: nat)
    requires i + vl <= |ship| && i + vl <= |commit| && i + vl <= |receipt| && k < vl
    ensures StripConditions(ship, commit, receipt, start, end, i, vl)[k]
         == ShippingCondition(ship[i + k], commit[i + k], receipt[i + k], start, end)
  {
  }

  /** `check_shipping_conditions_rvv(shipdate, commitdate, receiptdate,
      start_date, end_date, results, length)`: computes the strip's vector
      mask, then sets bit idx for every lane whose scalar recomputation of
      the four conditions holds. */
  method CheckShippingConditions(ship: seq<int>, commit: seq<int>, receipt: seq<int>, start: int, end: int,
                                 results: seq<bv8>, length: nat, vsetvl: nat -> nat)
    returns (out: seq<bv8>)
    requires VsetvlOk(vsetvl)
    requires length <= |ship| && length <= |commit| && length <= |receipt| && MaskBytes(length) <= |results|
    ensures |out| == |results|
    ensures forall i: nat :: i / 8 < |results| ==>
              (Bit(out, i) <==> Bit(results, i)
                                || (i < length && ShippingCondition(ship[i], commit[i], receipt[i], start, end)))
    ensures forall p :: MaskBytes(length) <= p < |results| ==> out[p] == results[p]
    ensures out == MarkAll(results, ShippingFlags(ship, commit, receipt, start, end, length))
  {
    ghost var flags := ShippingFlags(ship, commit, receipt, start, end, length);
    out := results;
    var i := 0;
    while i < length
      invariant i <= length
      invariant out == MarkAll(results, flags[..i])
    {
      var vl := vsetvl(length - i);
      out := ShippingStrip(ship, commit, receipt, start, end, results, length, out, i, vl, flags);
      i := i + vl;
    }
    assert flags[..length] == flags;
    MarkAllSpec(results, flags);
  }

  /** One strip of `check_shipping_conditions_rvv`: the vector mask of the
      strip, then for each lane the scalar recomputation of the four
      conditions, setting the row's bit when all hold. */
  method ShippingStrip(ship: seq<int>, commit: seq<int>, receipt: seq<int>, start: int, end: int,
                       results: seq<bv8>, length: nat, out: seq<bv8>, i: nat, vl: nat, ghost flags: seq<bool>)
    returns (out': seq<bv8>)
    requires length <= |ship| && length <= |commit| && length <= |receipt| && MaskBytes(length) <= |results|
    requires flags == ShippingFlags(ship, commit, receipt, start, end, length) && i + vl <= length
    requires out == MarkAll(results, flags[..i])
    ensures out' == MarkAll(results, flags[..i + vl])
  {
    var allConditions := StripConditions(ship, commit, receipt, start, end, i, vl);
    MaskBytesMonotone(i, length);
    out' := out;
    var j := 0;
    while j < vl
      invariant j <= vl
      invariant MaskBytes(i + j) <= |results|
      invariant out' == MarkAll(results, flags[..i + j])
    {
      var idx := i + j;
      var allCondMet := commit[idx] < receipt[idx] && ship[idx] < commit[idx]
                        && receipt[idx] >= start && receipt[idx] < end;
      MarkStep(results, flags, idx, out', allCondMet);
      if allCondMet {
        out' := SetBit(out', idx);
      }
      j := j + 1;
    }
  }
}
