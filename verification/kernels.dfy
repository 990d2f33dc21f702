/** The vector kernels of the RVV programs over exact reals: the
    element-wise kernels that load a strip, compute lane by lane and store
    the strip back, and the accumulators that keep one running sum per
    lane and reduce all VLMAX lanes at the end. Vector registers are
    sequences of lanes; `vsetvl` is a parameter (see `Strip`). */
module Kernels {
  import opened Common
  import opened Strip

  /* ---- lane-wise vector operations ---- */

  /** `vle32.v`: the vl elements starting at i. */
  function Load(a: seq<real>, i: nat, vl: nat): (v: seq<real>)
    requires i + vl <= |a|
    ensures |v| == vl
  {
    a[i..i + vl]
  }

  /** `vse32.v`: v written over the vl elements starting at i. */
  function Store(a: seq<real>, i: nat, v: seq<real>): (r: seq<real>)
    requires i + |v| <= |a|
    ensures |r| == |a|
    ensures forall k :: 0 <= k < |a| ==> r[k] == if i <= k < i + |v| then v[k - i] else a[k]
  {
    a[..i] + v + a[i + |v|..]
  }

  function Vfadd(a: seq<real>, b: seq<real>, vl: nat): (v: seq<real>)
    requires vl <= |a| && vl <= |b|
    ensures |v| == vl
  {
    seq(vl, k requires 0 <= k < vl => a[k] + b[k])
  }

  function Vfsub(a: seq<real>, b: seq<real>, vl: nat): (v: seq<real>)
    requires vl <= |a| && vl <= |b|
    ensures |v| == vl
  {
    seq(vl, k requires 0 <= k < vl => a[k] - b[k])
  }

  function Vfmul(a: seq<real>, b: seq<real>, vl: nat): (v: seq<real>)
    requires vl <= |a| && vl <= |b|
    ensures |v| == vl
  {
    seq(vl, k requires 0 <= k < vl => a[k] * b[k])
  }

  /* ---- element-wise kernels ---- */

  /** The four element-wise kernels of rvv_query1.cpp and rvv_query9.cpp. */
  datatype Kernel = DiscPrice | Charge | SupplyCost | Profit

  /** What one lane of a kernel computes from its two inputs. */
  function LaneValue(kernel: Kernel, x: real, y: real): real
  {
    match kernel
    case DiscPrice => x * (1.0 - y)
    case Charge => x * (1.0 + y)
    case SupplyCost => x * y
    case Profit => x - y
  }

  /** The vector instructions one strip of a kernel executes. */
  function StripCompute(kernel: Kernel, a: seq<real>, b: seq<real>, vl: nat): (v: seq<real>)
    requires vl <= |a| && vl <= |b|
    ensures |v| == vl
  {
    match kernel
    case DiscPrice => Vfmul(a, Vfsub(Broadcast(1.0, vl), b, vl), vl)
    case Charge => Vfmul(a, Vfadd(Broadcast(1.0, vl), b, vl), vl)
    case SupplyCost => Vfmul(a, b, vl)
    case Profit => Vfsub(a, b, vl)
  }

  /** Each lane of a strip holds the kernel's formula of its inputs. */
  lemma StripComputeLanes(kernel: Kernel, a: seq<real>, b: seq<real>, vl: nat, k: nat)
    requires vl <= |a| && vl <= |b| && k < vl
    ensures StripCompute(kernel, a, b, vl)[k] == LaneValue(kernel, a[k], b[k])
  {
  }

  /** The strip-mined loop shared by the element-wise kernels: for each
      strip, load both inputs, compute, store into `result`. */
  method RunKernel(kernel: Kernel, a: seq<real>, b: seq<real>, result: seq<real>, n: nat, vsetvl: nat -> nat)
    returns (out: seq<real>)
    requires VsetvlOk(vsetvl)
    requires n <= |a| && n <= |b| && n <= |result|
    ensures |out| == |result|
    ensures forall k :: 0 <= k < n ==> out[k] == LaneValue(kernel, a[k], b[k])
    ensures forall k :: n <= k < |result| ==> out[k] == result[k]
  {
    out := result;
    var i := 0;
    while i < n
      invariant i <= n && |out| == |result|
      invariant forall k :: 0 <= k < i ==> out[k] == LaneValue(kernel, a[k], b[k])
      invariant forall k :: i <= k < |result| ==> out[k] == result[k]
    {
      var vl := vsetvl(n - i);
      var va := Load(a, i, vl);
      var vb := Load(b, i, vl);
      var v := StripCompute(kernel, va, vb, vl);
      forall k | 0 <= k < vl ensures v[k] == LaneValue(kernel, a[i + k], b[i + k]) {
        StripComputeLanes(kernel, va, vb, vl, k);
      }
      out := Store(out, i, v);
      i := i + vl;
    }
  }

  /** `compute_disc_price_rvv(extendedprice, discount, result, n)`. */
  method ComputeDiscPrice(price: seq<real>, discount: seq<real>, result: seq<real>, n: nat, vsetvl: nat -> nat)
    returns (out: seq<real>)
    requires VsetvlOk(vsetvl)
    requires n <= |price| && n <= |discount| && n <= |result|
    ensures |out| == |result|
    ensures forall k :: 0 <= k < n ==> out[k] == price[k] * (1.0 - discount[k])
    ensures forall k :: n <= k < |result| ==> out[k] == result[k]
  {
    out := RunKernel(DiscPrice, price, discount, result, n, vsetvl);
  }

  /** `compute_charge_rvv(disc_price, tax, result, n)`. */
  method ComputeCharge(discPrice: seq<real>, tax: seq<real>, result: seq<real>, n: nat, vsetvl: nat -> nat)
    returns (out: seq<real>)
    requires VsetvlOk(vsetvl)
    requires n <= |discPrice| && n <= |tax| && n <= |result|
    ensures |out| == |result|
    ensures forall k :: 0 <= k < n ==> out[k] == discPrice[k] * (1.0 + tax[k])
    ensures forall k :: n <= k < |result| ==> out[k] == result[k]
  {
    out := RunKernel(Charge, discPrice, tax, result, n, vsetvl);
  }

  /** `compute_supply_cost_rvv(supplycost, quantity, result, n)`. */
  method ComputeSupplyCost(supplycost: seq<real>, quantity: seq<real>, result: seq<real>, n: nat, vsetvl: nat -> nat)
    returns (out: seq<real>)
    requires VsetvlOk(vsetvl)
    requires n <= |supplycost| && n <= |quantity| && n <= |result|
    ensures |out| == |result|
    ensures forall k :: 0 <= k < n ==> out[k] == supplycost[k] * quantity[k]
    ensures forall k :: n <= k < |result| ==> out[k] == result[k]
  {
    out := RunKernel(SupplyCost, supplycost, quantity, result, n, vsetvl);
  }

  /** `compute_profit_rvv(disc_price, supply_cost, result, n)`. */
  method ComputeProfit(discPrice: seq<real>, supplyCost: seq<real>, result: seq<real>, n: nat, vsetvl: nat -> nat)
    returns (out: seq<real>)
    requires VsetvlOk(vsetvl)
    requires n <= |discPrice| && n <= |supplyCost| && n <= |result|
    ensures |out| == |result|
    ensures forall k :: 0 <= k < n ==> out[k] == discPrice[k] - supplyCost[k]
    ensures forall k :: n <= k < |result| ==> out[k] == result[k]
  {
    out := RunKernel(Profit, discPrice, supplyCost, result, n, vsetvl);
  }

  /** The scalar profit formula of Q9: extendedprice·(1 − discount) −
      supplycost·quantity. */
  function ProfitAmount(price: real, discount: real, supplycost: real, quantity: real): real
  {
    price * (1.0 - discount) - supplycost * quantity
  }

  /** `batch_process_profit`: the three kernels chained through two
      scratch buffers of batch_size elements. */
  method BatchProcessProfit(price: seq<real>, discount: seq<real>, quantity: seq<real>, supplycost: seq<real>,
                            profit: seq<real>, batchSize: nat, vsetvl: nat -> nat)
    returns (out: seq<real>)
    requires VsetvlOk(vsetvl)
    requires batchSize <= |price| && batchSize <= |discount| && batchSize <= |quantity|
    requires batchSize <= |supplycost| && batchSize <= |profit|
    ensures |out| == |profit|
    ensures forall k :: 0 <= k < batchSize ==> out[k] == ProfitAmount(price[k], discount[k], supplycost[k], quantity[k])
    ensures forall k :: batchSize <= k < |profit| ==> out[k] == profit[k]
  {
    var discPriceData := Broadcast(0.0, batchSize);
    var supplyCostData := Broadcast(0.0, batchSize);
    discPriceData := ComputeDiscPrice(price, discount, discPriceData, batchSize, vsetvl);
    supplyCostData := ComputeSupplyCost(supplycost, quantity, supplyCostData, batchSize, vsetvl);
    out := ComputeProfit(discPriceData, supplyCostData, profit, batchSize, vsetvl);
  }

  /* ---- lane accumulators ---- */

  /** `vfadd.vv` into an accumulator of VLMAX lanes under the
      tail-undisturbed policy: lanes at or past vl keep their values. */
  function AddUndisturbed(acc: seq<real>, v: seq<real>, vl: nat): (r: seq<real>)
    requires vl <= |acc| && vl <= |v|
    ensures |r| == |acc|
  {
    seq(|acc|, k requires 0 <= k < |acc| => if k < vl then acc[k] + v[k] else acc[k])
  }

  /** Adding a strip to the first vl lanes adds the strip's sum to the
      lanes' total. */
  lemma {:induction false} AddUndisturbedSum(acc: seq<real>, v: seq<real>, vl: nat)
    requires vl <= |acc| && vl <= |v|
    ensures Sum(AddUndisturbed(acc, v, vl)) == Sum(acc) + Sum(v[..vl])
    decreases vl
  {
    if vl == 0 {
      assert AddUndisturbed(acc, v, vl) == acc;
    } else {
      var prev := AddUndisturbed(acc, v, vl - 1);
      AddUndisturbedSum(acc, v, vl - 1);
      assert AddUndisturbed(acc, v, vl) == prev[vl - 1 := prev[vl - 1] + v[vl - 1]];
      SumUpdate(prev, vl - 1, v[vl - 1]);
      SumPrefixStep(v, vl - 1);
    }
  }

  /** `sum_rvv(data, n)` with the accumulating add tail-undisturbed
      (`__riscv_vfadd_vv_f32m8_tu`): one running sum per lane, then the
      VLMAX-wide reduction `vfredusum` seeded with 0. */
  method SumRvv(data: seq<real>, n: nat, vlmax: nat, vsetvl: nat -> nat) returns (sum: real)
    requires VsetvlWithin(vsetvl, vlmax)
    requires n <= |data|
    ensures sum == Sum(data[..n])
  {
    var vSum := Broadcast(0.0, vlmax);
    SumZeros(vlmax);
    var i := 0;
    while i < n
      invariant i <= n && |vSum| == vlmax
      invariant Sum(vSum) == Sum(data[..i])
    {
      var vl := vsetvl(n - i);
      var vData := Load(data, i, vl);
      assert vData[..vl] == vData;
      AddUndisturbedSum(vSum, vData, vl);
      vSum := AddUndisturbed(vSum, vData, vl);
      SumConcat(data[..i], vData);
      assert data[..i] + vData == data[..i + vl];
      i := i + vl;
    }
    sum := 0.0 + Sum(vSum);
  }

  /** Σ price[k]·discount[k] over k < n. */
  function Revenue(price: seq<real>, discount: seq<real>, n: nat): real
    requires n <= |price| && n <= |discount|
  {
    if n == 0 then 0.0 else Revenue(price, discount, n - 1) + price[n - 1] * discount[n - 1]
  }

  /** The revenue of a strip is the sum of its lane products. */
  lemma {:induction false} RevenueStrip(price: seq<real>, discount: seq<real>, i: nat, vl: nat)
    requires i + vl <= |price| && i + vl <= |discount|
    ensures Revenue(price, discount, i + vl)
         == Revenue(price, discount, i) + Sum(Vfmul(Load(price, i, vl), Load(discount, i, vl), vl))
    decreases vl
  {
    if vl > 0 {
      RevenueStrip(price, discount, i, vl - 1);
      StripProductsSnoc(price, discount, i, vl);
    }
  }

  /** A strip's lane products are the products of the strip one lane
      shorter, then the product of the last lane. */
  lemma StripProductsSnoc(price: seq<real>, discount: seq<real>, i: nat, vl: nat)
    requires 0 < vl && i + vl <= |price| && i + vl <= |discount|
    ensures var v := Vfmul(Load(price, i, vl), Load(discount, i, vl), vl);
            && v[..vl - 1] == Vfmul(Load(price, i, vl - 1), Load(discount, i, vl - 1), vl - 1)
            && v[vl - 1] == price[i + vl - 1] * discount[i + vl - 1]
  {
    var v := Vfmul(Load(price, i, vl), Load(discount, i, vl), vl);
    var w := Vfmul(Load(price, i, vl - 1), Load(discount, i, vl - 1), vl - 1);
    assert forall k :: 0 <= k < vl - 1 ==> v[k] == price[i + k] * discount[i + k] == w[k];
    assert v[..vl - 1] == w;
  }

  /** `compute_revenue_rvv(price_data, discount_data, length)` with the
      accumulating add tail-undisturbed: lane products added into VLMAX
      running sums, then reduced. */
  method ComputeRevenueRvv(price: seq<real>, discount: seq<real>, length: nat, vlmax: nat, vsetvl: nat -> nat)
    returns (sum: real)
    requires VsetvlWithin(vsetvl, vlmax)
    requires length <= |price| && length <= |discount|
    ensures sum == Revenue(price, discount, length)
  {
    var vSum := Broadcast(0.0, vlmax);
    SumZeros(vlmax);
    var i := 0;
    while i < length
      invariant i <= length && |vSum| == vlmax
      invariant Sum(vSum) == Revenue(price, discount, i)
    {
      var vl := vsetvl(length - i);
      var vPrice := Load(price, i, vl);
      var vDiscount := Load(discount, i, vl);
      var vRevenue := Vfmul(vPrice, vDiscount, vl);
      AddUndisturbedSum(vSum, vRevenue, vl);
      assert vRevenue[..vl] == vRevenue;
      RevenueStrip(price, discount, i, vl);
      vSum := AddUndisturbed(vSum, vRevenue, vl);
      i := i + vl;
    }
    sum := 0.0 + Sum(vSum);
  }

  /* ---- the accumulators as written: tail-agnostic adds ---- */

  /** `vfadd.vv` into the accumulator as the programs call it, without a
      policy suffix: tail-agnostic, so a lane at or past vl may be
      overwritten. `fill` is what the hardware leaves there (all-ones bits,
      a NaN, is the value section 3.4.3 of the RISC-V "V" Vector Extension
      1.0 permits besides the old value). */
  function AddAgnostic(acc: seq<real>, v: seq<real>, vl: nat, fill: real): (r: seq<real>)
    requires vl <= |acc| && vl <= |v|
    ensures |r| == |acc|
  {
    seq(|acc|, k requires 0 <= k < |acc| => if k < vl then acc[k] + v[k] else fill)
  }

  /** The lanes after the loop of `sum_rvv` / `compute_revenue_rvv` as
      written, from index i on. */
  function AccumulateAgnostic(acc: seq<real>, data: seq<real>, i: nat, n: nat, vsetvl: nat -> nat, fill: real): (r: seq<real>)
    requires VsetvlWithin(vsetvl, |acc|) && n <= |data|
    ensures |r| == |acc|
    decreases n - i
  {
    if i >= n then acc
    else
      var vl := vsetvl(n - i);
      AccumulateAgnostic(AddAgnostic(acc, Load(data, i, vl), vl, fill), data, i + vl, n, vsetvl, fill)
  }

  /** `sum_rvv` as written: the reduction still covers all VLMAX lanes. */
  function SumRvvAsWritten(data: seq<real>, n: nat, vlmax: nat, vsetvl: nat -> nat, fill: real): real
    requires VsetvlWithin(vsetvl, vlmax) && n <= |data|
  {
    0.0 + Sum(AccumulateAgnostic(Broadcast(0.0, vlmax), data, 0, n, vsetvl, fill))
  }

  /** The lane products `compute_revenue_rvv` adds. */
  function Products(price: seq<real>, discount: seq<real>, n: nat): (p: seq<real>)
    requires n <= |price| && n <= |discount|
    ensures |p| == n
  {
    Vfmul(price, discount, n)
  }

  /** `compute_revenue_rvv` as written. */
  function RevenueRvvAsWritten(price: seq<real>, discount: seq<real>, n: nat, vlmax: nat, vsetvl: nat -> nat, fill: real): real
    requires VsetvlWithin(vsetvl, vlmax) && n <= |price| && n <= |discount|
  {
    SumRvvAsWritten(Products(price, discount, n), n, vlmax, vsetvl, fill)
  }

  /** A vsetvl that grants min(avl, 2): a machine with VLMAX = 2. */
  function GrantUpToTwo(avl: nat): nat
  {
    if avl <= 2 then avl else 2
  }

  /** One element on a two-lane machine: the single strip has vl = 1, lane
      1 is in the tail, and a tail overwritten with `fill` enters the
      reduction. Whenever fill is not the 0.0 the lane held, the sum is
      wrong. */
  lemma SumRvvTailAgnosticWrong(fill: real)
    requires fill != 0.0
    ensures VsetvlWithin(GrantUpToTwo, 2)
    ensures SumRvvAsWritten([1.0], 1, 2, GrantUpToTwo, fill) != Sum([1.0])
  {
    var acc := AddAgnostic(Broadcast(0.0, 2), [1.0], 1, fill);
    assert acc == [1.0, fill];
    assert AccumulateAgnostic(Broadcast(0.0, 2), [1.0], 0, 1, GrantUpToTwo, fill) == acc;
    assert Sum(acc) == 1.0 + fill by {
      assert acc[..1] == [1.0];
    }
  }

  /** The same one-row input breaks `compute_revenue_rvv` as written. */
  lemma RevenueRvvTailAgnosticWrong(fill: real)
    requires fill != 0.0
    ensures VsetvlWithin(GrantUpToTwo, 2)
    ensures RevenueRvvAsWritten([2.0], [0.5], 1, 2, GrantUpToTwo, fill) != Revenue([2.0], [0.5], 1)
  {
    assert Products([2.0], [0.5], 1) == [1.0];
    SumRvvTailAgnosticWrong(fill);
  }
}
