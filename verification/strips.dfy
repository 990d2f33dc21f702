/** Strip-mining: the loop shape `for (i = 0; i < n; i += vl) { vl =
    __riscv_vsetvl_*(n - i); ... lanes i .. i+vl-1 ... }` shared by every
    vector kernel. The value `vsetvl` returns is left to the hardware; the
    model takes it as a function argument and assumes only what section 6.3
    of the RISC-V "V" Vector Extension 1.0 guarantees. */
module Strip {
  import opened Common

  /** A request for avl >= 1 elements is granted at least one and at most
      avl of them. */
  ghost predicate VsetvlOk(vsetvl: nat -> nat)
  {
    forall avl: nat :: avl >= 1 ==> 1 <= vsetvl(avl) <= avl
  }

  /** ... and never more than the register group holds. */
  ghost predicate VsetvlWithin(vsetvl: nat -> nat, vlmax: nat)
  {
    VsetvlOk(vsetvl) && forall avl: nat :: avl >= 1 ==> vsetvl(avl) <= vlmax
  }

  /** `vmv.v.x` / `vfmv.v.f`: x broadcast to vl lanes. */
  function Broadcast<T>(x: T, vl: nat): (v: seq<T>)
    ensures |v| == vl && forall i :: 0 <= i < vl ==> v[i] == x
  {
    seq(vl, _ => x)
  }

  /** The indices the loop hands to its lanes, strip after strip, starting
      at index i. */
  function Visited(vsetvl: nat -> nat, i: nat, n: nat): seq<nat>
    requires VsetvlOk(vsetvl)
    decreases n - i
  {
    if i >= n then []
    else
      var vl := vsetvl(n - i);
      Range(i, i + vl) + Visited(vsetvl, i + vl, n)
  }

  lemma {:induction false} RangeSplit(lo: nat, mid: nat, hi: nat)
    requires lo <= mid <= hi
    ensures Range(lo, mid) + Range(mid, hi) == Range(lo, hi)
  {
    var r := Range(lo, mid) + Range(mid, hi);
    assert forall k :: 0 <= k < |r| ==> r[k] == lo + k;
  }

  /** Whatever lengths the hardware grants, the strips visit every index of
      [i, n) exactly once and in ascending order. */
  lemma {:induction false} VisitedIsRange(vsetvl: nat -> nat, i: nat, n: nat)
    requires VsetvlOk(vsetvl) && i <= n
    ensures Visited(vsetvl, i, n) == Range(i, n)
    decreases n - i
  {
    if i < n {
      var vl := vsetvl(n - i);
      VisitedIsRange(vsetvl, i + vl, n);
      RangeSplit(i, i + vl, n);
    }
  }
}
