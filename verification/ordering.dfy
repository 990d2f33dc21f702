/** The comparators of the programs: `std::string::operator<`, the
    lexicographic pair orders of `std::pair` and of the result structs, and
    the strict-total-order facts that make map iteration and `std::sort`
    deterministic. */
module Ordering {

  ghost predicate Irreflexive<T(!new)>(lt: (T, T) -> bool)
  {
    forall x :: !lt(x, x)
  }

  ghost predicate Transitive<T(!new)>(lt: (T, T) -> bool)
  {
    forall x, y, z :: lt(x, y) && lt(y, z) ==> lt(x, z)
  }

  ghost predicate Connected<T(!new)>(lt: (T, T) -> bool)
  {
    forall x, y :: x != y ==> lt(x, y) || lt(y, x)
  }

  /** What `std::map` and `std::sort` need of a comparator for the key order
      to be a single well-defined sequence. */
  ghost predicate StrictTotalOrder<T(!new)>(lt: (T, T) -> bool)
  {
    Irreflexive(lt) && Transitive(lt) && Connected(lt)
  }

  /** `std::string::operator<`: lexicographic by character, a proper prefix
      before its extensions. */
  predicate StrLess(a: string, b: string)
  {
    if |a| == 0 then |b| > 0
    else if |b| == 0 then false
    else if a[0] != b[0] then a[0] < b[0]
    else StrLess(a[1..], b[1..])
  }

  lemma {:induction false} StrLessIrreflexive(a: string)
    ensures !StrLess(a, a)
  {
    if |a| > 0 {
      StrLessIrreflexive(a[1..]);
    }
  }

  lemma {:induction false} StrLessTransitive(a: string, b: string, c: string)
    requires StrLess(a, b) && StrLess(b, c)
    ensures StrLess(a, c)
  {
    if |a| > 0 && a[0] == b[0] && b[0] == c[0] {
      StrLessTransitive(a[1..], b[1..], c[1..]);
    }
  }

  lemma {:induction false} StrLessConnected(a: string, b: string)
    requires a != b
    ensures StrLess(a, b) || StrLess(b, a)
  {
    if |a| > 0 && |b| > 0 && a[0] == b[0] {
      assert a == [a[0]] + a[1..] && b == [b[0]] + b[1..];
      StrLessConnected(a[1..], b[1..]);
    }
  }

  lemma StrLessIsStrictTotal()
    ensures StrictTotalOrder(StrLess)
  {
    forall a ensures !StrLess(a, a) {
      StrLessIrreflexive(a);
    }
    forall a, b, c | StrLess(a, b) && StrLess(b, c) ensures StrLess(a, c) {
      StrLessTransitive(a, b, c);
    }
    forall a, b | a != b ensures StrLess(a, b) || StrLess(b, a) {
      StrLessConnected(a, b);
    }
  }

  predicate IntLess(a: int, b: int) { a < b }
  predicate IntGreater(a: int, b: int) { a > b }

  lemma IntOrdersAreStrictTotal()
    ensures StrictTotalOrder(IntLess) && StrictTotalOrder(IntGreater)
  {
  }

  /** Lexicographic order on pairs: the first components decide unless they
      are equal. This is `std::pair::operator<`, `GroupKey::operator<`,
      `NationYearKey::operator<` and, with a descending second order,
      `Query9Result::operator<`. */
  predicate LexLess<A(==), B>(ltA: (A, A) -> bool, ltB: (B, B) -> bool, x: (A, B), y: (A, B))
  {
    if x.0 != y.0 then ltA(x.0, y.0) else ltB(x.1, y.1)
  }

  lemma LexIsStrictTotal<A(!new), B(!new)>(ltA: (A, A) -> bool, ltB: (B, B) -> bool)
    requires StrictTotalOrder(ltA) && StrictTotalOrder(ltB)
    ensures StrictTotalOrder((x: (A, B), y: (A, B)) => LexLess(ltA, ltB, x, y))
  {
  }
}
