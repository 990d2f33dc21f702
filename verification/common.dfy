/** Vocabulary shared by every query program: optional values, nullable
    cells of an Arrow array, chunked tables, and exact sums. */
module Common {

  datatype Option<+T> = None | Some(value: T)

  /** One slot of an Arrow array: the validity flag and the value the data
      buffer holds at that slot. The buffer is still readable when the slot
      is null, which is what a read without a prior null check observes. */
  datatype Cell<+T> = Cell(isNull: bool, raw: T)

  /** A table column-set is delivered as chunks; a chunk is a sequence of rows
      whose fields are cells of the parallel column arrays. */
  type Chunk<R> = seq<R>
  type Table<R> = seq<Chunk<R>>

  /** The rows of a table in chunk order, then row order: the order in which
      every `for chunk_idx ... for i ...` loop of the programs visits them. */
  function Rows<R>(t: Table<R>): (rs: seq<R>)
    ensures |rs| == NumRows(t)
  {
    if |t| == 0 then [] else Rows(t[..|t| - 1]) + t[|t| - 1]
  }

  /** `num_rows()` of a table: the sum of its chunk lengths. */
  function NumRows<R>(t: Table<R>): nat
  {
    if |t| == 0 then 0 else NumRows(t[..|t| - 1]) + |t[|t| - 1]|
  }

  lemma RowsOfPrefix<R>(t: Table<R>, c: nat)
    requires c < |t|
    ensures Rows(t[..c + 1]) == Rows(t[..c]) + t[c]
  {
    assert t[..c + 1][..c] == t[..c];
  }

  /** The first i + 1 elements are the first i and then element i. */
  lemma TakeSnoc<T>(s: seq<T>, i: nat)
    requires i < |s|
    ensures s[..i + 1] == s[..i] + [s[i]]
  {
  }

  /** A table whose rows all sit in its first chunk: what a program that
      reads only `chunk(0)` of a column needs to see every row. */
  predicate AllInFirstChunk<R>(t: Table<R>)
  {
    |t| >= 1 && forall c :: 1 <= c < |t| ==> |t[c]| == 0
  }

  lemma {:induction false} FirstChunkHoldsAll<R>(t: Table<R>)
    requires AllInFirstChunk(t)
    ensures Rows(t) == t[0]
    decreases |t|
  {
    if |t| == 1 {
      assert t[..0] == [];
    } else {
      assert AllInFirstChunk(t[..|t| - 1]);
      FirstChunkHoldsAll(t[..|t| - 1]);
      assert t[..|t| - 1][0] == t[0];
    }
  }

  /** Exact sum of a sequence, accumulated left to right. */
  function Sum(s: seq<real>): real
  {
    if |s| == 0 then 0.0 else Sum(s[..|s| - 1]) + s[|s| - 1]
  }

  lemma {:induction false} SumConcat(a: seq<real>, b: seq<real>)
    ensures Sum(a + b) == Sum(a) + Sum(b)
    decreases |b|
  {
    if |b| == 0 {
      assert a + b == a;
    } else {
      assert (a + b)[..|a + b| - 1] == a + b[..|b| - 1];
      SumConcat(a, b[..|b| - 1]);
    }
  }

  lemma SumPrefixStep(s: seq<real>, i: nat)
    requires i < |s|
    ensures Sum(s[..i + 1]) == Sum(s[..i]) + s[i]
  {
    assert s[..i + 1][..i] == s[..i];
  }

  /** Adding `x` to one element adds `x` to the sum. */
  lemma {:induction false} SumUpdate(s: seq<real>, j: nat, x: real)
    requires j < |s|
    ensures Sum(s[j := s[j] + x]) == Sum(s) + x
    decreases |s|
  {
    var t := s[j := s[j] + x];
    if j == |s| - 1 {
      assert t[..|t| - 1] == s[..|s| - 1];
    } else {
      assert t[..|t| - 1] == s[..|s| - 1][j := s[j] + x];
      SumUpdate(s[..|s| - 1], j, x);
    }
  }

  lemma {:induction false} SumZeros(n: nat)
    ensures Sum(seq(n, _ => 0.0)) == 0.0
  {
    if n > 0 {
      assert seq(n, _ => 0.0)[..n - 1] == seq(n - 1, _ => 0.0);
      SumZeros(n - 1);
    }
  }

  /** The indices lo, lo+1, ..., hi-1 in ascending order. */
  function Range(lo: nat, hi: nat): (r: seq<nat>)
    ensures |r| == if lo <= hi then hi - lo else 0
  {
    seq(if lo <= hi then hi - lo else 0, k => lo + k)
  }
}
