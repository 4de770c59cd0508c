/**
  Packed lower-triangular storage of a symmetric n-by-n matrix: row i holds
  the entries (i, 0) .. (i, i), rows stored one after the other, so that
  entry (i, j) with j <= i lives at i(i+1)/2 + j and the whole triangle takes
  n(n+1)/2 slots. ShellList uses it for the basis-pair buffer, the overlap
  matrix and the density vectors.
 */
module PackedTriangle {

  /** Size of a packed triangle with n rows, by rows: 0 + 1 + ... + n. */
  function Tri(n: nat): nat {
    if n == 0 then 0 else Tri(n - 1) + n
  }

  /** Slot of entry (i, j), j <= i. */
  function PairIndex(i: nat, j: nat): nat {
    Tri(i) + j
  }

  /**
    The closed form the source computes with unsigned integers: n(n+1) is
    always even, so n(n+1)/2 is exact and equals the row-by-row count.
   */
  lemma {:induction false} TriFormula(n: nat)
    ensures 2 * Tri(n) == n * (n + 1)
    ensures n * (n + 1) / 2 == Tri(n)
    ensures (n + 1) * n / 2 == Tri(n)
  {
    if n > 0 {
      TriFormula(n - 1);
      assert (n - 1) * n + 2 * n == n * (n + 1);
    }
  }

  lemma {:induction false} TriMonotone(a: nat, b: nat)
    requires a <= b
    ensures Tri(a) <= Tri(b)
    decreases b - a
  {
    if a < b {
      TriMonotone(a, b - 1);
    }
  }

  /** Every pair of the first n rows has a slot inside the n-row triangle. */
  lemma PairIndexInRange(i: nat, j: nat, n: nat)
    requires j <= i < n
    ensures PairIndex(i, j) < Tri(n)
  {
    TriMonotone(i + 1, n);
  }

  /** Every pair of the first n rows lies below the start of row n. */
  lemma RowsBelow(n: nat)
    ensures forall i: nat, j: nat :: j <= i < n ==> PairIndex(i, j) < Tri(n)
  {
    forall i: nat, j: nat | j <= i < n
      ensures PairIndex(i, j) < Tri(n)
    {
      PairIndexInRange(i, j, n);
    }
  }

  /** Distinct pairs get distinct slots. */
  lemma PairIndexInjective(i: nat, j: nat, i': nat, j': nat)
    requires j <= i && j' <= i'
    requires PairIndex(i, j) == PairIndex(i', j')
    ensures i == i' && j == j'
  {
    if i < i' {
      PairIndexInRange(i, j, i');
    } else if i' < i {
      PairIndexInRange(i', j', i);
    }
  }

  /** Every slot of the n-row triangle belongs to some pair of the first n rows. */
  lemma {:induction false} PairIndexOnto(k: nat, n: nat)
    requires k < Tri(n)
    ensures exists i: nat, j: nat :: j <= i < n && PairIndex(i, j) == k
  {
    if k < Tri(n - 1) {
      PairIndexOnto(k, n - 1);
    } else {
      var i, j := n - 1, k - Tri(n - 1);
      assert j <= i < n && PairIndex(i, j) == k;
    }
  }

  /**
    Slot (i, j) of the basis-pair buffer for basis values x: the product
    x_i x_j counted for both (i, j) and (j, i) off the diagonal, once on it.
   */
  function PairValue(x: seq<real>, i: nat, j: nat): real
    requires j <= i < |x|
  {
    if j < i then 2.0 * x[i] * x[j] else x[i] * x[i]
  }
}
