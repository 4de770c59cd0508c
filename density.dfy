/**
  Electron-density values at a point. densityValues compacts the significant
  basis functions into a list of (value, basis index) pairs and then, for each
  packed-triangular density vector D, sums over the lower triangle of that
  list: row i contributes 2 * (2 * x_i * x_j) * D[T(ii) + jj] for every earlier
  entry j and x_i * x_i * D[T(ii) + ii] for the diagonal, where ii and jj are
  the basis indices and T(n) = n(n+1)/2. The off-diagonal factor is therefore
  4, as the code has it. The symmetric quadratic form, whose off-diagonal
  factor is 2 as in the pair buffer of shellPairValues, is defined at the end
  of the module, and FullDensitySplit relates the two.
 */
module Density {
  import opened Shells
  import opened PackedTriangle
  import opened BasisLayout

  /** Every index pair of the list has its slot inside D. */
  ghost predicate Addressable(idx: seq<nat>, D: seq<real>) {
    && StrictlyIncreasing(idx)
    && forall t :: 0 <= t < |idx| ==> PairIndex(idx[t], idx[t]) < |D|
  }

  /** Sum of the first j off-diagonal terms of row i. */
  function OffDiagonal(xs: seq<real>, idx: seq<nat>, D: seq<real>, i: nat, j: nat): real
    requires |xs| == |idx| && Addressable(idx, D)
    requires j <= i < |idx|
  {
    if j == 0 then 0.0
    else
      assert idx[j - 1] < idx[i];
      OffDiagonal(xs, idx, D, i, j - 1) + 2.0 * (2.0 * xs[i] * xs[j - 1]) * D[Tri(idx[i]) + idx[j - 1]]
  }

  /** Row i: its off-diagonal terms, then its diagonal term. */
  function Row(xs: seq<real>, idx: seq<nat>, D: seq<real>, i: nat): real
    requires |xs| == |idx| && Addressable(idx, D)
    requires i < |idx|
  {
    OffDiagonal(xs, idx, D, i, i) + xs[i] * xs[i] * D[Tri(idx[i]) + idx[i]]
  }

  /** Sum of the first m rows. */
  function RowsUpTo(xs: seq<real>, idx: seq<nat>, D: seq<real>, m: nat): real
    requires |xs| == |idx| && Addressable(idx, D)
    requires m <= |idx|
  {
    if m == 0 then 0.0 else RowsUpTo(xs, idx, D, m - 1) + Row(xs, idx, D, m - 1)
  }

  /** The density value for one density vector D over the list (xs, idx). */
  function DensityValue(xs: seq<real>, idx: seq<nat>, D: seq<real>): real
    requires |xs| == |idx| && Addressable(idx, D)
  {
    RowsUpTo(xs, idx, D, |idx|)
  }

  /** The same sum taken over every basis function, with x the whole basis vector. */
  function FullDensityValue(x: seq<real>, D: seq<real>): (r: real)
    requires Tri(|x|) <= |D|
  {
    var idx := Range(0, |x|);
    assert Addressable(idx, D) by {
      forall t | 0 <= t < |idx| ensures PairIndex(idx[t], idx[t]) < |D| {
        PairIndexInRange(t, t, |x|);
      }
    }
    DensityValue(x, idx, D)
  }

  /** The identity index list of n basis functions fits a triangle of n rows. */
  lemma FullAddressable(n: nat, D: seq<real>)
    requires Tri(n) <= |D|
    ensures Addressable(Range(0, n), D)
  {
    var full := Range(0, n);
    forall u | 0 <= u < |full| ensures PairIndex(full[u], full[u]) < |D| {
      PairIndexInRange(u, u, n);
    }
  }

  /** idx splits at position m around the value n: entries before m are below n, the rest are not. */
  ghost predicate SplitAt(idx: seq<nat>, m: nat, n: nat) {
    && m <= |idx|
    && (forall u :: 0 <= u < m ==> idx[u] < n)
    && (forall u :: m <= u < |idx| ==> idx[u] >= n)
  }

  /** (xs, idx) is a sparse form of x: its values sit at their indices and x is zero elsewhere. */
  ghost predicate SparseOf(xs: seq<real>, idx: seq<nat>, x: seq<real>) {
    && |xs| == |idx|
    && StrictlyIncreasing(idx)
    && (forall t :: 0 <= t < |idx| ==> idx[t] < |x| && xs[t] == x[idx[t]])
    && (forall b :: 0 <= b < |x| ==> ZeroUnlessListed(idx, x, b))
  }

  /** Basis index b is either in the list or holds zero in x. */
  ghost predicate ZeroUnlessListed(idx: seq<nat>, x: seq<real>, b: nat) {
    b in idx || (b < |x| && x[b] == 0.0)
  }

  /**
    Moving the split value n down by one: either the entry just below
    position m is n - 1 and the split moves down with it, or n - 1 is not
    an index at all.
   */
  lemma SplitStep(idx: seq<nat>, m: nat, n: nat)
    requires StrictlyIncreasing(idx) && SplitAt(idx, m, n)
    ensures n == 0 ==> m == 0
    ensures 0 < n && 0 < m && idx[m - 1] == n - 1 ==> SplitAt(idx, m - 1, n - 1)
    ensures 0 < n && !(0 < m && idx[m - 1] == n - 1) ==> SplitAt(idx, m, n - 1) && n - 1 !in idx
  {
    assert 0 < m ==> idx[0] < n;
    if 0 < n && 0 < m && idx[m - 1] == n - 1 {
      forall u | 0 <= u < m - 1 ensures idx[u] < n - 1 {
        assert idx[u] < idx[m - 1];
      }
    }
  }

  lemma {:induction false} OffDiagonalOfZeroRow(x: seq<real>, idx: seq<nat>, D: seq<real>, i: nat, j: nat)
    requires |x| == |idx| && Addressable(idx, D)
    requires j <= i < |idx| && x[i] == 0.0
    ensures OffDiagonal(x, idx, D, i, j) == 0.0
  {
    if j > 0 {
      OffDiagonalOfZeroRow(x, idx, D, i, j - 1);
    }
  }

  /** Row i unfolded, with its off-diagonal part given as o, its value as w and its diagonal entry as d. */
  lemma RowUnfold(xs: seq<real>, idx: seq<nat>, D: seq<real>, i: nat, o: real, w: real, d: real)
    requires |xs| == |idx| && Addressable(idx, D) && i < |idx|
    requires OffDiagonal(xs, idx, D, i, i) == o && xs[i] == w && D[Tri(idx[i]) + idx[i]] == d
    ensures Row(xs, idx, D, i) == o + w * w * d
  {
  }

  /** One more off-diagonal term of row i, with the earlier ones given as o and the term's factors as a, b and d. */
  lemma OffDiagonalUnfold(xs: seq<real>, idx: seq<nat>, D: seq<real>, i: nat, j: nat, o: real, a: real, b: real, d: real)
    requires |xs| == |idx| && Addressable(idx, D) && 0 < j <= i < |idx|
    requires idx[j - 1] < idx[i]
    requires OffDiagonal(xs, idx, D, i, j - 1) == o && xs[i] == a && xs[j - 1] == b && D[Tri(idx[i]) + idx[j - 1]] == d
    ensures OffDiagonal(xs, idx, D, i, j) == o + 2.0 * (2.0 * a * b) * d
  {
  }

  /** One more row, with the earlier rows given as a and the new row as r. */
  lemma RowsUpToUnfold(xs: seq<real>, idx: seq<nat>, D: seq<real>, m: nat, a: real, r: real)
    requires |xs| == |idx| && Addressable(idx, D) && 0 < m <= |idx|
    requires RowsUpTo(xs, idx, D, m - 1) == a && Row(xs, idx, D, m - 1) == r
    ensures RowsUpTo(xs, idx, D, m) == a + r
  {
  }

  /** Rows with equal off-diagonal parts, the same value and the same basis index are equal. */
  lemma RowTransfer(xs: seq<real>, idx: seq<nat>, x: seq<real>, full: seq<nat>, D: seq<real>, i: nat, i': nat)
    requires |xs| == |idx| && Addressable(idx, D) && |x| == |full| && Addressable(full, D)
    requires i < |idx| && i' < |full| && xs[i] == x[i'] && idx[i] == full[i']
    requires OffDiagonal(xs, idx, D, i, i) == OffDiagonal(x, full, D, i', i')
    ensures Row(xs, idx, D, i) == Row(x, full, D, i')
  {
    var o, w, d := OffDiagonal(xs, idx, D, i, i), xs[i], D[Tri(idx[i]) + idx[i]];
    RowUnfold(xs, idx, D, i, o, w, d);
    RowUnfold(x, full, D, i', o, w, d);
  }

  /** Two off-diagonal sums that agree so far stay equal after a term with the same values and indices. */
  lemma OffDiagonalStepListed(xs: seq<real>, idx: seq<nat>, x: seq<real>, full: seq<nat>, D: seq<real>,
                              i: nat, t: nat, i': nat, j: nat, o: real)
    requires |xs| == |idx| && Addressable(idx, D) && |x| == |full| && Addressable(full, D)
    requires 0 < t <= i < |idx| && 0 < j <= i' < |full|
    requires xs[i] == x[i'] && xs[t - 1] == x[j - 1] && idx[i] == full[i'] && idx[t - 1] == full[j - 1]
    requires OffDiagonal(xs, idx, D, i, t - 1) == o && OffDiagonal(x, full, D, i', j - 1) == o
    ensures OffDiagonal(xs, idx, D, i, t) == OffDiagonal(x, full, D, i', j)
  {
    assert idx[t - 1] < idx[i] && full[j - 1] < full[i'];
    var a, b, d := xs[i], xs[t - 1], D[Tri(idx[i]) + idx[t - 1]];
    OffDiagonalUnfold(xs, idx, D, i, t, o, a, b, d);
    OffDiagonalUnfold(x, full, D, i', j, o, a, b, d);
  }

  /** A term whose basis value is zero adds nothing to an off-diagonal sum. */
  lemma OffDiagonalStepZero(x: seq<real>, full: seq<nat>, D: seq<real>, i: nat, j: nat, o: real)
    requires |x| == |full| && Addressable(full, D) && 0 < j <= i < |full| && x[j - 1] == 0.0
    requires OffDiagonal(x, full, D, i, j - 1) == o
    ensures OffDiagonal(x, full, D, i, j) == o
  {
    assert full[j - 1] < full[i];
    OffDiagonalUnfold(x, full, D, i, j, o, x[i], 0.0, D[Tri(full[i]) + full[j - 1]]);
  }

  /** The off-diagonal part of a sparse row equals that of the full row it stands for. */
  lemma {:induction false} OffDiagonalSparse(xs: seq<real>, idx: seq<nat>, x: seq<real>, D: seq<real>,
                                             i: nat, t: nat, j: nat)
    requires SparseOf(xs, idx, x) && Addressable(idx, D) && Tri(|x|) <= |D|
    requires i < |idx| && SplitAt(idx, t, j) && t <= i && j <= idx[i]
    ensures var full := Range(0, |x|);
      Addressable(full, D) && OffDiagonal(xs, idx, D, i, t) == OffDiagonal(x, full, D, idx[i], j)
    decreases j, 1
  {
    FullAddressable(|x|, D);
    SplitStep(idx, t, j);
    if j == 0 {
    } else if t > 0 && idx[t - 1] == j - 1 {
      OffDiagonalSparseListed(xs, idx, x, D, i, t, j);
    } else {
      OffDiagonalSparseZero(xs, idx, x, D, i, t, j);
    }
  }

  /** OffDiagonalSparse when full column j - 1 is the sparse column t - 1. */
  lemma {:induction false} OffDiagonalSparseListed(xs: seq<real>, idx: seq<nat>, x: seq<real>, D: seq<real>,
                                                   i: nat, t: nat, j: nat)
    requires SparseOf(xs, idx, x) && Addressable(idx, D) && Tri(|x|) <= |D|
    requires i < |idx| && 0 < t <= i && 0 < j <= idx[i] && idx[t - 1] == j - 1 && SplitAt(idx, t - 1, j - 1)
    ensures var full := Range(0, |x|);
      Addressable(full, D) && OffDiagonal(xs, idx, D, i, t) == OffDiagonal(x, full, D, idx[i], j)
    decreases j, 0
  {
    var full := Range(0, |x|);
    FullAddressable(|x|, D);
    OffDiagonalSparse(xs, idx, x, D, i, t - 1, j - 1);
    OffDiagonalStepListed(xs, idx, x, full, D, i, t, idx[i], j, OffDiagonal(xs, idx, D, i, t - 1));
  }

  /** OffDiagonalSparse when full column j - 1 has no sparse column, so its value is zero. */
  lemma {:induction false} OffDiagonalSparseZero(xs: seq<real>, idx: seq<nat>, x: seq<real>, D: seq<real>,
                                                 i: nat, t: nat, j: nat)
    requires SparseOf(xs, idx, x) && Addressable(idx, D) && Tri(|x|) <= |D|
    requires i < |idx| && t <= i && 0 < j <= idx[i] && SplitAt(idx, t, j - 1) && j - 1 !in idx
    ensures var full := Range(0, |x|);
      Addressable(full, D) && OffDiagonal(xs, idx, D, i, t) == OffDiagonal(x, full, D, idx[i], j)
    decreases j, 0
  {
    var full := Range(0, |x|);
    FullAddressable(|x|, D);
    assert ZeroUnlessListed(idx, x, j - 1);
    OffDiagonalSparse(xs, idx, x, D, i, t, j - 1);
    OffDiagonalStepZero(x, full, D, idx[i], j, OffDiagonal(xs, idx, D, i, t));
  }

  /** Two row sums that agree so far stay equal after rows with the same value, index and off-diagonal part. */
  lemma RowsStepListed(xs: seq<real>, idx: seq<nat>, x: seq<real>, full: seq<nat>, D: seq<real>,
                       m: nat, n: nat, k: nat, a: real)
    requires |xs| == |idx| && Addressable(idx, D) && |x| == |full| && Addressable(full, D)
    requires 0 < m <= |idx| && 0 < n <= |full| && k == n - 1
    requires xs[m - 1] == x[k] && idx[m - 1] == full[k]
    requires OffDiagonal(xs, idx, D, m - 1, m - 1) == OffDiagonal(x, full, D, k, n - 1)
    requires RowsUpTo(xs, idx, D, m - 1) == a && RowsUpTo(x, full, D, n - 1) == a
    ensures RowsUpTo(xs, idx, D, m) == RowsUpTo(x, full, D, n)
  {
    RowTransfer(xs, idx, x, full, D, m - 1, n - 1);
    var r := Row(xs, idx, D, m - 1);
    RowsUpToUnfold(xs, idx, D, m, a, r);
    RowsUpToUnfold(x, full, D, n, a, r);
  }

  /** A row whose basis value is zero adds nothing to a row sum. */
  lemma RowsStepZero(x: seq<real>, full: seq<nat>, D: seq<real>, n: nat, a: real)
    requires |x| == |full| && Addressable(full, D) && 0 < n <= |full| && x[n - 1] == 0.0
    requires RowsUpTo(x, full, D, n - 1) == a
    ensures RowsUpTo(x, full, D, n) == a
  {
    OffDiagonalOfZeroRow(x, full, D, n - 1, n - 1);
    RowUnfold(x, full, D, n - 1, 0.0, 0.0, D[Tri(full[n - 1]) + full[n - 1]]);
    RowsUpToUnfold(x, full, D, n, a, 0.0);
  }

  /** The first m sparse rows sum to the first n full rows when idx splits at m around n. */
  lemma {:induction false} RowsSparse(xs: seq<real>, idx: seq<nat>, x: seq<real>, D: seq<real>, m: nat, n: nat)
    requires SparseOf(xs, idx, x) && Addressable(idx, D) && Tri(|x|) <= |D|
    requires SplitAt(idx, m, n) && n <= |x|
    ensures var full := Range(0, |x|);
      Addressable(full, D) && RowsUpTo(xs, idx, D, m) == RowsUpTo(x, full, D, n)
    decreases n, 1
  {
    FullAddressable(|x|, D);
    SplitStep(idx, m, n);
    if n == 0 {
    } else if m > 0 && idx[m - 1] == n - 1 {
      RowsSparseListed(xs, idx, x, D, m, n);
    } else {
      RowsSparseZero(xs, idx, x, D, m, n);
    }
  }

  /** RowsSparse when full row n - 1 is the sparse row m - 1. */
  lemma {:induction false} RowsSparseListed(xs: seq<real>, idx: seq<nat>, x: seq<real>, D: seq<real>, m: nat, n: nat)
    requires SparseOf(xs, idx, x) && Addressable(idx, D) && Tri(|x|) <= |D| && n <= |x|
    requires 0 < m <= |idx| && 0 < n && idx[m - 1] == n - 1 && SplitAt(idx, m - 1, n - 1)
    ensures var full := Range(0, |x|);
      Addressable(full, D) && RowsUpTo(xs, idx, D, m) == RowsUpTo(x, full, D, n)
    decreases n, 0
  {
    var full := Range(0, |x|);
    FullAddressable(|x|, D);
    RowsSparse(xs, idx, x, D, m - 1, n - 1);
    OffDiagonalSparse(xs, idx, x, D, m - 1, m - 1, n - 1);
    RowsStepListed(xs, idx, x, full, D, m, n, idx[m - 1], RowsUpTo(xs, idx, D, m - 1));
  }

  /** RowsSparse when full row n - 1 has no sparse row, so its value is zero. */
  lemma {:induction false} RowsSparseZero(xs: seq<real>, idx: seq<nat>, x: seq<real>, D: seq<real>, m: nat, n: nat)
    requires SparseOf(xs, idx, x) && Addressable(idx, D) && Tri(|x|) <= |D| && 0 < n <= |x|
    requires SplitAt(idx, m, n - 1) && n - 1 !in idx
    ensures var full := Range(0, |x|);
      Addressable(full, D) && RowsUpTo(xs, idx, D, m) == RowsUpTo(x, full, D, n)
    decreases n, 0
  {
    var full := Range(0, |x|);
    FullAddressable(|x|, D);
    assert ZeroUnlessListed(idx, x, n - 1);
    RowsSparse(xs, idx, x, D, m, n - 1);
    RowsStepZero(x, full, D, n, RowsUpTo(xs, idx, D, m));
  }

  /**
    Compacting to the significant basis functions is only an optimisation: the
    density over the compacted list equals the density over the whole
    zero-filled basis vector.
   */
  lemma SparseDensityIsFull(xs: seq<real>, idx: seq<nat>, x: seq<real>, D: seq<real>)
    requires SparseOf(xs, idx, x) && Tri(|x|) <= |D|
    ensures Addressable(idx, D)
    ensures DensityValue(xs, idx, D) == FullDensityValue(x, D)
  {
    assert Addressable(idx, D) by {
      forall t | 0 <= t < |idx| ensures PairIndex(idx[t], idx[t]) < |D| {
        PairIndexInRange(idx[t], idx[t], |x|);
      }
    }
    RowsSparse(xs, idx, x, D, |idx|, |x|);
  }

  /** One basis function: the density is x^2 times the single density entry. */
  lemma OneFunctionDensity(x0: real, d00: real)
    ensures Tri(1) == 1 && FullDensityValue([x0], [d00]) == x0 * x0 * d00
  {
    var idx: seq<nat> := Range(0, 1);
    var x, D := [x0], [d00];
    assert idx == [0];
    FullAddressable(1, D);
    assert Row(x, idx, D, 0) == x0 * x0 * d00;
    assert RowsUpTo(x, idx, D, 1) == RowsUpTo(x, idx, D, 0) + Row(x, idx, D, 0);
  }

  /**
    Two basis functions: the cross term carries weight 4 (the factor 2.0 is
    applied twice by the code), not the 2 of the symmetric quadratic form.
   */
  lemma TwoFunctionDensity(x0: real, x1: real, d00: real, d01: real, d11: real)
    ensures Tri(2) == 3
    ensures FullDensityValue([x0, x1], [d00, d01, d11])
         == x0 * x0 * d00 + 4.0 * x0 * x1 * d01 + x1 * x1 * d11
  {
    var idx: seq<nat> := Range(0, 2);
    var x, D := [x0, x1], [d00, d01, d11];
    assert idx == [0, 1];
    assert Tri(1) == 1 && Tri(2) == 3;
    FullAddressable(2, D);
    assert Row(x, idx, D, 0) == x0 * x0 * d00;
    assert OffDiagonal(x, idx, D, 1, 1) == 2.0 * (2.0 * x1 * x0) * d01;
    assert Row(x, idx, D, 1) == 2.0 * (2.0 * x1 * x0) * d01 + x1 * x1 * d11;
    assert RowsUpTo(x, idx, D, 2) == RowsUpTo(x, idx, D, 1) + Row(x, idx, D, 1);
    assert RowsUpTo(x, idx, D, 1) == RowsUpTo(x, idx, D, 0) + Row(x, idx, D, 0);
  }

  /**
    The density computed from the compacted significant basis functions at a
    point equals the full density over the zero-filled basis vector.
   */
  lemma SignificantDensityIsFull(shells: seq<Shell>, ev: Evaluator, p: Vec3, D: seq<real>)
    requires Tri(TotalBasis(shells)) <= |D|
    ensures |SigValues(shells, ev, p)| == |SigIndices(shells, ev, p)|
    ensures Addressable(SigIndices(shells, ev, p), D)
    ensures DensityValue(SigValues(shells, ev, p), SigIndices(shells, ev, p), D)
         == FullDensityValue(BasisVector(shells, ev, p), D)
  {
    SigShape(shells, ev, p);
    SigMatchesBasisVector(shells, ev, p);
    var idx, v := SigIndices(shells, ev, p), BasisVector(shells, ev, p);
    forall b | 0 <= b < |v| ensures ZeroUnlessListed(idx, v, b) {
    }
    SparseDensityIsFull(SigValues(shells, ev, p), SigIndices(shells, ev, p), BasisVector(shells, ev, p), D);
  }

  // ---------------------------------------------------------------------------
  // The symmetric quadratic form, and the density the pair buffer gives

  /** Entry (i, j) of the symmetric matrix whose lower triangle D packs, for a basis of |x| functions. */
  function Sym(x: seq<real>, D: seq<real>, i: nat, j: nat): real
    requires Tri(|x|) <= |D| && i < |x| && j < |x|
  {
    if j <= i then PairIndexInRange(i, j, |x|); D[PairIndex(i, j)]
    else PairIndexInRange(j, i, |x|); D[PairIndex(j, i)]
  }

  /** Row i of the quadratic form, over its first m columns: the sum of x_i x_j S_ij for j < m. */
  function RowForm(x: seq<real>, D: seq<real>, i: nat, m: nat): real
    requires Tri(|x|) <= |D| && i < |x| && m <= |x|
  {
    if m == 0 then 0.0 else RowForm(x, D, i, m - 1) + x[i] * x[m - 1] * Sym(x, D, i, m - 1)
  }

  /** Column m of the quadratic form, over its first k rows: the sum of x_i x_m S_im for i < k. */
  function ColumnForm(x: seq<real>, D: seq<real>, k: nat, m: nat): real
    requires Tri(|x|) <= |D| && k <= |x| && m < |x|
  {
    if k == 0 then 0.0 else ColumnForm(x, D, k - 1, m) + x[k - 1] * x[m] * Sym(x, D, k - 1, m)
  }

  /** The first k rows of the quadratic form, each over its first n columns. */
  function Form(x: seq<real>, D: seq<real>, k: nat, n: nat): real
    requires Tri(|x|) <= |D| && k <= |x| && n <= |x|
  {
    if k == 0 then 0.0 else Form(x, D, k - 1, n) + RowForm(x, D, k - 1, n)
  }

  /** The electron density as a quadratic form: the sum of x_i x_j S_ij over every i and j. */
  function QuadraticForm(x: seq<real>, D: seq<real>): real
    requires Tri(|x|) <= |D|
  {
    Form(x, D, |x|, |x|)
  }

  /** The first j entries of row i of the pair buffer, each times its density entry. */
  function PairRowSum(x: seq<real>, D: seq<real>, i: nat, j: nat): real
    requires Tri(|x|) <= |D| && j <= i + 1 && i < |x|
  {
    if j == 0 then 0.0
    else
      PairIndexInRange(i, j - 1, |x|);
      PairRowSum(x, D, i, j - 1) + PairValue(x, i, j - 1) * D[PairIndex(i, j - 1)]
  }

  /** The first m rows of the pair buffer weighted by D. */
  function PairsUpTo(x: seq<real>, D: seq<real>, m: nat): real
    requires Tri(|x|) <= |D| && m <= |x|
  {
    if m == 0 then 0.0 else PairsUpTo(x, D, m - 1) + PairRowSum(x, D, m - 1, m)
  }

  /**
    The density with each off-diagonal pair weighted by 2: the pair buffer
    of shellPairValues (2 x_i x_j below the diagonal, x_i x_i on it) summed
    against the packed density matrix.
   */
  function PairDensity(x: seq<real>, D: seq<real>): real
    requires Tri(|x|) <= |D|
  {
    PairsUpTo(x, D, |x|)
  }

  /** The first m rows' off-diagonal pair terms alone. */
  function CrossUpTo(x: seq<real>, D: seq<real>, m: nat): real
    requires Tri(|x|) <= |D| && m <= |x|
  {
    if m == 0 then 0.0 else CrossUpTo(x, D, m - 1) + PairRowSum(x, D, m - 1, m - 1)
  }

  /** The sum of 2 x_i x_j D_ij over the pairs j < i: the off-diagonal half of the quadratic form. */
  function CrossDensity(x: seq<real>, D: seq<real>): real
    requires Tri(|x|) <= |D|
  {
    CrossUpTo(x, D, |x|)
  }

  /** Widening every row by one column adds the new column. */
  lemma {:induction false} FormColumn(x: seq<real>, D: seq<real>, k: nat, n: nat)
    requires Tri(|x|) <= |D| && k <= |x| && n < |x|
    ensures Form(x, D, k, n + 1) == Form(x, D, k, n) + ColumnForm(x, D, k, n)
  {
    if k > 0 {
      FormColumn(x, D, k - 1, n);
    }
  }

  /** By symmetry, the part of column m above the diagonal equals the part of row m left of it. */
  lemma {:induction false} ColumnIsRow(x: seq<real>, D: seq<real>, k: nat, m: nat)
    requires Tri(|x|) <= |D| && k <= m < |x|
    ensures ColumnForm(x, D, k, m) == RowForm(x, D, m, k)
  {
    if k > 0 {
      ColumnIsRow(x, D, k - 1, m);
      var a, b, d := x[k - 1], x[m], Sym(x, D, k - 1, m);
      assert Sym(x, D, m, k - 1) == d;
      assert a * b * d == b * a * d;
    }
  }

  /** Below the diagonal the pair buffer holds twice the quadratic form's terms. */
  lemma {:induction false} PairRowIsTwiceRow(x: seq<real>, D: seq<real>, i: nat, j: nat)
    requires Tri(|x|) <= |D| && j <= i < |x|
    ensures PairRowSum(x, D, i, j) == 2.0 * RowForm(x, D, i, j)
  {
    if j > 0 {
      PairRowIsTwiceRow(x, D, i, j - 1);
      PairIndexInRange(i, j - 1, |x|);
      var a, b, d := x[i], x[j - 1], Sym(x, D, i, j - 1);
      assert PairValue(x, i, j - 1) * D[PairIndex(i, j - 1)] == 2.0 * a * b * d;
      assert 2.0 * a * b * d == 2.0 * (a * b * d);
    }
  }

  lemma {:induction false} PairsUpToIsForm(x: seq<real>, D: seq<real>, m: nat)
    requires Tri(|x|) <= |D| && m <= |x|
    ensures PairsUpTo(x, D, m) == Form(x, D, m, m)
  {
    if m > 0 {
      var k := m - 1;
      PairsUpToIsForm(x, D, k);
      FormColumn(x, D, k, k);
      ColumnIsRow(x, D, k, k);
      PairRowIsTwiceRow(x, D, k, k);
      assert RowForm(x, D, k, m) == RowForm(x, D, k, k) + x[k] * x[k] * Sym(x, D, k, k);
      assert PairRowSum(x, D, k, m) == PairRowSum(x, D, k, k) + x[k] * x[k] * Sym(x, D, k, k);
    }
  }

  /**
    Weighting each off-diagonal pair by 2 gives exactly the symmetric
    quadratic form: the sum of x_i x_j S_ij over all i and j.
   */
  lemma PairDensityIsQuadraticForm(x: seq<real>, D: seq<real>)
    requires Tri(|x|) <= |D|
    ensures PairDensity(x, D) == QuadraticForm(x, D)
  {
    PairsUpToIsForm(x, D, |x|);
  }

  /** Each off-diagonal term of densityValues is twice the pair buffer's term. */
  lemma {:induction false} OffDiagonalIsTwicePairs(x: seq<real>, D: seq<real>, i: nat, j: nat)
    requires Tri(|x|) <= |D| && j <= i < |x|
    ensures Addressable(Range(0, |x|), D)
    ensures OffDiagonal(x, Range(0, |x|), D, i, j) == 2.0 * PairRowSum(x, D, i, j)
  {
    FullAddressable(|x|, D);
    if j > 0 {
      OffDiagonalIsTwicePairs(x, D, i, j - 1);
      var full := Range(0, |x|);
      var a, b, d := x[i], x[j - 1], D[PairIndex(i, j - 1)];
      assert full[i] == i && full[j - 1] == j - 1;
      assert 2.0 * (2.0 * a * b) * d == 2.0 * ((2.0 * a * b) * d);
    }
  }

  lemma {:induction false} RowsUpToSplit(x: seq<real>, D: seq<real>, m: nat)
    requires Tri(|x|) <= |D| && m <= |x|
    ensures Addressable(Range(0, |x|), D)
    ensures RowsUpTo(x, Range(0, |x|), D, m) == PairsUpTo(x, D, m) + CrossUpTo(x, D, m)
  {
    FullAddressable(|x|, D);
    if m > 0 {
      var k, full := m - 1, Range(0, |x|);
      RowsUpToSplit(x, D, k);
      OffDiagonalIsTwicePairs(x, D, k, k);
      assert full[k] == k;
      PairIndexInRange(k, k, |x|);
      var o, w, d := OffDiagonal(x, full, D, k, k), x[k], D[PairIndex(k, k)];
      RowUnfold(x, full, D, k, o, w, d);
      RowsUpToUnfold(x, full, D, m, RowsUpTo(x, full, D, k), Row(x, full, D, k));
      assert PairRowSum(x, D, k, m) == PairRowSum(x, D, k, k) + w * w * d;
    }
  }

  /**
    The density densityValues computes is the weight-2 pair density plus the
    off-diagonal pair terms once more: the quadratic form with every
    off-diagonal contribution counted twice.
   */
  lemma FullDensitySplit(x: seq<real>, D: seq<real>)
    requires Tri(|x|) <= |D|
    ensures FullDensityValue(x, D) == PairDensity(x, D) + CrossDensity(x, D)
    ensures FullDensityValue(x, D) == QuadraticForm(x, D) + CrossDensity(x, D)
  {
    RowsUpToSplit(x, D, |x|);
    PairDensityIsQuadraticForm(x, D);
  }

  /** Two basis functions, weight 2: x0^2 D00 + 2 x0 x1 D01 + x1^2 D11. */
  lemma TwoFunctionPairDensity(x0: real, x1: real, d00: real, d01: real, d11: real)
    ensures Tri(2) == 3
    ensures PairDensity([x0, x1], [d00, d01, d11]) == x0 * x0 * d00 + 2.0 * x0 * x1 * d01 + x1 * x1 * d11
    ensures QuadraticForm([x0, x1], [d00, d01, d11]) == x0 * x0 * d00 + 2.0 * x0 * x1 * d01 + x1 * x1 * d11
  {
    var x, D := [x0, x1], [d00, d01, d11];
    assert Tri(1) == 1 && Tri(2) == 3;
    assert PairRowSum(x, D, 0, 1) == x0 * x0 * d00;
    assert PairRowSum(x, D, 1, 1) == 2.0 * x1 * x0 * d01;
    assert PairRowSum(x, D, 1, 2) == 2.0 * x1 * x0 * d01 + x1 * x1 * d11;
    assert PairsUpTo(x, D, 2) == PairsUpTo(x, D, 1) + PairRowSum(x, D, 1, 2);
    PairDensityIsQuadraticForm(x, D);
  }

  /**
    Unit values on two basis functions and a density matrix with a single
    off-diagonal 1: the symmetric quadratic form is 2, the code's loop gives 4.
   */
  lemma DensityWeightCounterexample()
    ensures Tri(2) == 3
    ensures QuadraticForm([1.0, 1.0], [0.0, 1.0, 0.0]) == 2.0
    ensures FullDensityValue([1.0, 1.0], [0.0, 1.0, 0.0]) == 4.0
  {
    TwoFunctionPairDensity(1.0, 1.0, 0.0, 1.0, 0.0);
    TwoFunctionDensity(1.0, 1.0, 0.0, 1.0, 0.0);
  }
}
