/**
  Molecular-orbital amplitudes at a point: for a coefficient row c (one
  selected orbital), the sum over significant shells of c[basis index] times
  the shell's basis-function value, accumulated shell by shell with a running
  basis offset that also advances over negligible shells.
 */
module Orbitals {
  import opened Shells
  import opened BasisLayout

  /** Sum over t < n of c[off + t] * v[t]. */
  function DotAt(c: seq<real>, off: nat, v: seq<real>, n: nat): real
    requires n <= |v| && off + n <= |c|
  {
    if n == 0 then 0.0 else DotAt(c, off, v, n - 1) + c[off + n - 1] * v[n - 1]
  }

  /** The plain dot product of v with the first |v| entries of c. */
  function Dot(c: seq<real>, v: seq<real>): real
    requires |v| <= |c|
  {
    DotAt(c, 0, v, |v|)
  }

  /** Orbital value at p for coefficient row c (one entry of orbitalValues). */
  function OrbitalValue(shells: seq<Shell>, ev: Evaluator, p: Vec3, c: seq<real>): real
    requires TotalBasis(shells) <= |c|
  {
    if shells == [] then 0.0
    else
      var prefix, last := shells[..|shells| - 1], shells[|shells| - 1];
      OrbitalValue(prefix, ev, p, c)
        + match ev(last, p)
          case Some(v) => DotAt(c, TotalBasis(prefix), v, |v|)
          case None => 0.0
  }

  /** Taking one more shell of the list adds that shell's term to the orbital value. */
  lemma OrbitalValueStep(shells: seq<Shell>, ev: Evaluator, p: Vec3, c: seq<real>, s: nat)
    requires s < |shells| && TotalBasis(shells) <= |c|
    ensures Offset(shells, s) + shells[s].NBasis() == Offset(shells, s + 1) <= |c|
    ensures OrbitalValue(shells[..s + 1], ev, p, c)
         == OrbitalValue(shells[..s], ev, p, c)
            + match ev(shells[s], p)
              case Some(v) => DotAt(c, Offset(shells, s), v, |v|)
              case None => 0.0
  {
    OffsetStep(shells, s);
    OffsetMonotone(shells, s + 1, |shells|);
    assert shells[..s + 1][..s] == shells[..s];
  }

  lemma {:induction false} DotAtZeros(c: seq<real>, off: nat, n: nat, m: nat)
    requires m <= n && off + m <= |c|
    ensures DotAt(c, off, Zeros(n), m) == 0.0
  {
    if m > 0 {
      DotAtZeros(c, off, n, m - 1);
    }
  }

  /** A dot product over a concatenation splits at the seam. */
  lemma {:induction false} DotAtAppend(c: seq<real>, a: seq<real>, b: seq<real>, m: nat)
    requires m <= |b| && |a| + |b| <= |c|
    ensures DotAt(c, 0, a + b, |a| + m) == Dot(c, a) + DotAt(c, |a|, b, m)
  {
    if m == 0 {
      DotAtPrefix(c, a, b, |a|);
    } else {
      DotAtAppend(c, a, b, m - 1);
      assert (a + b)[|a| + m - 1] == b[m - 1];
    }
  }

  /** Only the first n entries of v take part in DotAt(c, 0, v, n). */
  lemma {:induction false} DotAtPrefix(c: seq<real>, a: seq<real>, b: seq<real>, n: nat)
    requires n <= |a| && |a| + |b| <= |c|
    ensures DotAt(c, 0, a + b, n) == DotAt(c, 0, a, n)
  {
    if n > 0 {
      DotAtPrefix(c, a, b, n - 1);
      assert (a + b)[n - 1] == a[n - 1];
    }
  }

  /**
    Skipping negligible shells is only an optimisation: the orbital value is
    the dot product of the coefficient row with the whole zero-filled basis
    vector.
   */
  lemma {:induction false} OrbitalIsDot(shells: seq<Shell>, ev: Evaluator, p: Vec3, c: seq<real>)
    requires TotalBasis(shells) <= |c|
    ensures OrbitalValue(shells, ev, p, c) == Dot(c, BasisVector(shells, ev, p))
  {
    if shells != [] {
      var prefix, last := shells[..|shells| - 1], shells[|shells| - 1];
      OrbitalIsDot(prefix, ev, p, c);
      var v0, blk := BasisVector(prefix, ev, p), Block(last, ev(last, p));
      DotAtAppend(c, v0, blk, |blk|);
      if ev(last, p).None? {
        DotAtZeros(c, |v0|, |blk|, |blk|);
      }
    }
  }
}
