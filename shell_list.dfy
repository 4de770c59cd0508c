/**
  ShellList: the Gaussian basis shells of one molecule, with the buffers the
  per-point evaluations fill in place. The shell list is built once by the
  constructor; nBasis is the basis size the buffers are sized to; the density
  vectors and orbital coefficients are registered later and only read.
 */
module Data {
  import opened Shells
  import opened PackedTriangle
  import opened BasisLayout
  import opened Density
  import opened Orbitals
  import opened ShellConstruction
  import opened Bounds

  /**
    The n primitives read from the cursor position cnt on: the exponents
    scaled by conv, the coefficients, and the SP coefficients when there are
    any at all.
   */
  method ReadPrimitives(exponents: seq<real>, coefficients: seq<real>, coefficientsSP: seq<real>, conv: real, cnt: nat, n: nat)
    returns (expts: seq<real>, coefs: seq<real>, coefsSP: seq<real>)
    requires cnt + n <= |exponents| && cnt + n <= |coefficients|
    requires coefficientsSP == [] || cnt + n <= |coefficientsSP|
    ensures expts == Scale(exponents[cnt..cnt + n], conv)
    ensures coefs == coefficients[cnt..cnt + n]
    ensures coefsSP == if coefficientsSP == [] then [] else coefficientsSP[cnt..cnt + n]
  {
    expts, coefs, coefsSP := [], [], [];
    var c := cnt;
    for i := 0 to n
      invariant c == cnt + i
      invariant |expts| == i && forall t :: 0 <= t < i ==> expts[t] == exponents[cnt + t] * conv
      invariant coefs == coefficients[cnt..c]
      invariant coefsSP == if coefficientsSP == [] then [] else coefficientsSP[cnt..c]
    {
      expts := expts + [exponents[c] * conv];
      coefs := coefs + [coefficients[c]];
      if coefficientsSP != [] {
        coefsSP := coefsSP + [coefficientsSP[c]];
      }
      c := c + 1;
    }
    ghost var scaled := Scale(exponents[cnt..cnt + n], conv);
    forall t | 0 <= t < n ensures expts[t] == scaled[t] {
    }
  }

  /** The list with the shells of one input shell of type code appended. */
  method AppendShells(list: seq<Shell>, code: int, atom: nat, pos: Vec3, expts: seq<real>, coefs: seq<real>, coefsSP: seq<real>)
    returns (r: seq<Shell>)
    ensures r == list + Emit(code, atom, pos, expts, coefs, coefsSP)
  {
    r := list;
    if code == 0 {
      r := r + [Shell(S, atom, pos, expts, coefs)];
    } else if code == -1 {
      r := r + [Shell(S, atom, pos, expts, coefs)];
      r := r + [Shell(P, atom, pos, expts, coefsSP)];
    } else if code == 1 {
      r := r + [Shell(P, atom, pos, expts, coefs)];
    } else if code == -2 {
      r := r + [Shell(D5, atom, pos, expts, coefs)];
    } else if code == 2 {
      r := r + [Shell(D6, atom, pos, expts, coefs)];
    } else if code == -3 {
      r := r + [Shell(F7, atom, pos, expts, coefs)];
    } else if code == 3 {
      r := r + [Shell(F10, atom, pos, expts, coefs)];
    } else if code == -4 {
      r := r + [Shell(G9, atom, pos, expts, coefs)];
    } else if code == 4 {
      r := r + [Shell(G15, atom, pos, expts, coefs)];
    }
  }

  /**
    One step of the constructor's loop: input shell s, whose primitives
    start at the cursor position cnt, appended to the list as the shells its
    type code selects.
   */
  method ReadShell(data: ShellData, position: nat -> Vec3, convExponents: real, s: nat, cnt: nat, list: seq<Shell>)
    returns (r: seq<Shell>)
    requires WellFormed(data) && s < |data.shellTypes| && cnt == PrimStart(data, s)
    ensures r == list + EmitFor(data, convExponents, position, s)
  {
    var atom := data.shellToAtom[s] - 1;
    var pos := position(atom);
    PrimStartStep(data, s);
    PrimStartMonotone(data, s + 1, |data.shellTypes|);
    var expts, coefs, coefsSP := ReadPrimitives(data.exponents, data.contractionCoefficients, data.contractionCoefficientsSP,
                                                convExponents, cnt, data.shellPrimitives[s]);
    r := AppendShells(list, data.shellTypes[s], atom, pos, expts, coefs, coefsSP);
  }

  /**
    The constructor's loop over the input shells: a cursor walks the
    primitive arrays, and each input shell's type code selects the shells
    appended to the list.
   */
  method ReadShells(data: ShellData, position: nat -> Vec3, convExponents: real) returns (list: seq<Shell>, cnt: nat)
    requires WellFormed(data)
    ensures list == BuildShells(data, convExponents, position, |data.shellTypes|)
    ensures cnt == PrimStart(data, |data.shellTypes|) <= |data.exponents|
  {
    list := [];
    cnt := 0;
    for shell := 0 to |data.shellTypes|
      invariant list == BuildShells(data, convExponents, position, shell)
      invariant cnt == PrimStart(data, shell)
    {
      list := ReadShell(data, position, convExponents, shell, cnt, list);
      PrimStartStep(data, shell);
      cnt := cnt + data.shellPrimitives[shell];
    }
  }

  /** The loop of ShellList::nBasis: the shells' basis-function counts summed. */
  method CountBasis(shells: seq<Shell>) returns (n: nat)
    ensures n == TotalBasis(shells)
  {
    n := 0;
    for i := 0 to |shells|
      invariant n == Offset(shells, i)
    {
      OffsetStep(shells, i);
      n := n + shells[i].NBasis();
    }
    assert shells[..|shells|] == shells;
  }

  // ---------------------------------------------------------------------------
  // The inner loops of the per-point evaluations, over the buffers they write

  /** The inner copy loop of shellValues: values go to buf from slot at on. */
  method CopyAt(buf: array<real>, at: nat, values: seq<real>)
    requires at + |values| <= buf.Length
    modifies buf
    ensures buf[..at + |values|] == old(buf[..at]) + values
    ensures buf[at + |values|..] == old(buf[at + |values|..])
  {
    for i := 0 to |values|
      invariant forall t :: at <= t < at + i ==> buf[t] == values[t - at]
      invariant forall t :: 0 <= t < buf.Length && !(at <= t < at + i) ==> buf[t] == old(buf[t])
    {
      buf[at + i] := values[i];
    }
    assert buf[..at + |values|] == old(buf[..at]) + values;
    assert buf[at + |values|..] == old(buf[at + |values|..]);
  }

  /** The zero-filling loop of shellValues for a negligible shell: n zeros from slot at on. */
  method ZeroAt(buf: array<real>, at: nat, n: nat)
    requires at + n <= buf.Length
    modifies buf
    ensures buf[..at + n] == old(buf[..at]) + Zeros(n)
    ensures buf[at + n..] == old(buf[at + n..])
  {
    for i := 0 to n
      invariant forall t :: at <= t < at + i ==> buf[t] == 0.0
      invariant forall t :: 0 <= t < buf.Length && !(at <= t < at + i) ==> buf[t] == old(buf[t])
    {
      buf[at + i] := 0.0;
    }
    assert buf[..at + n] == old(buf[..at]) + Zeros(n);
    assert buf[at + n..] == old(buf[at + n..]);
  }

  /**
    Row i of shellPairValues' packed triangle, written with the running
    slot counter k, which enters the row at Tri(i) and leaves it at
    Tri(i + 1): 2 x_i x_j for each j < i, then x_i x_i.
   */
  method PairRow(values: array<real>, pairs: array<real>, i: nat, k0: nat) returns (k: nat)
    requires values != pairs && i < values.Length && Tri(i + 1) <= pairs.Length
    requires k0 == Tri(i)
    modifies pairs
    ensures k == Tri(i + 1)
    ensures forall j :: 0 <= j <= i ==> pairs[PairIndex(i, j)] == PairValue(values[..], i, j)
    ensures forall t :: 0 <= t < Tri(i) ==> pairs[t] == old(pairs[t])
    ensures forall t :: Tri(i + 1) <= t < pairs.Length ==> pairs[t] == old(pairs[t])
  {
    k := k0;
    var xi := values[i];
    for j := 0 to i
      invariant k == Tri(i) + j
      invariant forall j' :: 0 <= j' < j ==> pairs[PairIndex(i, j')] == PairValue(values[..], i, j')
      invariant forall t :: 0 <= t < Tri(i) ==> pairs[t] == old(pairs[t])
      invariant forall t :: k <= t < pairs.Length ==> pairs[t] == old(pairs[t])
    {
      var xj := values[j];
      pairs[k] := 2.0 * xi * xj;
      k := k + 1;
    }
    pairs[k] := xi * xi;
    k := k + 1;
  }

  /**
    The inner loop of densityValues' compaction for one significant shell:
    its values and their basis indices, from basoff on, appended at nSig.
   */
  method GatherShell(vals: array<real>, sig: array<nat>, nSig: nat, basoff: nat, values: seq<real>)
    requires nSig + |values| <= vals.Length && nSig + |values| <= sig.Length
    modifies vals, sig
    ensures vals[..nSig + |values|] == old(vals[..nSig]) + values
    ensures sig[..nSig + |values|] == old(sig[..nSig]) + Range(basoff, |values|)
    ensures vals[nSig + |values|..] == old(vals[nSig + |values|..])
    ensures sig[nSig + |values|..] == old(sig[nSig + |values|..])
  {
    for i := 0 to |values|
      invariant forall t :: 0 <= t < nSig ==> vals[t] == old(vals[t]) && sig[t] == old(sig[t])
      invariant forall t :: nSig <= t < nSig + i ==> vals[t] == values[t - nSig] && sig[t] == basoff + (t - nSig)
      invariant forall t :: nSig + i <= t < vals.Length ==> vals[t] == old(vals[t])
      invariant forall t :: nSig + i <= t < sig.Length ==> sig[t] == old(sig[t])
    {
      vals[nSig + i] := values[i];
      sig[nSig + i] := basoff + i;
    }
    assert vals[..nSig + |values|] == old(vals[..nSig]) + values;
    assert sig[..nSig + |values|] == old(sig[..nSig]) + Range(basoff, |values|);
    assert vals[nSig + |values|..] == old(vals[nSig + |values|..]);
    assert sig[nSig + |values|..] == old(sig[nSig + |values|..]);
  }

  /**
    One shell of densityValues' compaction: shell s of the list, whose basis
    functions start at basoff, appended at nSig when it is significant at p.
   */
  method GatherStep(list: seq<Shell>, ev: Evaluator, p: Vec3, vals: array<real>, sig: array<nat>, s: nat, basoff: nat, nSig: nat)
    returns (next: nat)
    requires s < |list| && TotalBasis(list) <= vals.Length && TotalBasis(list) <= sig.Length
    requires basoff == Offset(list, s) <= TotalBasis(list) && nSig == |SigIndices(list[..s], ev, p)| <= basoff
    requires sig[..nSig] == SigIndices(list[..s], ev, p) && vals[..nSig] == SigValues(list[..s], ev, p)
    modifies vals, sig
    ensures nSig <= next == |SigIndices(list[..s + 1], ev, p)| <= Offset(list, s + 1) <= TotalBasis(list)
    ensures sig[..next] == SigIndices(list[..s + 1], ev, p) && vals[..next] == SigValues(list[..s + 1], ev, p)
    ensures vals[next..] == old(vals[next..]) && sig[next..] == old(sig[next..])
  {
    var values := ev(list[s], p);
    OffsetStep(list, s);
    OffsetMonotone(list, s + 1, |list|);
    assert list[..s + 1][..s] == list[..s];
    next := nSig;
    if values.Some? {
      GatherShell(vals, sig, nSig, basoff, values.value);
      next := nSig + |values.value|;
    }
  }

  /** A suffix kept from orig to mid, then a shorter suffix kept from mid to now, is kept from orig to now. */
  lemma SuffixKept<T>(orig: seq<T>, mid: seq<T>, now: seq<T>, i: nat, m: nat)
    requires i + m <= |orig| == |mid| == |now|
    requires mid[i..] == orig[i..] && now[i + m..] == mid[i + m..]
    ensures now[i + m..] == orig[i + m..]
  {
    assert mid[i + m..] == mid[i..][m..];
    assert orig[i + m..] == orig[i..][m..];
  }

  /** Adds w times slot of each density vector to that vector's output value. */
  method AddDensityTerms(ds: seq<seq<real>>, out: array<real>, w: real, slot: nat)
    requires out.Length == |ds|
    requires forall k :: 0 <= k < |ds| ==> slot < |ds[k]|
    modifies out
    ensures forall k :: 0 <= k < |ds| ==> out[k] == old(out[k]) + w * ds[k][slot]
  {
    for k := 0 to |ds|
      invariant forall k' :: 0 <= k' < k ==> out[k'] == old(out[k']) + w * ds[k'][slot]
      invariant forall k' :: k <= k' < |ds| ==> out[k'] == old(out[k'])
    {
      out[k] := out[k] + w * ds[k][slot];
    }
  }

  /**
    Row i of densityValues' pair loop over the gathered list (xs, idx): for
    every density vector D, the terms 2 (2 x_i x_j) D[T(ii) + jj] for j < i and
    then x_i x_i D[T(ii) + ii].
   */
  method AddDensityRow(ds: seq<seq<real>>, out: array<real>, xs: seq<real>, idx: seq<nat>, i: nat)
    requires out.Length == |ds| && |xs| == |idx| && i < |idx| && StrictlyIncreasing(idx)
    requires forall k :: 0 <= k < |ds| ==> Addressable(idx, ds[k])
    modifies out
    ensures forall k :: 0 <= k < |ds| ==> out[k] == old(out[k]) + Row(xs, idx, ds[k], i)
  {
    var xi := xs[i];
    var ii := idx[i];
    var ti := (ii * (ii + 1)) / 2;
    TriFormula(ii);
    for j := 0 to i
      invariant forall k :: 0 <= k < |ds| ==> out[k] == old(out[k]) + OffDiagonal(xs, idx, ds[k], i, j)
    {
      var xij := 2.0 * xi * xs[j];
      var jj := idx[j];
      assert jj < ii;
      AddDensityTerms(ds, out, 2.0 * xij, ti + jj);
      forall k | 0 <= k < |ds|
        ensures out[k] == old(out[k]) + OffDiagonal(xs, idx, ds[k], i, j + 1)
      {
        OffDiagonalUnfold(xs, idx, ds[k], i, j + 1, OffDiagonal(xs, idx, ds[k], i, j), xi, xs[j], ds[k][ti + jj]);
      }
    }
    AddDensityTerms(ds, out, xi * xi, ti + ii);
    forall k | 0 <= k < |ds|
      ensures out[k] == old(out[k]) + Row(xs, idx, ds[k], i)
    {
      RowUnfold(xs, idx, ds[k], i, OffDiagonal(xs, idx, ds[k], i, i), xi, ds[k][ti + ii]);
    }
  }

  /** Adds value times column col of each requested coefficient row to that orbital's output value. */
  method AddOrbitalTerms(C: seq<seq<real>>, rows: seq<int>, out: array<real>, col: nat, value: real)
    requires out.Length == |rows|
    requires forall k :: 0 <= k < |rows| ==> 0 <= rows[k] < |C| && col < |C[rows[k]]|
    modifies out
    ensures forall k :: 0 <= k < |rows| ==> out[k] == old(out[k]) + C[rows[k]][col] * value
  {
    for k := 0 to |rows|
      invariant forall k' :: 0 <= k' < k ==> out[k'] == old(out[k']) + C[rows[k']][col] * value
      invariant forall k' :: k <= k' < |rows| ==> out[k'] == old(out[k'])
    {
      out[k] := out[k] + C[rows[k]][col] * value;
    }
  }

  /**
    The inner loop of orbitalValues for one significant shell: each orbital
    gains the dot product of its coefficients from basoff on with the
    shell's values.
   */
  method AddShellOrbitals(C: seq<seq<real>>, rows: seq<int>, out: array<real>, basoff: nat, values: seq<real>)
    requires out.Length == |rows|
    requires forall k :: 0 <= k < |rows| ==> 0 <= rows[k] < |C| && basoff + |values| <= |C[rows[k]]|
    modifies out
    ensures forall k :: 0 <= k < |rows| ==> out[k] == old(out[k]) + DotAt(C[rows[k]], basoff, values, |values|)
  {
    for i := 0 to |values|
      invariant forall k :: 0 <= k < |rows| ==> out[k] == old(out[k]) + DotAt(C[rows[k]], basoff, values, i)
    {
      AddOrbitalTerms(C, rows, out, basoff + i, values[i]);
    }
  }

  class ShellList {
    var shells: seq<Shell>
    /** The basis size the buffers were last sized for (m_nBasis). */
    var nBasis: nat
    /** Basis-function values at the last point, or the significant ones first after DensityValues. */
    var basisValues: array<real>
    /** The basis index of each significant value DensityValues gathered. */
    var sigBasis: array<nat>
    /** Packed lower triangle of basis-pair products. */
    var basisPairValues: array<real>
    var overlap: Option<seq<real>>
    /** Packed-triangular density matrices, one per requested density. */
    var densityVectors: seq<seq<real>>
    var densityValues: array<real>
    /** Rows of the orbital coefficient matrix, and the rows asked for. */
    var orbitalCoefficients: seq<seq<real>>
    var orbitalIndices: seq<int>
    var orbitalValues: array<real>

    /** The output buffers match what has been registered. */
    ghost predicate Registered()
      reads this
    {
      && densityValues.Length == |densityVectors|
      && orbitalValues.Length == |orbitalIndices|
      && densityValues != orbitalValues
    }

    /** The basis buffers are sized for the current shells and no two real buffers share storage. */
    ghost predicate Valid()
      reads this
    {
      && nBasis == TotalBasis(shells)
      && basisValues.Length == nBasis
      && sigBasis.Length == nBasis
      && basisPairValues.Length == Tri(nBasis)
      && Registered()
      && basisValues != basisPairValues && basisValues != densityValues && basisValues != orbitalValues
      && basisPairValues != densityValues && basisPairValues != orbitalValues
    }

    /**
      Builds the shells from the flat data: a cursor walks the primitive
      arrays, each input shell's type code selects the shells appended, and
      the overlap matrix is kept only when it has one entry per basis pair.
     */
    constructor (data: ShellData, position: nat -> Vec3, convExponents: real)
      requires WellFormed(data)
      ensures Valid()
      ensures shells == BuildShells(data, convExponents, position, |data.shellTypes|)
      ensures overlap == if |data.overlapMatrix| == Tri(TotalBasis(shells)) then Some(data.overlapMatrix) else None
      ensures densityVectors == [] && orbitalCoefficients == [] && orbitalIndices == []
    {
      var list, _ := ReadShells(data, position, convExponents);
      var n := CountBasis(list);
      TriFormula(n);
      shells := list;
      nBasis := 0;
      basisValues, sigBasis, basisPairValues := new real[0], new nat[0], new real[0];
      overlap := if |data.overlapMatrix| == (n + 1) * n / 2 then Some(data.overlapMatrix) else None;
      densityVectors, densityValues := [], new real[0];
      orbitalCoefficients, orbitalIndices, orbitalValues := [], [], new real[0];
      new;
      Resize();
    }

    /** The number of basis functions: the shells' counts summed. */
    method NBasis() returns (n: nat)
      ensures n == TotalBasis(shells)
    {
      n := CountBasis(shells);
    }

    /**
      Re-sizes the basis buffers for the current shells: one slot per basis
      function for the values and the significant indices, one per basis
      pair for the pair products. The branch for an odd n(n+1) cannot run.
     */
    method Resize()
      requires Registered()
      modifies this
      ensures Valid()
      ensures fresh(basisValues) && fresh(sigBasis) && fresh(basisPairValues)
      ensures shells == old(shells) && overlap == old(overlap)
      ensures densityVectors == old(densityVectors) && densityValues == old(densityValues)
      ensures orbitalCoefficients == old(orbitalCoefficients) && orbitalIndices == old(orbitalIndices)
      ensures orbitalValues == old(orbitalValues)
    {
      var n := NBasis();
      nBasis := n;
      basisValues := new real[nBasis];
      sigBasis := new nat[nBasis];
      var size := nBasis * (nBasis + 1) / 2;
      TriFormula(nBasis);
      if 2 * size != nBasis * (nBasis + 1) {
        assert false;
        size := size + 1;
      }
      basisPairValues := new real[size];
    }

    /** The shell index at which each atom's shells begin. */
    method ShellAtomOffsets() returns (offsets: seq<nat>)
      ensures offsets == AtomStarts(shells)
    {
      offsets := [0];
      var atomIndex := 0;
      for k := 0 to |shells|
        invariant offsets == AtomStarts(shells[..k])
        invariant atomIndex == |offsets| - 1
      {
        assert shells[..k + 1][..k] == shells[..k];
        if shells[k].atom != atomIndex {
          offsets := offsets + [k];
          atomIndex := atomIndex + 1;
        }
      }
      assert shells[..|shells|] == shells;
    }

    /** The basis index at which each atom's basis functions begin. */
    method BasisAtomOffsets() returns (offsets: seq<nat>)
      ensures offsets == BasisAtomStarts(shells)
      ensures forall a :: 0 <= a < |offsets| ==>
        AtomStarts(shells)[a] <= |shells| && offsets[a] == Offset(shells, AtomStarts(shells)[a])
    {
      offsets := [0];
      var k := 0;
      var atomIndex := 0;
      for s := 0 to |shells|
        invariant offsets == BasisAtomStarts(shells[..s])
        invariant atomIndex == |offsets| - 1
        invariant k == TotalBasis(shells[..s])
      {
        assert shells[..s + 1][..s] == shells[..s];
        if shells[s].atom != atomIndex {
          offsets := offsets + [k];
          atomIndex := atomIndex + 1;
        }
        k := k + shells[s].NBasis();
      }
      assert shells[..|shells|] == shells;
      BasisAtomStartsAreOffsets(shells);
    }

    /**
      Fills the basis values at p shell by shell, each shell's values at its
      basis offset. Every shell must be significant at p: this form of the
      evaluation does not handle a negligible shell.
     */
    method ShellValuesAt(ev: Evaluator, p: Vec3)
      requires Valid() && AllSignificant(shells, ev, p)
      modifies basisValues
      ensures basisValues[..] == BasisVector(shells, ev, p)
    {
      var list, buf := shells, basisValues;
      var offset := 0;
      for s := 0 to |list|
        invariant offset == Offset(list, s) <= buf.Length
        invariant buf[..offset] == BasisVector(list[..s], ev, p)
      {
        var values := ev(list[s], p).value;
        OffsetStep(list, s);
        OffsetMonotone(list, s + 1, |list|);
        CopyAt(buf, offset, values);
        assert list[..s + 1][..s] == list[..s];
        offset := offset + |values|;
      }
      assert list[..|list|] == list;
      assert buf[..] == buf[..offset];
    }

    /**
      Fills the basis values at p shell by shell: a significant shell's
      values at its basis offset, zeros for a negligible one.
     */
    method ShellValues(ev: Evaluator, p: Vec3)
      requires Valid()
      modifies basisValues
      ensures basisValues[..] == BasisVector(shells, ev, p)
    {
      var list, buf := shells, basisValues;
      var offset := 0;
      for s := 0 to |list|
        invariant offset == Offset(list, s) <= buf.Length
        invariant buf[..offset] == BasisVector(list[..s], ev, p)
      {
        var values := ev(list[s], p);
        var numbas := list[s].NBasis();
        OffsetStep(list, s);
        OffsetMonotone(list, s + 1, |list|);
        if values.Some? {
          CopyAt(buf, offset, values.value);
        } else {
          ZeroAt(buf, offset, numbas);
        }
        assert list[..s + 1][..s] == list[..s];
        offset := offset + numbas;
      }
      assert list[..|list|] == list;
      assert buf[..] == buf[..offset];
    }

    /**
      Fills the basis values at p (every shell significant) and then the
      packed triangle of pair products: slot PairIndex(i, j) holds
      2 x_i x_j below the diagonal and x_i x_i on it.
     */
    method ShellPairValues(ev: Evaluator, p: Vec3)
      requires Valid() && AllSignificant(shells, ev, p)
      modifies basisValues, basisPairValues
      ensures basisValues[..] == BasisVector(shells, ev, p)
      ensures forall i, j :: 0 <= j <= i < nBasis ==>
        PairIndex(i, j) < basisPairValues.Length && basisPairValues[PairIndex(i, j)] == PairValue(BasisVector(shells, ev, p), i, j)
    {
      ShellValuesAt(ev, p);
      var n, values, pairs := nBasis, basisValues, basisPairValues;
      var k := 0;
      for i := 0 to n
        modifies pairs
        invariant k == Tri(i) <= pairs.Length
        invariant forall i', j' :: 0 <= j' <= i' < i ==>
          PairIndex(i', j') < Tri(i) && pairs[PairIndex(i', j')] == PairValue(values[..], i', j')
      {
        TriMonotone(i + 1, n);
        k := PairRow(values, pairs, i, k);
        RowsBelow(i);
      }
      RowsBelow(n);
    }

    /** Registers the density vectors and sizes the output to one value per vector. */
    method SetDensityVectors(ds: seq<seq<real>>)
      requires Valid()
      modifies this
      ensures Valid()
      ensures densityVectors == ds && fresh(densityValues)
      ensures shells == old(shells) && nBasis == old(nBasis) && overlap == old(overlap)
      ensures basisValues == old(basisValues) && sigBasis == old(sigBasis) && basisPairValues == old(basisPairValues)
      ensures orbitalCoefficients == old(orbitalCoefficients) && orbitalIndices == old(orbitalIndices)
      ensures orbitalValues == old(orbitalValues)
    {
      densityVectors := ds;
      densityValues := new real[|ds|];
    }

    /**
      Gathers the significant basis functions at p: their values to the
      front of basisValues and their basis indices to the front of sigBasis.
     */
    method GatherSignificant(ev: Evaluator, p: Vec3) returns (nSig: nat)
      requires Valid()
      modifies basisValues, sigBasis
      ensures nSig == |SigIndices(shells, ev, p)| <= nBasis
      ensures sigBasis[..nSig] == SigIndices(shells, ev, p)
      ensures basisValues[..nSig] == SigValues(shells, ev, p)
      ensures basisValues[nSig..] == old(basisValues[nSig..]) && sigBasis[nSig..] == old(sigBasis[nSig..])
    {
      var list, n, vals, sig := shells, nBasis, basisValues, sigBasis;
      nSig := 0;
      var basoff := 0;
      for s := 0 to |list|
        invariant basoff == Offset(list, s) <= n && nSig == |SigIndices(list[..s], ev, p)| <= basoff
        invariant sig[..nSig] == SigIndices(list[..s], ev, p) && vals[..nSig] == SigValues(list[..s], ev, p)
        invariant vals[nSig..] == old(vals[nSig..]) && sig[nSig..] == old(sig[nSig..])
      {
        ghost var valsBefore, sigBefore := vals[..], sig[..];
        var next := GatherStep(list, ev, p, vals, sig, s, basoff, nSig);
        SuffixKept(old(vals[..]), valsBefore, vals[..], nSig, next - nSig);
        SuffixKept(old(sig[..]), sigBefore, sig[..], nSig, next - nSig);
        OffsetStep(list, s);
        nSig, basoff := next, basoff + list[s].NBasis();
      }
      assert list[..|list|] == list;
      SigShape(list, ev, p);
    }

    /**
      The pair loop of densityValues: for each density vector, the sum over
      the rows of the gathered list's lower triangle.
     */
    method AccumulateDensity(nSig: nat)
      requires Valid() && nSig <= nBasis && StrictlyIncreasing(sigBasis[..nSig])
      requires forall k :: 0 <= k < |densityVectors| ==> Addressable(sigBasis[..nSig], densityVectors[k])
      modifies densityValues
      ensures forall k :: 0 <= k < |densityVectors| ==>
        densityValues[k] == DensityValue(basisValues[..nSig], sigBasis[..nSig], densityVectors[k])
    {
      var ds, out := densityVectors, densityValues;
      var xs, idx := basisValues[..nSig], sigBasis[..nSig];
      for k := 0 to |ds|
        invariant forall k' :: 0 <= k' < k ==> out[k'] == 0.0
      {
        out[k] := 0.0;
      }
      for i := 0 to nSig
        invariant forall k :: 0 <= k < |ds| ==> out[k] == RowsUpTo(xs, idx, ds[k], i)
      {
        AddDensityRow(ds, out, xs, idx, i);
        forall k | 0 <= k < |ds| ensures out[k] == RowsUpTo(xs, idx, ds[k], i + 1) {
          RowsUpToUnfold(xs, idx, ds[k], i + 1, RowsUpTo(xs, idx, ds[k], i), Row(xs, idx, ds[k], i));
        }
      }
    }

    /**
      The electron densities at p, one per registered density vector,
      computed over the significant basis functions only. The loop weights
      each off-diagonal pair by 4, so the result is the quadratic form of the
      basis vector with the packed density matrix plus its off-diagonal half
      once more.
     */
    method DensityValues(ev: Evaluator, p: Vec3)
      requires Valid()
      requires forall k :: 0 <= k < |densityVectors| ==> Tri(nBasis) <= |densityVectors[k]|
      modifies basisValues, sigBasis, densityValues
      ensures |SigIndices(shells, ev, p)| <= nBasis
      ensures sigBasis[..|SigIndices(shells, ev, p)|] == SigIndices(shells, ev, p)
      ensures basisValues[..|SigIndices(shells, ev, p)|] == SigValues(shells, ev, p)
      ensures basisValues[|SigIndices(shells, ev, p)|..] == old(basisValues[|SigIndices(shells, ev, p)|..])
      ensures sigBasis[|SigIndices(shells, ev, p)|..] == old(sigBasis[|SigIndices(shells, ev, p)|..])
      ensures forall k :: 0 <= k < |densityVectors| ==>
        densityValues[k] == FullDensityValue(BasisVector(shells, ev, p), densityVectors[k])
      ensures forall k :: 0 <= k < |densityVectors| ==>
        densityValues[k] == QuadraticForm(BasisVector(shells, ev, p), densityVectors[k])
                            + CrossDensity(BasisVector(shells, ev, p), densityVectors[k])
    {
      var nSig := GatherSignificant(ev, p);
      SigShape(shells, ev, p);
      forall k | 0 <= k < |densityVectors|
        ensures Addressable(sigBasis[..nSig], densityVectors[k])
        ensures DensityValue(SigValues(shells, ev, p), SigIndices(shells, ev, p), densityVectors[k])
             == FullDensityValue(BasisVector(shells, ev, p), densityVectors[k])
      {
        SignificantDensityIsFull(shells, ev, p, densityVectors[k]);
      }
      AccumulateDensity(nSig);
      forall k | 0 <= k < |densityVectors|
        ensures densityValues[k] == QuadraticForm(BasisVector(shells, ev, p), densityVectors[k])
                                    + CrossDensity(BasisVector(shells, ev, p), densityVectors[k])
      {
        FullDensitySplit(BasisVector(shells, ev, p), densityVectors[k]);
      }
    }

    /** Registers the coefficient matrix and the orbitals wanted, one output value per orbital. */
    method SetOrbitalVectors(coefficients: seq<seq<real>>, indices: seq<int>)
      requires Valid()
      modifies this
      ensures Valid()
      ensures orbitalCoefficients == coefficients && orbitalIndices == indices && fresh(orbitalValues)
      ensures shells == old(shells) && nBasis == old(nBasis) && overlap == old(overlap)
      ensures basisValues == old(basisValues) && sigBasis == old(sigBasis) && basisPairValues == old(basisPairValues)
      ensures densityVectors == old(densityVectors) && densityValues == old(densityValues)
    {
      orbitalIndices := indices;
      orbitalCoefficients := coefficients;
      orbitalValues := new real[|indices|];
    }

    /**
      The amplitude at p of each registered orbital: the dot product of its
      coefficient row with the basis vector, summed over the significant
      shells while the basis offset advances over every shell.
     */
    method OrbitalValues(ev: Evaluator, p: Vec3)
      requires Valid()
      requires forall k :: 0 <= k < |orbitalIndices| ==>
        0 <= orbitalIndices[k] < |orbitalCoefficients| && nBasis <= |orbitalCoefficients[orbitalIndices[k]]|
      modifies orbitalValues
      ensures forall k :: 0 <= k < |orbitalIndices| ==>
        orbitalValues[k] == Dot(orbitalCoefficients[orbitalIndices[k]], BasisVector(shells, ev, p))
    {
      var list, C, rows, out := shells, orbitalCoefficients, orbitalIndices, orbitalValues;
      for k := 0 to |rows|
        invariant forall k' :: 0 <= k' < k ==> out[k'] == 0.0
      {
        out[k] := 0.0;
      }
      var basoff := 0;
      for s := 0 to |list|
        invariant basoff == Offset(list, s) <= TotalBasis(list)
        invariant forall k :: 0 <= k < |rows| ==> out[k] == OrbitalValue(list[..s], ev, p, C[rows[k]])
      {
        var values := ev(list[s], p);
        var numbas := list[s].NBasis();
        OffsetStep(list, s);
        OffsetMonotone(list, s + 1, |list|);
        if values.Some? {
          AddShellOrbitals(C, rows, out, basoff, values.value);
        }
        forall k | 0 <= k < |rows|
          ensures out[k] == OrbitalValue(list[..s + 1], ev, p, C[rows[k]])
        {
          OrbitalValueStep(list, ev, p, C[rows[k]], s);
        }
        basoff := basoff + numbas;
      }
      assert list[..|list|] == list;
      forall k | 0 <= k < |rows|
        ensures out[k] == Dot(C[rows[k]], BasisVector(list, ev, p))
      {
        OrbitalIsDot(list, ev, p, C[rows[k]]);
      }
    }

    /**
      The box around all shells at a threshold: the origin box when there
      are none, else the first shell's box widened by every shell's box.
     */
    method BoundingBox(shellBox: BoxQuery, thresh: real) returns (b: Box)
      ensures b == BoundingBoxOf(shells, shellBox, thresh)
    {
      if |shells| == 0 {
        return Box(Vec3(0.0, 0.0, 0.0), Vec3(0.0, 0.0, 0.0));
      }
      b := shellBox(shells[0], thresh);
      ghost var boxes := ShellBoxes(shells, shellBox, thresh);
      for k := 0 to |shells|
        invariant b == WidenAll(shellBox(shells[0], thresh), boxes[..k])
      {
        var t := shellBox(shells[k], thresh);
        assert boxes[..k + 1][..k] == boxes[..k];
        b := Widen(b, t);
      }
      assert boxes[..|shells|] == boxes;
    }

    /**
      The shell-type tally of dump: the number of shells of each kind, the
      basis count they add up to by the count table, and whether that count
      agrees with NBasis.
     */
    method Dump() returns (tally: Tally, n: nat, ok: bool)
      ensures tally == TallyOf(shells)
      ensures n == TallyBasis(tally) == TotalBasis(shells)
      ensures ok
    {
      n := 0;
      tally := Tally(0, 0, 0, 0, 0, 0, 0, 0);
      for k := 0 to |shells|
        invariant tally == TallyOf(shells[..k])
        invariant n == Offset(shells, k)
      {
        TallyStep(shells, k);
        OffsetStep(shells, k);
        match shells[k].kind {
          case S => tally := tally.(s := tally.s + 1); n := n + 1;
          case P => tally := tally.(p := tally.p + 1); n := n + 3;
          case D5 => tally := tally.(d5 := tally.d5 + 1); n := n + 5;
          case D6 => tally := tally.(d6 := tally.d6 + 1); n := n + 6;
          case F7 => tally := tally.(f7 := tally.f7 + 1); n := n + 7;
          case F10 => tally := tally.(f10 := tally.f10 + 1); n := n + 10;
          case G9 => tally := tally.(g9 := tally.g9 + 1); n := n + 9;
          case G15 => tally := tally.(g15 := tally.g15 + 1); n := n + 15;
        }
      }
      assert shells[..|shells|] == shells;
      TallyMatchesTotal(shells);
      var total := NBasis();
      ok := n == total;
    }
  }
}
