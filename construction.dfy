/**
  How the ShellList constructor turns the flat shell data of a formatted
  checkpoint into shells. Input shell s owns prims[s] consecutive primitives
  of the flat exponent and coefficient arrays, found by a running cursor; its
  signed type code selects the shell kind (negative codes are the pure forms,
  -1 is an SP shell that becomes an S and a P shell sharing the exponents),
  and an unknown code produces no shell at all.
 */
module ShellConstruction {
  import opened Shells
  import opened BasisLayout

  /** The flat shell data of a formatted checkpoint, as ShellData holds it. */
  datatype ShellData = ShellData(
    shellTypes: seq<int>,
    shellToAtom: seq<nat>,
    shellPrimitives: seq<nat>,
    exponents: seq<real>,
    contractionCoefficients: seq<real>,
    contractionCoefficientsSP: seq<real>,
    overlapMatrix: seq<real>)

  /** Total number of primitives of a list of per-shell primitive counts. */
  function PrimCount(prims: seq<nat>): nat {
    if prims == [] then 0 else PrimCount(prims[..|prims| - 1]) + prims[|prims| - 1]
  }

  /** Where the cursor stands when input shell s begins: the primitives of the shells before it. */
  function PrimStart(d: ShellData, s: nat): nat
    requires s <= |d.shellPrimitives|
  {
    PrimCount(d.shellPrimitives[..s])
  }

  /**
    What the constructor needs of its input: per-shell atom and primitive
    counts for every shell type, 1-based atom numbers (the code subtracts one
    in unsigned arithmetic), enough exponents and coefficients for every
    primitive, and SP coefficients either absent or complete.
   */
  ghost predicate WellFormed(d: ShellData) {
    var n := |d.shellTypes|;
    && n <= |d.shellToAtom|
    && n <= |d.shellPrimitives|
    && (forall s :: 0 <= s < n ==> d.shellToAtom[s] >= 1)
    && PrimStart(d, n) <= |d.exponents|
    && PrimStart(d, n) <= |d.contractionCoefficients|
    && (d.contractionCoefficientsSP == [] || PrimStart(d, n) <= |d.contractionCoefficientsSP|)
  }

  /** The cursor moves by the shell's primitive count. */
  lemma PrimStartStep(d: ShellData, s: nat)
    requires s < |d.shellPrimitives|
    ensures PrimStart(d, s + 1) == PrimStart(d, s) + d.shellPrimitives[s]
  {
    assert d.shellPrimitives[..s + 1][..s] == d.shellPrimitives[..s];
  }

  /** The cursor never moves back. */
  lemma {:induction false} PrimStartMonotone(d: ShellData, s: nat, t: nat)
    requires s <= t <= |d.shellPrimitives|
    ensures PrimStart(d, s) <= PrimStart(d, t)
    decreases t - s
  {
    if s < t {
      PrimStartStep(d, s);
      PrimStartMonotone(d, s + 1, t);
    }
  }

  /** Primitive c lies in input shell s's range [PrimStart(s), PrimStart(s + 1)). */
  predicate OwnsPrimitive(d: ShellData, s: nat, c: nat) {
    s < |d.shellPrimitives| && PrimStart(d, s) <= c < PrimStart(d, s + 1)
  }

  /** The ranges of two different input shells share no primitive. */
  lemma PrimRangesDisjoint(d: ShellData, s: nat, t: nat, c: nat)
    requires OwnsPrimitive(d, s, c) && OwnsPrimitive(d, t, c)
    ensures s == t
  {
    if s < t {
      PrimStartMonotone(d, s + 1, t);
    } else if t < s {
      PrimStartMonotone(d, t + 1, s);
    }
  }

  /** Every primitive the cursor passes in the first m input shells belongs to one of them. */
  lemma {:induction false} PrimRangesCover(d: ShellData, m: nat, c: nat)
    requires m <= |d.shellPrimitives| && c < PrimStart(d, m)
    ensures exists s: nat :: s < m && OwnsPrimitive(d, s, c)
  {
    if c < PrimStart(d, m - 1) {
      PrimRangesCover(d, m - 1, c);
    } else {
      assert OwnsPrimitive(d, m - 1, c);
    }
  }

  /**
    The primitive ranges of the first m input shells tile the cursor's path:
    every primitive below PrimStart(d, m) lies in the range of exactly one
    input shell s < m, so each exponent and coefficient the constructor reads
    is read once.
   */
  lemma PrimRangesTile(d: ShellData, m: nat, c: nat)
    requires m <= |d.shellPrimitives| && c < PrimStart(d, m)
    ensures exists s: nat :: s < m && OwnsPrimitive(d, s, c)
    ensures forall s: nat, t: nat :: OwnsPrimitive(d, s, c) && OwnsPrimitive(d, t, c) ==> s == t
  {
    PrimRangesCover(d, m, c);
    forall s, t | OwnsPrimitive(d, s, c) && OwnsPrimitive(d, t, c) ensures s == t {
      PrimRangesDisjoint(d, s, t, c);
    }
  }

  /** Every entry of xs multiplied by the same factor c. */
  function Scale(xs: seq<real>, c: real): (r: seq<real>)
    ensures |r| == |xs| && forall i :: 0 <= i < |xs| ==> r[i] == xs[i] * c
  {
    seq(|xs|, i requires 0 <= i < |xs| => xs[i] * c)
  }

  /** The converted exponents of input shell s. */
  function InputExponents(d: ShellData, conv: real, s: nat): (r: seq<real>)
    requires WellFormed(d) && s < |d.shellTypes|
    ensures |r| == d.shellPrimitives[s]
  {
    PrimStartStep(d, s);
    PrimStartMonotone(d, s + 1, |d.shellTypes|);
    Scale(d.exponents[PrimStart(d, s)..PrimStart(d, s + 1)], conv)
  }

  /** The contraction coefficients of input shell s. */
  function InputCoefs(d: ShellData, s: nat): (r: seq<real>)
    requires WellFormed(d) && s < |d.shellTypes|
    ensures |r| == d.shellPrimitives[s]
  {
    PrimStartStep(d, s);
    PrimStartMonotone(d, s + 1, |d.shellTypes|);
    d.contractionCoefficients[PrimStart(d, s)..PrimStart(d, s + 1)]
  }

  /** The SP coefficients of input shell s, or none when the data has no SP coefficients. */
  function InputCoefsSP(d: ShellData, s: nat): (r: seq<real>)
    requires WellFormed(d) && s < |d.shellTypes|
    ensures |r| == if d.contractionCoefficientsSP == [] then 0 else d.shellPrimitives[s]
  {
    if d.contractionCoefficientsSP == [] then []
    else
      PrimStartStep(d, s);
      PrimStartMonotone(d, s + 1, |d.shellTypes|);
      d.contractionCoefficientsSP[PrimStart(d, s)..PrimStart(d, s + 1)]
  }

  /** A kind is fixed by its angular momentum and whether it is pure. */
  lemma KindDetermined(k: Kind, k': Kind)
    requires AngularMomentum(k) == AngularMomentum(k') && IsPure(k) == IsPure(k')
    ensures k == k'
  {
  }

  /**
    The shells one input shell of type code becomes (the switch of the
    constructor): code 0 and 1 are S and P, -1 is an S and a P shell sharing
    the exponents (the P one taking the SP coefficients), codes 2, 3, 4 are
    the Cartesian D6, F10, G15 and -2, -3, -4 the pure D5, F7, G9; any other
    code gives nothing.
   */
  function Emit(code: int, atom: nat, pos: Vec3, expts: seq<real>, coefs: seq<real>, coefsSP: seq<real>): (r: seq<Shell>)
    ensures |r| <= 2
    ensures forall k :: 0 <= k < |r| ==> r[k].atom == atom && r[k].center == pos && r[k].exponents == expts
    ensures |r| == 2 <==> code == -1
    ensures |r| == 2 ==> r[0].kind == S && r[0].coefficients == coefs && r[1].kind == P && r[1].coefficients == coefsSP
    ensures r == [] <==> !(-4 <= code <= 4)
    ensures |r| == 1 ==>
      && AngularMomentum(r[0].kind) == (if code < 0 then -code else code)
      && (IsPure(r[0].kind) <==> code < 0)
      && r[0].coefficients == coefs
  {
    var shell := (k: Kind, c: seq<real>) => Shell(k, atom, pos, expts, c);
    if code == 0 then [shell(S, coefs)]
    else if code == -1 then [shell(S, coefs), shell(P, coefsSP)]
    else if code == 1 then [shell(P, coefs)]
    else if code == -2 then [shell(D5, coefs)]
    else if code == 2 then [shell(D6, coefs)]
    else if code == -3 then [shell(F7, coefs)]
    else if code == 3 then [shell(F10, coefs)]
    else if code == -4 then [shell(G9, coefs)]
    else if code == 4 then [shell(G15, coefs)]
    else []
  }

  /**
    Number of basis functions an input shell of type code yields, from the
    closed forms: 2l+1 for a pure code -l, (l+1)(l+2)/2 for a Cartesian code
    l, 1 + 3 for the SP code -1 and none for an unknown code.
   */
  function CodeBasisCount(code: int): nat {
    if code == -1 then 4
    else if 0 <= code <= 4 then (code + 1) * (code + 2) / 2
    else if -4 <= code < 0 then 2 * -code + 1
    else 0
  }

  /** The shells emitted for a code carry exactly the basis functions its closed form counts. */
  lemma EmitBasisCount(code: int, atom: nat, pos: Vec3, expts: seq<real>, coefs: seq<real>, coefsSP: seq<real>)
    ensures TotalBasis(Emit(code, atom, pos, expts, coefs, coefsSP)) == CodeBasisCount(code)
  {
    var r := Emit(code, atom, pos, expts, coefs, coefsSP);
    if code == -1 {
      assert TotalBasis(r[..1]) == 1 by {
        assert r[..1][..0] == [];
      }
      assert r[..|r| - 1] == r[..1];
    } else if -4 <= code <= 4 {
      assert r[..0] == [];
      KindBasisCountClosedForm(r[0].kind);
    }
  }

  /** The shells input shell s becomes, on atom shellToAtom[s] - 1 at that atom's position. */
  function EmitFor(d: ShellData, conv: real, position: nat -> Vec3, s: nat): seq<Shell>
    requires WellFormed(d) && s < |d.shellTypes|
  {
    var atom := d.shellToAtom[s] - 1;
    Emit(d.shellTypes[s], atom, position(atom), InputExponents(d, conv, s), InputCoefs(d, s), InputCoefsSP(d, s))
  }

  /** What EmitFor's shells share: the atom of input shell s, its position and the converted exponents. */
  lemma EmitForShared(d: ShellData, conv: real, position: nat -> Vec3, s: nat)
    requires WellFormed(d) && s < |d.shellTypes|
    ensures var e := EmitFor(d, conv, position, s);
      forall k :: 0 <= k < |e| ==>
        && e[k].atom == d.shellToAtom[s] - 1
        && e[k].center == position(e[k].atom)
        && e[k].exponents == InputExponents(d, conv, s)
  {
  }

  /** The shells of input shell s carry the closed-form count of its code. */
  lemma EmitForBasisCount(d: ShellData, conv: real, position: nat -> Vec3, s: nat)
    requires WellFormed(d) && s < |d.shellTypes|
    ensures TotalBasis(EmitFor(d, conv, position, s)) == CodeBasisCount(d.shellTypes[s])
  {
    var atom := d.shellToAtom[s] - 1;
    EmitBasisCount(d.shellTypes[s], atom, position(atom), InputExponents(d, conv, s), InputCoefs(d, s), InputCoefsSP(d, s));
  }

  /** The shells built from the first m input shells, in order. */
  function BuildShells(d: ShellData, conv: real, position: nat -> Vec3, m: nat): seq<Shell>
    requires WellFormed(d) && m <= |d.shellTypes|
  {
    if m == 0 then [] else BuildShells(d, conv, position, m - 1) + EmitFor(d, conv, position, m - 1)
  }

  /** Basis functions of the shells built from the first m input shells, summed from their codes. */
  function CodesBasisCount(codes: seq<int>): nat {
    if codes == [] then 0 else CodesBasisCount(codes[..|codes| - 1]) + CodeBasisCount(codes[|codes| - 1])
  }

  /** The basis size of the built list is the sum of the closed-form counts of the input codes. */
  lemma {:induction false} BuiltBasisCount(d: ShellData, conv: real, position: nat -> Vec3, m: nat)
    requires WellFormed(d) && m <= |d.shellTypes|
    ensures TotalBasis(BuildShells(d, conv, position, m)) == CodesBasisCount(d.shellTypes[..m])
  {
    if m > 0 {
      var s := m - 1;
      BuiltBasisCount(d, conv, position, s);
      TotalBasisAppend(BuildShells(d, conv, position, s), EmitFor(d, conv, position, s));
      EmitForBasisCount(d, conv, position, s);
      CodesBasisCountStep(d.shellTypes, s);
    }
  }

  /** One more input code adds its closed-form count. */
  lemma CodesBasisCountStep(codes: seq<int>, s: nat)
    requires s < |codes|
    ensures CodesBasisCount(codes[..s + 1]) == CodesBasisCount(codes[..s]) + CodeBasisCount(codes[s])
  {
    assert codes[..s + 1][..s] == codes[..s];
  }

  /** Shell sh was built from input shell s: it sits on s's atom, at that atom's position, with s's converted exponents. */
  ghost predicate FromInput(d: ShellData, conv: real, position: nat -> Vec3, sh: Shell, s: nat)
    requires WellFormed(d)
  {
    && s < |d.shellTypes|
    && sh.atom == d.shellToAtom[s] - 1
    && sh.center == position(sh.atom)
    && sh.exponents == InputExponents(d, conv, s)
  }

  /**
    Every built shell comes from some input shell s: it sits on atom
    shellToAtom[s] - 1 at that atom's position and its exponents are the
    converted primitives of s.
   */
  lemma {:induction false} BuiltShellOrigin(d: ShellData, conv: real, position: nat -> Vec3, m: nat, k: nat)
    requires WellFormed(d) && m <= |d.shellTypes| && k < |BuildShells(d, conv, position, m)|
    ensures exists s: nat :: s < m && FromInput(d, conv, position, BuildShells(d, conv, position, m)[k], s)
  {
    var s := m - 1;
    var prev, e := BuildShells(d, conv, position, s), EmitFor(d, conv, position, s);
    var r := BuildShells(d, conv, position, m);
    assert r == prev + e;
    if k < |prev| {
      BuiltShellOrigin(d, conv, position, s, k);
      var s': nat :| s' < s && FromInput(d, conv, position, prev[k], s');
      assert r[k] == prev[k];
      assert FromInput(d, conv, position, r[k], s');
    } else {
      EmitForShared(d, conv, position, s);
      assert r[k] == e[k - |prev|];
      assert FromInput(d, conv, position, r[k], s);
    }
  }

  /** Appending shells of one atom to a sorted list whose atoms do not exceed it keeps the list sorted. */
  lemma AppendAtomsSorted(prev: seq<Shell>, e: seq<Shell>, a: int)
    requires forall k, k' :: 0 <= k <= k' < |prev| ==> prev[k].atom <= prev[k'].atom
    requires forall k :: 0 <= k < |prev| ==> prev[k].atom <= a
    requires forall k :: 0 <= k < |e| ==> e[k].atom == a
    ensures forall k :: 0 <= k < |prev + e| ==> (prev + e)[k].atom <= a
    ensures forall k, k' :: 0 <= k <= k' < |prev + e| ==> (prev + e)[k].atom <= (prev + e)[k'].atom
  {
    var r := prev + e;
    forall k, k' | 0 <= k <= k' < |r|
      ensures r[k].atom <= r[k'].atom
    {
      if k' < |prev| {
        assert r[k] == prev[k] && r[k'] == prev[k'];
      } else {
        assert r[k'] == e[k' - |prev|];
        assert r[k].atom <= a;
      }
    }
  }

  /** With input atoms in non-decreasing order, the built shells' atoms are non-decreasing too. */
  lemma {:induction false} BuiltAtomsSorted(d: ShellData, conv: real, position: nat -> Vec3, m: nat)
    requires WellFormed(d) && m <= |d.shellTypes|
    requires forall s, t :: 0 <= s <= t < m ==> d.shellToAtom[s] <= d.shellToAtom[t]
    ensures 0 < m ==> forall k :: 0 <= k < |BuildShells(d, conv, position, m)| ==>
      BuildShells(d, conv, position, m)[k].atom <= d.shellToAtom[m - 1] - 1
    ensures forall k, k' :: 0 <= k <= k' < |BuildShells(d, conv, position, m)| ==>
      BuildShells(d, conv, position, m)[k].atom <= BuildShells(d, conv, position, m)[k'].atom
  {
    if m > 0 {
      var s := m - 1;
      var prev, e := BuildShells(d, conv, position, s), EmitFor(d, conv, position, s);
      var r := BuildShells(d, conv, position, m);
      assert r == prev + e;
      BuiltAtomsSorted(d, conv, position, s);
      EmitForShared(d, conv, position, s);
      assert 0 < s ==> d.shellToAtom[s - 1] <= d.shellToAtom[s];
      AppendAtomsSorted(prev, e, d.shellToAtom[s] - 1);
    }
  }
}
