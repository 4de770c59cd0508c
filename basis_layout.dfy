/**
  How a list of shells lays out its basis functions: shell s owns the basis
  indices [Offset(s), Offset(s) + NBasis) of the whole basis, and every
  per-point query of ShellList (basis values, significant-index compaction,
  orbital and density values) uses these same ranges. This module holds the
  specification functions the imperative ShellList methods are proved against.
 */
module BasisLayout {
  import opened Shells

  /** Total number of basis functions of a list of shells (ShellList::nBasis). */
  function TotalBasis(shells: seq<Shell>): nat {
    if shells == [] then 0
    else TotalBasis(shells[..|shells| - 1]) + shells[|shells| - 1].NBasis()
  }

  /** First basis index of shell s: the basis count of the shells before it. */
  function Offset(shells: seq<Shell>, s: nat): nat
    requires s <= |shells|
  {
    TotalBasis(shells[..s])
  }

  /** Shell s's range ends where shell s + 1's begins. */
  lemma OffsetStep(shells: seq<Shell>, s: nat)
    requires s < |shells|
    ensures Offset(shells, s + 1) == Offset(shells, s) + shells[s].NBasis()
  {
    assert shells[..s + 1][..s] == shells[..s];
  }

  /** Offsets never decrease along the list and never pass the total. */
  lemma {:induction false} OffsetMonotone(shells: seq<Shell>, s: nat, t: nat)
    requires s <= t <= |shells|
    ensures Offset(shells, s) <= Offset(shells, t) <= TotalBasis(shells)
    decreases |shells| - s
  {
    assert shells[..|shells|] == shells;
    if s < |shells| {
      OffsetStep(shells, s);
      if s < t {
        OffsetMonotone(shells, s + 1, t);
      } else {
        OffsetMonotone(shells, s + 1, |shells|);
      }
    }
  }

  lemma {:induction false} TotalBasisAppend(a: seq<Shell>, b: seq<Shell>)
    ensures TotalBasis(a + b) == TotalBasis(a) + TotalBasis(b)
    decreases |b|
  {
    if b == [] {
      assert a + b == a;
    } else {
      assert (a + b)[..|a + b| - 1] == a + b[..|b| - 1];
      TotalBasisAppend(a, b[..|b| - 1]);
    }
  }

  // ---------------------------------------------------------------------------
  // Basis values at a point

  /** Whether every shell is significant (evaluates to a value buffer) at p. */
  ghost predicate AllSignificant(shells: seq<Shell>, ev: Evaluator, p: Vec3) {
    forall s :: 0 <= s < |shells| ==> ev(shells[s], p).Some?
  }

  /** What shell sh contributes to the basis vector: its values, or zeros when it is negligible. */
  function Block(sh: Shell, r: Option<seq<real>>): (b: seq<real>)
    requires Fits(sh, r)
    ensures |b| == sh.NBasis()
    ensures r.None? ==> forall i :: 0 <= i < |b| ==> b[i] == 0.0
  {
    if r.Some? then r.value else Zeros(sh.NBasis())
  }

  /** The values of all basis functions at p, shell after shell. */
  function BasisVector(shells: seq<Shell>, ev: Evaluator, p: Vec3): (v: seq<real>)
    ensures |v| == TotalBasis(shells)
  {
    if shells == [] then []
    else
      var last := shells[|shells| - 1];
      BasisVector(shells[..|shells| - 1], ev, p) + Block(last, ev(last, p))
  }

  /**
    Slot Offset(s) + i of the basis vector holds basis function i of shell s:
    its value when the shell is significant, zero otherwise.
   */
  lemma {:induction false} BasisVectorLayout(shells: seq<Shell>, ev: Evaluator, p: Vec3, s: nat, i: nat)
    requires s < |shells| && i < shells[s].NBasis()
    ensures Offset(shells, s) + i < TotalBasis(shells)
    ensures BasisVector(shells, ev, p)[Offset(shells, s) + i] == Block(shells[s], ev(shells[s], p))[i]
    ensures ev(shells[s], p).Some? ==> BasisVector(shells, ev, p)[Offset(shells, s) + i] == ev(shells[s], p).value[i]
    ensures ev(shells[s], p).None? ==> BasisVector(shells, ev, p)[Offset(shells, s) + i] == 0.0
  {
    var prefix := shells[..|shells| - 1];
    OffsetStep(shells, s);
    OffsetMonotone(shells, s + 1, |shells|);
    if s < |shells| - 1 {
      assert prefix[..s] == shells[..s];
      assert prefix[s] == shells[s];
      BasisVectorLayout(prefix, ev, p, s, i);
    }
  }

  // ---------------------------------------------------------------------------
  // Significant basis functions (the compaction done by densityValues)

  function Range(start: nat, n: nat): (r: seq<nat>)
    ensures |r| == n && forall i :: 0 <= i < n ==> r[i] == start + i
  {
    seq(n, i => start + i)
  }

  predicate StrictlyIncreasing(s: seq<nat>) {
    forall a, b :: 0 <= a < b < |s| ==> s[a] < s[b]
  }

  /** Basis indices of the significant shells' functions at p, in order. */
  function SigIndices(shells: seq<Shell>, ev: Evaluator, p: Vec3): seq<nat> {
    if shells == [] then []
    else
      var prefix, last := shells[..|shells| - 1], shells[|shells| - 1];
      SigIndices(prefix, ev, p)
        + (if ev(last, p).Some? then Range(TotalBasis(prefix), last.NBasis()) else [])
  }

  /** Values of the significant shells' functions at p, in the same order. */
  function SigValues(shells: seq<Shell>, ev: Evaluator, p: Vec3): seq<real> {
    if shells == [] then []
    else
      var prefix, last := shells[..|shells| - 1], shells[|shells| - 1];
      SigValues(prefix, ev, p) + (if ev(last, p).Some? then ev(last, p).value else [])
  }

  /**
    The compacted list is a strictly increasing list of basis indices below
    the total, with one value per index, no longer than the basis.
   */
  lemma {:induction false} SigShape(shells: seq<Shell>, ev: Evaluator, p: Vec3)
    ensures var idx := SigIndices(shells, ev, p);
      && |idx| == |SigValues(shells, ev, p)| <= TotalBasis(shells)
      && StrictlyIncreasing(idx)
      && forall t :: 0 <= t < |idx| ==> idx[t] < TotalBasis(shells)
  {
    if shells != [] {
      SigShape(shells[..|shells| - 1], ev, p);
    }
  }

  /** Value t of the compacted list is the basis vector's entry at index t. */
  lemma {:induction false} SigValuesAt(shells: seq<Shell>, ev: Evaluator, p: Vec3)
    ensures var idx, vals, v := SigIndices(shells, ev, p), SigValues(shells, ev, p), BasisVector(shells, ev, p);
      && |idx| == |vals|
      && forall t :: 0 <= t < |idx| ==> idx[t] < |v| && vals[t] == v[idx[t]]
  {
    SigShape(shells, ev, p);
    if shells != [] {
      var prefix, last := shells[..|shells| - 1], shells[|shells| - 1];
      SigValuesAt(prefix, ev, p);
      var idx0, vals0, v0 := SigIndices(prefix, ev, p), SigValues(prefix, ev, p), BasisVector(prefix, ev, p);
      var idx, vals, v := SigIndices(shells, ev, p), SigValues(shells, ev, p), BasisVector(shells, ev, p);
      assert v == v0 + Block(last, ev(last, p));
      forall t | 0 <= t < |idx|
        ensures idx[t] < |v| && vals[t] == v[idx[t]]
      {
        if t < |idx0| {
          assert idx[t] == idx0[t] && vals[t] == vals0[t];
        } else {
          assert idx[t] == |v0| + (t - |idx0|);
        }
      }
    }
  }

  /** Every basis index left out of the compacted list holds zero in the basis vector. */
  lemma {:induction false} SigOmittedAreZero(shells: seq<Shell>, ev: Evaluator, p: Vec3)
    ensures forall b :: 0 <= b < TotalBasis(shells) && b !in SigIndices(shells, ev, p) ==> BasisVector(shells, ev, p)[b] == 0.0
  {
    if shells != [] {
      var prefix, last := shells[..|shells| - 1], shells[|shells| - 1];
      SigOmittedAreZero(prefix, ev, p);
      var idx0, v0 := SigIndices(prefix, ev, p), BasisVector(prefix, ev, p);
      var idx, v := SigIndices(shells, ev, p), BasisVector(shells, ev, p);
      assert v == v0 + Block(last, ev(last, p));
      if ev(last, p).Some? {
        forall b | |v0| <= b < |v| ensures b in idx {
          assert idx[|idx0| + (b - |v0|)] == b;
        }
      }
      forall b | 0 <= b < |v| && b !in idx
        ensures v[b] == 0.0
      {
        if b < |v0| {
          assert idx[..|idx0|] == idx0;
          assert b !in idx0;
          assert v[b] == v0[b];
        } else {
          assert v[b] == Block(last, ev(last, p))[b - |v0|];
        }
      }
    }
  }

  /**
    The compaction loses nothing: value t is the basis vector's entry at index
    t, and every index left out holds zero in the basis vector.
   */
  lemma SigMatchesBasisVector(shells: seq<Shell>, ev: Evaluator, p: Vec3)
    ensures var idx, vals, v := SigIndices(shells, ev, p), SigValues(shells, ev, p), BasisVector(shells, ev, p);
      && |idx| == |vals|
      && (forall t :: 0 <= t < |idx| ==> idx[t] < |v| && vals[t] == v[idx[t]])
      && (forall b :: 0 <= b < |v| && b !in idx ==> v[b] == 0.0)
  {
    SigValuesAt(shells, ev, p);
    SigOmittedAreZero(shells, ev, p);
  }

  // ---------------------------------------------------------------------------
  // Atom-boundary offsets (shellAtomOffsets / basisAtomOffsets)

  /**
    The shell indices at which a new atom begins, as the walk of
    shellAtomOffsets finds them: it starts from [0] with a running atom counter
    at 0, and each shell whose atom differs from the counter is recorded and
    bumps the counter by one.
   */
  function AtomStarts(shells: seq<Shell>): (r: seq<nat>)
    ensures |r| >= 1
  {
    if shells == [] then [0]
    else
      var prev := AtomStarts(shells[..|shells| - 1]);
      if shells[|shells| - 1].atom != |prev| - 1 then prev + [|shells| - 1] else prev
  }

  /** Atoms start at 0 and each shell's atom is the previous one's or the next. */
  ghost predicate ContiguousAtoms(shells: seq<Shell>) {
    && (shells != [] ==> shells[0].atom == 0)
    && forall k :: 0 < k < |shells| ==> shells[k - 1].atom <= shells[k].atom <= shells[k - 1].atom + 1
  }

  /** Shell k is the first shell of atom a. */
  ghost predicate StartsAtom(shells: seq<Shell>, k: nat, a: nat) {
    && k < |shells|
    && shells[k].atom == a
    && forall k' :: 0 <= k' < k ==> shells[k'].atom < a
  }

  /** The atom-start list begins with 0, never decreases and stays within the shell count. */
  lemma {:induction false} AtomStartsShape(shells: seq<Shell>)
    ensures var r := AtomStarts(shells);
      && r[0] == 0
      && (forall a, b :: 0 <= a <= b < |r| ==> r[a] <= r[b])
      && (forall a :: 0 <= a < |r| ==> r[a] <= |shells|)
  {
    if shells != [] {
      AtomStartsShape(shells[..|shells| - 1]);
    }
  }

  /** Dropping the last shell keeps the atoms contiguous. */
  lemma ContiguousPrefix(shells: seq<Shell>)
    requires ContiguousAtoms(shells) && shells != []
    ensures ContiguousAtoms(shells[..|shells| - 1])
  {
    var prefix := shells[..|shells| - 1];
    forall k | 0 < k < |prefix|
      ensures prefix[k - 1].atom <= prefix[k].atom <= prefix[k - 1].atom + 1
    {
      assert prefix[k] == shells[k] && prefix[k - 1] == shells[k - 1];
    }
  }

  /** The first shell of an atom stays its first shell when shells are appended. */
  lemma StartsAtomGrow(shells: seq<Shell>, k: nat, a: nat)
    requires shells != [] && StartsAtom(shells[..|shells| - 1], k, a)
    ensures StartsAtom(shells, k, a)
  {
    var prefix := shells[..|shells| - 1];
    forall k' | 0 <= k' < k ensures shells[k'].atom < a {
      assert prefix[k'] == shells[k'];
    }
  }

  /**
    When the atoms run contiguously from 0, the atom-start list has one entry
    per atom and entry a is the first shell of atom a.
   */
  lemma {:induction false} AtomStartsContiguous(shells: seq<Shell>)
    requires ContiguousAtoms(shells) && shells != []
    ensures var r := AtomStarts(shells);
      && |r| == shells[|shells| - 1].atom + 1
      && (forall k :: 0 <= k < |shells| ==> shells[k].atom <= shells[|shells| - 1].atom)
      && forall a :: 0 <= a < |r| ==> StartsAtom(shells, r[a], a)
  {
    var prefix, n := shells[..|shells| - 1], |shells| - 1;
    var r := AtomStarts(shells);
    if prefix == [] {
      assert AtomStarts(prefix) == [0];
      assert shells[0].atom == 0;
    } else {
      ContiguousPrefix(shells);
      AtomStartsContiguous(prefix);
      var r0 := AtomStarts(prefix);
      assert prefix[n - 1] == shells[n - 1];
      forall k | 0 <= k < n ensures shells[k].atom <= shells[n - 1].atom {
        assert prefix[k] == shells[k];
      }
      assert shells[n - 1].atom <= shells[n].atom <= shells[n - 1].atom + 1;
      forall a | 0 <= a < |r0|
        ensures StartsAtom(shells, r0[a], a)
      {
        StartsAtomGrow(shells, r0[a], a);
      }
      if shells[n].atom != |r0| - 1 {
        assert r == r0 + [n];
        assert StartsAtom(shells, n, |r0|);
      } else {
        assert r == r0;
      }
    }
  }

  /** Atoms never decrease along the list. */
  ghost predicate AtomsSorted(shells: seq<Shell>) {
    forall k, k' :: 0 <= k <= k' < |shells| ==> shells[k].atom <= shells[k'].atom
  }

  /** The number of shells on atoms below a. */
  function ShellsBelow(shells: seq<Shell>, a: nat): (n: nat)
    ensures n <= |shells|
  {
    if shells == [] then 0
    else ShellsBelow(shells[..|shells| - 1], a) + (if shells[|shells| - 1].atom < a then 1 else 0)
  }

  /** With sorted atoms, ShellsBelow(a) splits the list: atoms below a before it, a or above from it on. */
  lemma {:induction false} ShellsBelowSplits(shells: seq<Shell>, a: nat)
    requires AtomsSorted(shells)
    ensures forall k :: 0 <= k < ShellsBelow(shells, a) ==> shells[k].atom < a
    ensures forall k :: ShellsBelow(shells, a) <= k < |shells| ==> a <= shells[k].atom
  {
    if shells != [] {
      var prefix, n := shells[..|shells| - 1], |shells| - 1;
      assert AtomsSorted(prefix) by {
        forall k, k' | 0 <= k <= k' < |prefix| ensures prefix[k].atom <= prefix[k'].atom {
          assert prefix[k] == shells[k] && prefix[k'] == shells[k'];
        }
      }
      ShellsBelowSplits(prefix, a);
      var b0 := ShellsBelow(prefix, a);
      forall k | 0 <= k < n ensures shells[k] == prefix[k] {
      }
      if b0 < n {
        assert shells[b0].atom <= shells[n].atom;
      }
    }
  }

  /**
    The atom offsets the shell walk evidently means: entry a is the number of
    shells on atoms below a, for every atom up to the last shell's.
   */
  function AtomBoundaries(shells: seq<Shell>): (r: seq<nat>)
    ensures |r| >= 1
  {
    if shells == [] then [0]
    else seq(shells[|shells| - 1].atom + 1, a requires 0 <= a => ShellsBelow(shells, a))
  }

  /**
    With sorted atoms, entry a of AtomBoundaries is the first shell of atom a
    whenever atom a has a shell, even when some lower atom has none.
   */
  lemma AtomBoundariesStartAtoms(shells: seq<Shell>, a: nat)
    requires AtomsSorted(shells) && a < |AtomBoundaries(shells)|
    requires exists k :: 0 <= k < |shells| && shells[k].atom == a
    ensures StartsAtom(shells, AtomBoundaries(shells)[a], a)
  {
    ShellsBelowSplits(shells, a);
    var k :| 0 <= k < |shells| && shells[k].atom == a;
    var b := AtomBoundaries(shells)[a];
    assert b == ShellsBelow(shells, a);
    assert b <= k;
    assert shells[b].atom <= shells[k].atom;
  }

  /** The first shell of an atom is the count of shells on lower atoms. */
  lemma StartsAtomIsShellsBelow(shells: seq<Shell>, k: nat, a: nat)
    requires AtomsSorted(shells) && StartsAtom(shells, k, a)
    ensures k == ShellsBelow(shells, a)
  {
    ShellsBelowSplits(shells, a);
  }

  /** When the atoms run contiguously from 0, the walk of shellAtomOffsets gives the intended offsets. */
  lemma AtomStartsAreBoundaries(shells: seq<Shell>)
    requires ContiguousAtoms(shells)
    ensures AtomStarts(shells) == AtomBoundaries(shells)
  {
    if shells != [] {
      AtomStartsContiguous(shells);
      var r, q := AtomStarts(shells), AtomBoundaries(shells);
      assert AtomsSorted(shells) by {
        forall k, k' | 0 <= k <= k' < |shells| ensures shells[k].atom <= shells[k'].atom {
          ContiguousMonotone(shells, k, k');
        }
      }
      forall a | 0 <= a < |r| ensures r[a] == q[a] {
        StartsAtomIsShellsBelow(shells, r[a], a);
      }
    }
  }

  lemma {:induction false} ContiguousMonotone(shells: seq<Shell>, k: nat, k': nat)
    requires ContiguousAtoms(shells) && k <= k' < |shells|
    ensures shells[k].atom <= shells[k'].atom
    decreases k' - k
  {
    if k < k' {
      ContiguousMonotone(shells, k, k' - 1);
    }
  }

  /**
    Atoms 0, 2, 2, 3 (atom 1 has no shell): the walk records [0, 1, 2, 3], so
    entry 2 is the second shell of atom 2 rather than its first, while
    AtomBoundaries gives [0, 1, 1, 3].
   */
  lemma AtomStartsSkippedAtom()
    ensures var sh := Shell(S, 0, Vec3(0.0, 0.0, 0.0), [], []);
      var shells := [sh, sh.(atom := 2), sh.(atom := 2), sh.(atom := 3)];
      && AtomStarts(shells) == [0, 1, 2, 3]
      && !StartsAtom(shells, AtomStarts(shells)[2], 2)
      && AtomBoundaries(shells) == [0, 1, 1, 3]
      && StartsAtom(shells, AtomBoundaries(shells)[2], 2)
  {
    var sh := Shell(S, 0, Vec3(0.0, 0.0, 0.0), [], []);
    var s1 := [sh];
    var s2 := s1 + [sh.(atom := 2)];
    var s3 := s2 + [sh.(atom := 2)];
    var shells := s3 + [sh.(atom := 3)];
    assert s1[..0] == [] && s2[..1] == s1 && s3[..2] == s2 && shells[..3] == s3;
    assert AtomStarts(s1) == [0];
    assert AtomStarts(s2) == [0, 1];
    assert AtomStarts(s3) == [0, 1, 2];
    assert AtomStarts(shells) == [0, 1, 2, 3];
    assert ShellsBelow(s1, 1) == 1 && ShellsBelow(s2, 1) == 1 && ShellsBelow(s3, 1) == 1;
    assert ShellsBelow(s1, 2) == 1 && ShellsBelow(s2, 2) == 1 && ShellsBelow(s3, 2) == 1;
    assert ShellsBelow(shells, 1) == 1 && ShellsBelow(shells, 2) == 1;
    assert ShellsBelow(s1, 0) == 0 && ShellsBelow(s2, 0) == 0 && ShellsBelow(s3, 0) == 0 && ShellsBelow(shells, 0) == 0;
    assert ShellsBelow(s1, 3) == 1 && ShellsBelow(s2, 3) == 2 && ShellsBelow(s3, 3) == 3 && ShellsBelow(shells, 3) == 3;
    assert shells == [sh, sh.(atom := 2), sh.(atom := 2), sh.(atom := 3)];
    assert AtomBoundaries(shells) == [0, 1, 1, 3];
  }

  /**
    The basis indices at which a new atom begins, as the walk of
    basisAtomOffsets finds them: the same test as AtomStarts, but recording
    the running basis count of the shells before the one that differs.
   */
  function BasisAtomStarts(shells: seq<Shell>): (r: seq<nat>)
    ensures |r| == |AtomStarts(shells)|
  {
    if shells == [] then [0]
    else
      var prefix := shells[..|shells| - 1];
      var prev := BasisAtomStarts(prefix);
      if shells[|shells| - 1].atom != |prev| - 1 then prev + [TotalBasis(prefix)] else prev
  }

  /** Cutting the list after shell s leaves the offsets up to s as they were. */
  lemma OffsetOfPrefix(shells: seq<Shell>, n: nat, s: nat)
    requires s <= n <= |shells|
    ensures Offset(shells[..n], s) == Offset(shells, s)
  {
    assert shells[..n][..s] == shells[..s];
  }

  /** Entry a of the basis list is the basis offset of the shell at entry a of the shell list. */
  lemma {:induction false} BasisAtomStartsAreOffsets(shells: seq<Shell>)
    ensures forall a :: 0 <= a < |AtomStarts(shells)| ==>
      && AtomStarts(shells)[a] <= |shells|
      && BasisAtomStarts(shells)[a] == Offset(shells, AtomStarts(shells)[a])
  {
    if shells != [] {
      var prefix := shells[..|shells| - 1];
      BasisAtomStartsAreOffsets(prefix);
      var r0, b0 := AtomStarts(prefix), BasisAtomStarts(prefix);
      forall a | 0 <= a < |r0|
        ensures b0[a] == Offset(shells, r0[a])
      {
        OffsetOfPrefix(shells, |prefix|, r0[a]);
      }
    }
  }

  /**
    The basis list starts at 0, never decreases and stays within the basis;
    with contiguous atoms, entry a is the first basis index of atom a's first
    shell.
   */
  lemma BasisAtomStartsShape(shells: seq<Shell>)
    ensures var b := BasisAtomStarts(shells);
      && b[0] == 0
      && (forall a, a' :: 0 <= a <= a' < |b| ==> b[a] <= b[a'])
      && (forall a :: 0 <= a < |b| ==> b[a] <= TotalBasis(shells))
    ensures ContiguousAtoms(shells) && shells != [] ==>
      forall a :: 0 <= a < |BasisAtomStarts(shells)| ==>
        StartsAtom(shells, AtomStarts(shells)[a], a) && BasisAtomStarts(shells)[a] == Offset(shells, AtomStarts(shells)[a])
  {
    BasisAtomStartsAreOffsets(shells);
    AtomStartsShape(shells);
    var r, b := AtomStarts(shells), BasisAtomStarts(shells);
    assert shells[..0] == [];
    forall a, a' | 0 <= a <= a' < |b| ensures b[a] <= b[a'] {
      OffsetMonotone(shells, r[a], r[a']);
    }
    forall a | 0 <= a < |b| ensures b[a] <= TotalBasis(shells) {
      OffsetMonotone(shells, r[a], |shells|);
    }
    if ContiguousAtoms(shells) && shells != [] {
      AtomStartsContiguous(shells);
    }
  }

  // ---------------------------------------------------------------------------
  // The shell-type tally of ShellList::dump

  /** The number of shells of each kind. */
  datatype Tally = Tally(s: nat, p: nat, d5: nat, d6: nat, f7: nat, f10: nat, g9: nat, g15: nat)

  /** t with one more shell of kind k. */
  function Bump(t: Tally, k: Kind): Tally {
    match k
    case S => t.(s := t.s + 1)
    case P => t.(p := t.p + 1)
    case D5 => t.(d5 := t.d5 + 1)
    case D6 => t.(d6 := t.d6 + 1)
    case F7 => t.(f7 := t.f7 + 1)
    case F10 => t.(f10 := t.f10 + 1)
    case G9 => t.(g9 := t.g9 + 1)
    case G15 => t.(g15 := t.g15 + 1)
  }

  /** The tally of a list of shells. */
  function TallyOf(shells: seq<Shell>): Tally {
    if shells == [] then Tally(0, 0, 0, 0, 0, 0, 0, 0)
    else Bump(TallyOf(shells[..|shells| - 1]), shells[|shells| - 1].kind)
  }

  /** Counting one more shell bumps the count of its kind. */
  lemma TallyStep(shells: seq<Shell>, k: nat)
    requires k < |shells|
    ensures TallyOf(shells[..k + 1]) == Bump(TallyOf(shells[..k]), shells[k].kind)
  {
    assert shells[..k + 1][..k] == shells[..k];
  }

  /** The basis functions a tally stands for, by the count table. */
  function TallyBasis(t: Tally): nat {
    t.s + 3 * t.p + 5 * t.d5 + 6 * t.d6 + 7 * t.f7 + 10 * t.f10 + 9 * t.g9 + 15 * t.g15
  }

  /** The tally weighted by the count table gives back the basis size: dump's check always reads OK. */
  lemma {:induction false} TallyMatchesTotal(shells: seq<Shell>)
    ensures TallyBasis(TallyOf(shells)) == TotalBasis(shells)
  {
    if shells != [] {
      TallyMatchesTotal(shells[..|shells| - 1]);
    }
  }

  /** Every shell is counted once: the tally adds up to the number of shells. */
  lemma {:induction false} TallyCountsShells(shells: seq<Shell>)
    ensures var t := TallyOf(shells);
      t.s + t.p + t.d5 + t.d6 + t.f7 + t.f10 + t.g9 + t.g15 == |shells|
  {
    if shells != [] {
      TallyCountsShells(shells[..|shells| - 1]);
    }
  }
}
