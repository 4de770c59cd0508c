/**
  The Gaussian basis shell as ShellList sees it. The shell type itself lives
  outside the modelled file: here it is a value with an angular-momentum kind,
  an atom index, a centre and its primitives, plus two uninterpreted queries
  that are passed in as functions (its evaluation at a point and its bounding
  box at a threshold).
 */
module Shells {

  datatype Option<T> = None | Some(value: T)

  datatype Vec3 = Vec3(x: real, y: real, z: real)

  /** An axis-aligned box given by its lower and upper corners. */
  datatype Box = Box(lo: Vec3, hi: Vec3)

  /** Angular-momentum class of a shell; D5, F7 and G9 are the pure (spherical) forms. */
  datatype Kind = S | P | D5 | D6 | F7 | F10 | G9 | G15

  /** Number of basis functions in a shell of kind k: the tally table of ShellList::dump. */
  function KindBasisCount(k: Kind): (n: nat)
    ensures 1 <= n <= 15
  {
    match k
    case S => 1
    case P => 3
    case D5 => 5
    case D6 => 6
    case F7 => 7
    case F10 => 10
    case G9 => 9
    case G15 => 15
  }

  /** Angular momentum l of a kind (S = 0, P = 1, D = 2, F = 3, G = 4). */
  function AngularMomentum(k: Kind): (l: nat)
    ensures l <= 4
  {
    match k
    case S => 0
    case P => 1
    case D5 | D6 => 2
    case F7 | F10 => 3
    case G9 | G15 => 4
  }

  /** Pure (spherical) kinds have 2l+1 functions; the others are Cartesian. */
  predicate IsPure(k: Kind) {
    k == D5 || k == F7 || k == G9
  }

  /**
    The count table agrees with the closed forms: 2l+1 functions for a pure
    shell, (l+1)(l+2)/2 for a Cartesian one.
   */
  lemma KindBasisCountClosedForm(k: Kind)
    ensures var l := AngularMomentum(k);
      KindBasisCount(k) == if IsPure(k) then 2 * l + 1 else (l + 1) * (l + 2) / 2
  {
  }

  /**
    One contracted shell: its kind, the (0-based) atom it sits on, the atom's
    position and its primitives (exponents with their contraction coefficients).
    The normalisation the shell applies to its coefficients is not modelled.
   */
  datatype Shell = Shell(kind: Kind, atom: nat, center: Vec3, exponents: seq<real>, coefficients: seq<real>)
  {
    function NBasis(): nat {
      KindBasisCount(kind)
    }
  }

  /** A result of Shell::evaluate: absent when the shell is negligible, else one value per basis function. */
  ghost predicate Fits(sh: Shell, r: Option<seq<real>>) {
    r.Some? ==> |r.value| == sh.NBasis()
  }

  /** Shell::evaluate, left uninterpreted: any function whose present results have the right length. */
  type Evaluator = f: (Shell, Vec3) -> Option<seq<real>> | forall sh, p :: Fits(sh, f(sh, p))
    witness (sh: Shell, p: Vec3) => None

  /** Shell::boundingBox, left uninterpreted: the box of a shell at a value threshold. */
  type BoxQuery = (Shell, real) -> Box

  function Zeros(n: nat): (r: seq<real>)
    ensures |r| == n && forall i :: 0 <= i < n ==> r[i] == 0.0
  {
    seq(n, _ => 0.0)
  }
}
