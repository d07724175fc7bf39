/**
 * Atoms, their structural equality, list lookup by that equality, and the
 * creation of a Drude satellite that takes part of an atom's charge and mass.
 */
module Atoms {
  import opened Outcomes
  import opened Geometry

  /** Empirical scale of the satellite charge of a polarisable atom. */
  const DRUDE_CHARGE_FACTOR: real := -0.0548768646057431
  /** Default force constant of the atom-satellite spring. */
  const DRUDE_BOND_CONST: real := 1000.0
  /** Default mass moved from an atom onto its satellite. */
  const DRUDE_MASS: real := 0.4

  /** `namdSymbol` is the engine label; `drude` the owned satellite, if any. */
  datatype Atom = Atom(
    symbol: string,
    coords: Coordinates,
    charge: real,
    mass: real,
    namdSymbol: string,
    drude: Option<Atom>)

  /** An atom as the coordinate reader builds it: zero charge and mass, the
      engine symbol defaulting to the element symbol, no satellite. */
  function NewAtom(symbol: string, coords: Coordinates): (a: Atom)
    ensures a.namdSymbol == a.symbol == symbol && a.coords == coords
    ensures a.charge == 0.0 && a.mass == 0.0 && a.drude.None?
  {
    Atom(symbol, coords, 0.0, 0.0, symbol, None)
  }

  /** Python equality of atoms: every field except the satellite. */
  predicate Same(a: Atom, b: Atom) {
    a.symbol == b.symbol && a.coords == b.coords && a.charge == b.charge
    && a.mass == b.mass && a.namdSymbol == b.namdSymbol
  }

  /** No two positions hold equal atoms, so lookup by equality is lookup by position. */
  predicate Distinct(xs: seq<Atom>) {
    forall i, j :: 0 <= i < j < |xs| ==> !Same(xs[i], xs[j])
  }

  /** `xs.index(xs[k])`: the first position holding an atom equal to the one at `k`. */
  function FirstSame(xs: seq<Atom>, k: int): (j: int)
    requires 0 <= k < |xs|
    ensures 0 <= j <= k && Same(xs[j], xs[k])
    ensures forall i :: 0 <= i < j ==> !Same(xs[i], xs[k])
  {
    FirstSameFrom(xs, k, 0)
  }

  function FirstSameFrom(xs: seq<Atom>, k: int, from: int): (j: int)
    requires 0 <= from <= k < |xs|
    requires forall i :: 0 <= i < from ==> !Same(xs[i], xs[k])
    ensures from <= j <= k && Same(xs[j], xs[k])
    ensures forall i :: 0 <= i < j ==> !Same(xs[i], xs[k])
    decreases k - from
  {
    if Same(xs[from], xs[k]) then from else FirstSameFrom(xs, k, from + 1)
  }

  /** When no earlier atom equals the one at `k`, the lookup finds `k` itself. */
  lemma FirstSameIsPosition(xs: seq<Atom>, k: int)
    requires 0 <= k < |xs|
    requires forall i :: 0 <= i < k ==> !Same(xs[i], xs[k])
    ensures FirstSame(xs, k) == k
  {
  }

  /** The numeric services the model does not define: float() on a token and
      math.sqrt, each None where Python raises ValueError. */
  datatype Floats = Floats(parse: string -> Option<real>, sqrt: real -> Option<real>)

  /** DRUDE_CHARGE_FACTOR * sqrt(polarizability * bond_const). */
  function DrudeCharge(fl: Floats, polarizability: real): (r: Result<real>)
    ensures r.Failure? <==> fl.sqrt(polarizability * DRUDE_BOND_CONST).None?
    ensures r.Success? ==> r.value == DRUDE_CHARGE_FACTOR * fl.sqrt(polarizability * DRUDE_BOND_CONST).value
  {
    match fl.sqrt(polarizability * DRUDE_BOND_CONST)
    case None => Failure(MathDomain)
    case Some(root) => Success(DRUDE_CHARGE_FACTOR * root)
  }

  /** math.sqrt as Python defines it on the reals: ValueError exactly for a
      negative argument, otherwise the non-negative root. */
  ghost predicate SqrtLike(fl: Floats) {
    forall x: real {:trigger fl.sqrt(x)} ::
      && (fl.sqrt(x).None? <==> x < 0.0)
      && (fl.sqrt(x).Some? ==> fl.sqrt(x).value >= 0.0 && fl.sqrt(x).value * fl.sqrt(x).value == x)
  }

  /** With a square root that behaves as math.sqrt, the satellite charge fails
      exactly for a negative polarizability, is never positive (the factor is
      negative), and its square is the factor squared times the radicand. */
  lemma DrudeChargeSign(fl: Floats, polarizability: real)
    requires SqrtLike(fl)
    ensures DrudeCharge(fl, polarizability).Failure? <==> polarizability < 0.0
    ensures DrudeCharge(fl, polarizability).Success? ==>
      && DrudeCharge(fl, polarizability).value <= 0.0
      && DrudeCharge(fl, polarizability).value * DrudeCharge(fl, polarizability).value
         == DRUDE_CHARGE_FACTOR * DRUDE_CHARGE_FACTOR * (polarizability * DRUDE_BOND_CONST)
  {
    var x := polarizability * DRUDE_BOND_CONST;
    assert x < 0.0 <==> polarizability < 0.0;
    if fl.sqrt(x).Some? {
      var root := fl.sqrt(x).value;
      assert root >= 0.0 && root * root == x;
      var q := DRUDE_CHARGE_FACTOR * root;
      assert q <= 0.0;
      assert q * q == DRUDE_CHARGE_FACTOR * DRUDE_CHARGE_FACTOR * (root * root);
    }
  }

  /** "D" followed by the first two characters of the parent's engine symbol. */
  function DrudeSymbol(namdSymbol: string): (d: string)
    ensures 1 <= |d| <= 3 && d[0] == 'D'
    ensures |d| == 1 + (if |namdSymbol| < 2 then |namdSymbol| else 2)
    ensures d[1..] <= namdSymbol
  {
    "D" + (if |namdSymbol| < 2 then namdSymbol else namdSymbol[..2])
  }

  /** The parent after create_drude_atom: it owns a satellite at its own
      position that carries `charge` and DRUDE_MASS away from it. */
  function CreateDrudeAtom(a: Atom, charge: real): (p: Atom)
    ensures p.drude.Some?
    ensures p.mass + p.drude.value.mass == a.mass
    ensures p.charge + p.drude.value.charge == a.charge
    ensures p.drude.value.mass == DRUDE_MASS && p.drude.value.charge == charge
    ensures p.symbol == p.drude.value.symbol == a.symbol
    ensures p.coords == p.drude.value.coords == a.coords
    ensures p.namdSymbol == a.namdSymbol && p.drude.value.namdSymbol == DrudeSymbol(a.namdSymbol)
    ensures p.drude.value.drude.None?
  {
    var satellite := Atom(a.symbol, a.coords, charge, DRUDE_MASS, DrudeSymbol(a.namdSymbol), None);
    a.(mass := a.mass - DRUDE_MASS, charge := a.charge - charge, drude := Some(satellite))
  }
}
