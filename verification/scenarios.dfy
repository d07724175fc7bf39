/**
 * Concrete molecules worked through the model: the bond test of the unit
 * tests, and the inputs on which the recorded quirks show.
 */
module Scenarios {
  import opened Outcomes
  import opened Geometry
  import opened Atoms
  import opened Molecules
  import opened BondDetection
  import opened Derivation
  import opened Reading
  import opened Text

  const H1 := Coordinates(0.0, 0.0, 0.95)
  const H2 := Coordinates(0.89567, 0.0, -0.316663)
  const O1 := Coordinates(0.0, 0.0, 0.0)
  const O2 := Coordinates(4.0, 0.0, 0.0)

  /** H1, H2, O1, O2 of the bond-detection unit test. */
  function WaterPair(): seq<Atom> {
    [NewAtom("H", H1), NewAtom("H", H2), NewAtom("O", O1), NewAtom("O", O2)]
  }

  lemma ApartH1H2() ensures !WithinThreshold(H1, H2, 1.50) {
    assert Minus(H1, H2) == Coordinates(-0.89567, 0.0, 1.266663);
    assert -0.89567 * -0.89567 == 0.8022247489;
    assert 1.266663 * 1.266663 == 1.604435155569;
    assert 1.50 * 1.50 == 2.25;
  }

  lemma DistanceH2O1() ensures SqDistance(H2, O1) == 0.902500204469 {
    var d := Minus(H2, O1);
    assert d == Coordinates(0.89567, 0.0, -0.316663);
    assert SqNorm(d) == 0.89567 * 0.89567 + 0.0 * 0.0 + -0.316663 * -0.316663;
    assert 0.89567 * 0.89567 == 0.8022247489;
    assert -0.316663 * -0.316663 == 0.100275455569;
  }

  lemma BelowH2O1() ensures SqDistance(H2, O1) <= 1.50 * 1.50 {
    DistanceH2O1();
    assert 1.50 * 1.50 == 2.25;
  }

  lemma TestH2O1() ensures 0.0 <= 1.50 && SqDistance(H2, O1) <= 1.50 * 1.50 {
    BelowH2O1();
  }

  lemma CloseH2O1() ensures WithinThreshold(H2, O1, 1.50) {
    TestH2O1();
  }

  lemma ApartH2O2() ensures !WithinThreshold(H2, O2, 1.50) {
    assert Minus(H2, O2) == Coordinates(-3.10433, 0.0, -0.316663);
    assert -3.10433 * -3.10433 == 9.6368647489;
    assert -0.316663 * -0.316663 == 0.100275455569;
    assert 1.50 * 1.50 == 2.25;
  }

  lemma DistanceH1O1() ensures SqDistance(H1, O1) == 0.9025 {
    var d := Minus(H1, O1);
    assert d == Coordinates(0.0, 0.0, 0.95);
    assert SqNorm(d) == 0.0 * 0.0 + 0.0 * 0.0 + 0.95 * 0.95;
    assert 0.95 * 0.95 == 0.9025;
  }

  lemma BelowH1O1() ensures SqDistance(H1, O1) <= 1.50 * 1.50 {
    DistanceH1O1();
    assert 1.50 * 1.50 == 2.25;
  }

  lemma TestH1O1() ensures 0.0 <= 1.50 && SqDistance(H1, O1) <= 1.50 * 1.50 {
    BelowH1O1();
  }

  lemma CloseH1O1() ensures WithinThreshold(H1, O1, 1.50) {
    TestH1O1();
  }

  lemma ApartH1O2() ensures !WithinThreshold(H1, O2, 1.50) {
    assert Minus(H1, O2) == Coordinates(-4.0, 0.0, 0.95);
    assert 0.95 * 0.95 == 0.9025;
    assert 1.50 * 1.50 == 2.25;
  }

  lemma ApartO1O2() ensures !WithinThreshold(O1, O2, 1.50) {
    assert Minus(O1, O2) == Coordinates(-4.0, 0.0, 0.0);
    assert 1.50 * 1.50 == 2.25;
  }

  /** Four atoms of which exactly the pairs (0, 2) and (1, 2) lie within the threshold. */
  lemma FourAtomBondedPairs(atoms: seq<Atom>, threshold: real)
    requires |atoms| == 4
    requires WithinThreshold(atoms[0].coords, atoms[2].coords, threshold)
    requires WithinThreshold(atoms[1].coords, atoms[2].coords, threshold)
    requires !WithinThreshold(atoms[0].coords, atoms[1].coords, threshold)
    requires !WithinThreshold(atoms[0].coords, atoms[3].coords, threshold)
    requires !WithinThreshold(atoms[1].coords, atoms[3].coords, threshold)
    requires !WithinThreshold(atoms[2].coords, atoms[3].coords, threshold)
    ensures forall p :: p in [(0, 2), (1, 2)] <==> BondedPair(atoms, threshold, p)
  {
  }

  /** The unit test's molecule shape: two H and two O atoms in that order, with
      only the two O-H pairs of the first oxygen close enough to bond. */
  lemma WaterShapeBonds(h1: Coordinates, h2: Coordinates, o1: Coordinates, o2: Coordinates, threshold: real)
    requires WithinThreshold(h1, o1, threshold) && WithinThreshold(h2, o1, threshold)
    requires !WithinThreshold(h1, h2, threshold) && !WithinThreshold(h1, o2, threshold)
    requires !WithinThreshold(h2, o2, threshold) && !WithinThreshold(o1, o2, threshold)
    ensures var m := NewMolecule([NewAtom("H", h1), NewAtom("H", h2), NewAtom("O", o1), NewAtom("O", o2)], "MOL");
      DetermineBonds(m, threshold) == Success(m.(bonds := Some([(0, 2), (1, 2)])))
  {
    var m := NewMolecule([NewAtom("H", h1), NewAtom("H", h2), NewAtom("O", o1), NewAtom("O", o2)], "MOL");
    assert h1 != h2 && o1 != o2;
    assert Distinct(m.atoms);
    FourAtomBondedPairs(m.atoms, threshold);
    DetermineBondsExactly(m, threshold, [(0, 2), (1, 2)]);
  }

  /** With threshold 1.50 both O-H bonds of the first oxygen are found, the
      H-H and O-O pairs are not, and the result is ((0, 2), (1, 2)). */
  lemma WaterBonds()
    ensures DetermineBonds(NewMolecule(WaterPair(), "MOL"), 1.50) == Success(NewMolecule(WaterPair(), "MOL").(bonds := Some([(0, 2), (1, 2)])))
  {
    ApartH1H2(); CloseH1O1(); ApartH1O2(); CloseH2O1(); ApartH2O2(); ApartO1O2();
    WaterShapeBonds(H1, H2, O1, O2, 1.50);
  }

  /** The two O-H bonds of the water test both enter the oxygen, so no bond
      leaves it and no angle is derived. */
  lemma WaterAngles()
    ensures AnglesFrom([(0, 2), (1, 2)], 0, 3) == []
  {
    assert AnglesAt([(0, 2), (1, 2)], 0) == [];
    assert AnglesAt([(0, 2), (1, 2)], 1) == [];
    assert AnglesAt([(0, 2), (1, 2)], 2) == [];
  }

  /** Two bonds enter atom 0 and one leaves it: only the first incoming bond
      is paired, so (2, 0, 3) is missed although both of its bonds exist. */
  lemma SharedIteratorMissesAngle()
    ensures AnglesAt([(1, 0), (2, 0), (0, 3)], 0) == [(1, 0, 3)]
    ensures FullAngle([(1, 0), (2, 0), (0, 3)], 0, (2, 0, 3))
  {
    assert [(1, 0), (2, 0), (0, 3)][1..] == [(2, 0), (0, 3)];
    assert Outgoing([(2, 0), (0, 3)], 0) == [(0, 3)];
  }

  /** An outgoing bond listed before the incoming one is drained away. */
  lemma SharedIteratorMissesEarlierOutgoing()
    ensures AnglesAt([(0, 3), (1, 0)], 0) == []
    ensures FullAngle([(0, 3), (1, 0)], 0, (1, 0, 3))
  {
    assert FirstIncoming([(0, 3), (1, 0)], 0) == 1;
  }

  /** A four-atom chain 0-1-2-3 has the two angles (0, 1, 2) and (1, 2, 3). */
  lemma ChainAngles()
    ensures AnglesFrom([(0, 1), (1, 2), (2, 3)], 0, 4) == [(0, 1, 2), (1, 2, 3)]
  {
    var bs := [(0, 1), (1, 2), (2, 3)];
    assert AnglesAt(bs, 0) == [];
    assert FirstIncoming(bs, 1) == 0 && bs[1..] == [(1, 2), (2, 3)];
    assert Outgoing([(1, 2), (2, 3)], 1) == [(1, 2)];
    assert AnglesAt(bs, 1) == [(0, 1, 2)];
    assert FirstIncoming(bs, 2) == 1 && bs[2..] == [(2, 3)];
    assert AnglesAt(bs, 2) == [(1, 2, 3)];
    assert AnglesAt(bs, 3) == [];
  }

  /** ... and the single dihedral (0, 1, 2, 3). */
  lemma ChainDihedrals(d: Dihedral)
    ensures d in DihedralsFrom([(0, 1, 2), (1, 2, 3)], [(0, 1), (1, 2), (2, 3)], 0, 4) <==> d == (0, 1, 2, 3)
  {
  }

  /**
   * A satellite on atom 0 of a three-atom molecule: the satellite bond is
   * (0, 1), and the 1-based indices "2" and "3" of the other atoms name the
   * final slots 2 and 3, past the satellite at slot 1.
   */
  lemma SatelliteAtFirstAtom(fl: Floats, atoms: seq<Atom>, polarizability: real)
    requires |atoms| == 3
    requires AddDrudeAtom(fl, NewMolecule(atoms, "MOL"), 0, polarizability, []).Success?
    ensures var r := AddDrudeAtom(fl, NewMolecule(atoms, "MOL"), 0, polarizability, []).value;
      && r.1 == [(0, 1)]
      && Shift("1", r.0.shifts) == Success(0)
      && Shift("2", r.0.shifts) == Success(2)
      && Shift("3", r.0.shifts) == Success(3)
  {
    var r := AddDrudeAtom(fl, NewMolecule(atoms, "MOL"), 0, polarizability, []).value;
    assert r.0.shifts[0] == 0 && r.0.shifts[1] == 1 && r.0.shifts[2] == 1;
    assert ParseInt("1") == Some(1) && ParseInt("2") == Some(2) && ParseInt("3") == Some(3);
  }
}
