/**
 * A molecule: its atoms in original order, the derived connectivity, and the
 * shift table that reconciles original atom indices with positions in the
 * Drude-inclusive atom sequence.
 */
module Molecules {
  import opened Outcomes
  import opened Atoms

  /** Index pairs, triples and quadruples, always in final (post-shift) indices. */
  type Bond = (int, int)
  type Angle = (int, int, int)
  type Dihedral = (int, int, int, int)

  /** Each relation is None until it is computed or read. `shifts` maps an
      original index to the number of satellites inserted before it. */
  datatype Molecule = Molecule(
    atoms: seq<Atom>,
    residueName: string,
    bonds: Option<seq<Bond>>,
    drudeBonds: Option<seq<Bond>>,
    angles: Option<seq<Angle>>,
    dihedrals: Option<seq<Dihedral>>,
    shifts: map<int, int>)

  /** The shift table has a non-negative entry for every original index and no other key. */
  ghost predicate Valid(m: Molecule) {
    && (forall i :: i in m.shifts <==> 0 <= i < |m.atoms|)
    && (forall i :: i in m.shifts ==> m.shifts[i] >= 0)
  }

  /** A fresh molecule: nothing derived yet, every shift 0. */
  function NewMolecule(atoms: seq<Atom>, residueName: string): (m: Molecule)
    ensures Valid(m) && m.atoms == atoms && m.residueName == residueName
    ensures forall i :: 0 <= i < |atoms| ==> m.shifts[i] == 0
    ensures m.bonds.None? && m.drudeBonds.None? && m.angles.None? && m.dihedrals.None?
  {
    Molecule(atoms, residueName, None, None, None, None, ZeroShifts(|atoms|))
  }

  /** `{i: 0 for i in range(0, n)}`. */
  function ZeroShifts(n: int): (s: map<int, int>)
    ensures forall i :: i in s <==> 0 <= i < n
    ensures forall i :: i in s ==> s[i] == 0
  {
    if n <= 0 then map[] else ZeroShifts(n - 1)[n - 1 := 0]
  }

  /** Number of the first `i` atoms that own a satellite. */
  function PromotedBelow(atoms: seq<Atom>, i: int): (c: nat)
    requires 0 <= i <= |atoms|
    ensures c <= i
  {
    if i == 0 then 0 else PromotedBelow(atoms, i - 1) + (if atoms[i - 1].drude.Some? then 1 else 0)
  }

  /** Number of atoms that own a satellite. */
  function Promoted(atoms: seq<Atom>): nat {
    PromotedBelow(atoms, |atoms|)
  }

  /** Counting up to `i` only looks at the first `i` atoms. */
  lemma {:induction false} PromotedBelowPrefix(atoms: seq<Atom>, i: int, j: int)
    requires 0 <= i <= j <= |atoms|
    ensures PromotedBelow(atoms[..j], i) == PromotedBelow(atoms, i)
    decreases i
  {
    if i > 0 {
      PromotedBelowPrefix(atoms, i - 1, j);
      assert atoms[..j][i - 1] == atoms[i - 1];
    }
  }

  /** The count only grows with `i`, so shift tables built from it are non-decreasing. */
  lemma {:induction false} PromotedBelowMonotone(atoms: seq<Atom>, i: int, j: int)
    requires 0 <= i <= j <= |atoms|
    ensures PromotedBelow(atoms, i) <= PromotedBelow(atoms, j)
    ensures PromotedBelow(atoms, j) - PromotedBelow(atoms, i) <= j - i
    decreases j
  {
    if i < j {
      PromotedBelowMonotone(atoms, i, j - 1);
    }
  }

  /** Replacing the atom at `k` leaves the counts up to `k` alone and moves the
      later ones by the change in that atom's satellite ownership. */
  lemma {:induction false} PromotedBelowUpdate(atoms: seq<Atom>, k: int, a: Atom, i: int)
    requires 0 <= k < |atoms| && 0 <= i <= |atoms|
    ensures PromotedBelow(atoms[k := a], i) ==
      PromotedBelow(atoms, i)
      + (if k < i then (if a.drude.Some? then 1 else 0) - (if atoms[k].drude.Some? then 1 else 0) else 0)
    decreases i
  {
    if i > 0 {
      PromotedBelowUpdate(atoms, k, a, i - 1);
    }
  }

  /** atoms_number_with_drude: the reduce over the atoms that adds 1 for a
      plain atom and 2 for one with a satellite (recursion on the last atom). */
  function CountWithDrude(atoms: seq<Atom>): (r: nat)
    ensures r == |atoms| + Promoted(atoms)
  {
    if |atoms| == 0 then 0
    else
      var last := atoms[|atoms| - 1];
      PromotedBelowPrefix(atoms, |atoms| - 1, |atoms| - 1);
      assert atoms[..|atoms| - 1][..|atoms| - 1] == atoms[..|atoms| - 1];
      CountWithDrude(atoms[..|atoms| - 1]) + (if last.drude.None? then 1 else 2)
  }

  function AtomsNumber(m: Molecule): nat {
    |m.atoms|
  }

  function AtomsNumberWithDrude(m: Molecule): nat {
    CountWithDrude(m.atoms)
  }

  /** Counting satellites never lowers the atom count. */
  lemma AtomsNumberWithDrudeBounds(m: Molecule)
    ensures AtomsNumber(m) <= AtomsNumberWithDrude(m) <= 2 * AtomsNumber(m)
    ensures AtomsNumberWithDrude(m) - AtomsNumber(m) == Promoted(m.atoms)
  {
  }

  /**
   * add_drude_atom for the atom object at position `k`: the atom gets its
   * satellite, the list lookup `atoms.index(atom)` (by equality, after the
   * update) picks the original index `j`, the pair (j + shifts[j], that + 1) is
   * appended to `drudeBonds`, and every original index after `j` shifts by one.
   */
  function AddDrudeAtom(fl: Floats, m: Molecule, k: int, polarizability: real, drudeBonds: seq<Bond>)
    : (r: Result<(Molecule, seq<Bond>)>)
    requires Valid(m) && 0 <= k < |m.atoms|
    ensures r.Failure? <==> fl.sqrt(polarizability * DRUDE_BOND_CONST).None?
    ensures r.Success? ==>
      var m', bs := r.value.0, r.value.1;
      && Valid(m') && |m'.atoms| == |m.atoms|
      && m' == m.(atoms := m'.atoms, shifts := m'.shifts)
      && (forall i :: 0 <= i < |m.atoms| && i != k ==> m'.atoms[i] == m.atoms[i])
      && m'.atoms[k].drude.Some?
      && m'.atoms[k].mass + m'.atoms[k].drude.value.mass == m.atoms[k].mass
      && m'.atoms[k].charge + m'.atoms[k].drude.value.charge == m.atoms[k].charge
      && |bs| == |drudeBonds| + 1 && bs[..|drudeBonds|] == drudeBonds
      && ((forall i :: 0 <= i < k ==> !Same(m'.atoms[i], m'.atoms[k])) ==>
            && bs[|drudeBonds|] == (k + m.shifts[k], k + m.shifts[k] + 1)
            && (forall i :: 0 <= i <= k ==> m'.shifts[i] == m.shifts[i])
            && (forall i :: k < i < |m.atoms| ==> m'.shifts[i] == m.shifts[i] + 1))
  {
    var charge :- DrudeCharge(fl, polarizability);
    var atoms := m.atoms[k := CreateDrudeAtom(m.atoms[k], charge)];
    var index := FirstSame(atoms, k);
    var shifted := index + m.shifts[index];
    var shifts := map i | i in m.shifts :: if index < i then m.shifts[i] + 1 else m.shifts[i];
    Success((m.(atoms := atoms, shifts := shifts), drudeBonds + [(shifted, shifted + 1)]))
  }

  /** One atom of the Drude-inclusive sequence: the atom, then its satellite if any. */
  function Expand(a: Atom): seq<Atom> {
    if a.drude.Some? then [a, a.drude.value] else [a]
  }

  /** The Drude-inclusive atom sequence, in the order the structure writer numbers atoms. */
  function Materialize(atoms: seq<Atom>): (xs: seq<Atom>)
    ensures |xs| == |atoms| + Promoted(atoms)
  {
    if |atoms| == 0 then []
    else
      PromotedBelowPrefix(atoms, |atoms| - 1, |atoms| - 1);
      assert atoms[..|atoms| - 1][..|atoms| - 1] == atoms[..|atoms| - 1];
      Materialize(atoms[..|atoms| - 1]) + Expand(atoms[|atoms| - 1])
  }

  /** Materialising one more atom appends its expansion. */
  lemma MaterializeStep(atoms: seq<Atom>, j: int)
    requires 0 <= j < |atoms|
    ensures Materialize(atoms[..j + 1]) == Materialize(atoms[..j]) + Expand(atoms[j])
  {
    var front := atoms[..j + 1];
    assert front[..|front| - 1] == atoms[..j];
  }

  /** The layout of the first `j` atoms is a prefix of the whole layout. */
  lemma {:induction false} MaterializePrefix(atoms: seq<Atom>, j: int)
    requires 0 <= j <= |atoms|
    ensures |Materialize(atoms[..j])| <= |Materialize(atoms)|
    ensures Materialize(atoms)[..|Materialize(atoms[..j])|] == Materialize(atoms[..j])
    decreases |atoms| - j
  {
    if j < |atoms| {
      MaterializePrefix(atoms, j + 1);
      MaterializeStep(atoms, j);
      var a, b, whole := Materialize(atoms[..j]), Materialize(atoms[..j + 1]), Materialize(atoms);
      assert whole[..|a|] == whole[..|b|][..|a|];
      assert b[..|a|] == a;
    } else {
      assert atoms[..j] == atoms;
    }
  }

  /**
   * The final index i + PromotedBelow(atoms, i) of original atom i is where the
   * materialised sequence holds that atom, and its satellite sits right after it.
   */
  lemma FinalIndexLayout(atoms: seq<Atom>, i: int)
    requires 0 <= i < |atoms|
    ensures i + PromotedBelow(atoms, i) < |Materialize(atoms)|
    ensures Materialize(atoms)[i + PromotedBelow(atoms, i)] == atoms[i]
    ensures atoms[i].drude.Some? ==>
      i + PromotedBelow(atoms, i) + 1 < |Materialize(atoms)|
      && Materialize(atoms)[i + PromotedBelow(atoms, i) + 1] == atoms[i].drude.value
  {
    MaterializeStep(atoms, i);
    MaterializePrefix(atoms, i + 1);
    PromotedBelowPrefix(atoms, i, i);
    var a, b, whole := Materialize(atoms[..i]), Materialize(atoms[..i + 1]), Materialize(atoms);
    var f := i + PromotedBelow(atoms, i);
    assert |atoms[..i]| == i;
    assert |a| == f;
    assert whole[..|b|] == b;
    assert whole[f] == b[f] == atoms[i];
    if atoms[i].drude.Some? {
      assert whole[f + 1] == b[f + 1] == atoms[i].drude.value;
    }
  }

  /** Final indices keep the original order and skip over satellite slots:
      atom i, its satellite if any, then atom j, for every i < j. */
  lemma FinalIndicesOrdered(atoms: seq<Atom>, i: int, j: int)
    requires 0 <= i < j < |atoms|
    ensures i + PromotedBelow(atoms, i) + (if atoms[i].drude.Some? then 1 else 0) < j + PromotedBelow(atoms, j)
  {
    PromotedBelowMonotone(atoms, i + 1, j);
    assert PromotedBelow(atoms, i + 1) == PromotedBelow(atoms, i) + (if atoms[i].drude.Some? then 1 else 0);
  }
}
