/**
 * Geometric bond detection: every pair of atoms is compared once against a
 * distance threshold, and each bonded pair is recorded in final indices.
 */
module BondDetection {
  import opened Outcomes
  import opened Geometry
  import opened Atoms
  import opened Molecules

  /** Default bond length cut-off, in the units of the coordinates. */
  const DEFAULT_THRESHOLD: real := 1.70

  /** Original indices p.0 < p.1 whose atoms lie within the threshold. */
  predicate BondedPair(atoms: seq<Atom>, threshold: real, p: Bond) {
    0 <= p.0 < p.1 < |atoms| && WithinThreshold(atoms[p.0].coords, atoms[p.1].coords, threshold)
  }

  predicate LexLess(a: Bond, b: Bond) {
    a.0 < b.0 || (a.0 == b.0 && a.1 < b.1)
  }

  /** Strictly increasing in lexicographic order, hence also free of repeats. */
  predicate LexSorted(bs: seq<Bond>) {
    forall j, k :: 0 <= j < k < |bs| ==> LexLess(bs[j], bs[k])
  }

  predicate Unshifted(m: Molecule) {
    forall i :: i in m.shifts ==> m.shifts[i] == 0
  }

  /**
   * The inner loop for `atom`, over the neighbours at positions q.. . `index`
   * is the running atom_index: it is shifted in place every time a bond is
   * found, and a value outside the shift table raises KeyError. The neighbour
   * index comes from the lookup by equality.
   */
  function NeighbourBonds(m: Molecule, atom: Atom, index: int, q: int, threshold: real): Result<seq<Bond>>
    requires Valid(m) && 0 <= q <= |m.atoms|
    decreases |m.atoms| - q
  {
    if q == |m.atoms| then Success([])
    else if WithinThreshold(atom.coords, m.atoms[q].coords, threshold) then
      if index !in m.shifts then Failure(UnknownIndex)
      else
        var shifted := index + m.shifts[index];
        var neighbour := FirstSame(m.atoms, q);
        var rest :- NeighbourBonds(m, atom, shifted, q + 1, threshold);
        Success([(shifted, neighbour + m.shifts[neighbour])] + rest)
    else NeighbourBonds(m, atom, index, q + 1, threshold)
  }

  /** The outer loop over `atoms[:-1]`, from position i on; each atom's own
      index and the start of its neighbour range come from the lookup by equality. */
  function BondRows(m: Molecule, i: int, threshold: real): Result<seq<Bond>>
    requires Valid(m) && 0 <= i
    decreases |m.atoms| - i
  {
    if i + 1 >= |m.atoms| then Success([])
    else
      var start := FirstSame(m.atoms, i);
      var row :- NeighbourBonds(m, m.atoms[i], start, start + 1, threshold);
      var rest :- BondRows(m, i + 1, threshold);
      Success(row + rest)
  }

  /** determine_bonds: sets `bonds` and nothing else. */
  function DetermineBonds(m: Molecule, threshold: real): (r: Result<Molecule>)
    requires Valid(m)
    ensures r.Success? ==> r.value.bonds.Some? && r.value == m.(bonds := r.value.bonds)
    ensures r.Success? && |m.atoms| <= 1 ==> r.value.bonds == Some([])
  {
    var bonds :- BondRows(m, 0, threshold);
    Success(m.(bonds := Some(bonds)))
  }

  lemma {:induction false} NeighbourBondsUnshifted(m: Molecule, i: int, q: int, threshold: real)
    requires Valid(m) && Distinct(m.atoms) && Unshifted(m)
    requires 0 <= i < q <= |m.atoms|
    ensures NeighbourBonds(m, m.atoms[i], i, q, threshold).Success?
    ensures var row := NeighbourBonds(m, m.atoms[i], i, q, threshold).value;
      && (forall p :: p in row <==> p.0 == i && q <= p.1 && BondedPair(m.atoms, threshold, p))
      && LexSorted(row)
    decreases |m.atoms| - q
  {
    if q < |m.atoms| {
      NeighbourBondsUnshifted(m, i, q + 1, threshold);
      if WithinThreshold(m.atoms[i].coords, m.atoms[q].coords, threshold) {
        FirstSameIsPosition(m.atoms, q);
        var rest := NeighbourBonds(m, m.atoms[i], i, q + 1, threshold).value;
        var row := NeighbourBonds(m, m.atoms[i], i, q, threshold).value;
        assert row == [(i, q)] + rest;
        forall k | 0 <= k < |rest| ensures LexLess((i, q), rest[k]) {
          assert rest[k] in rest;
        }
      }
    }
  }

  lemma {:induction false} BondRowsUnshifted(m: Molecule, i: int, threshold: real)
    requires Valid(m) && Distinct(m.atoms) && Unshifted(m) && 0 <= i
    ensures BondRows(m, i, threshold).Success?
    ensures var rows := BondRows(m, i, threshold).value;
      && (forall p :: p in rows <==> i <= p.0 && BondedPair(m.atoms, threshold, p))
      && LexSorted(rows)
    decreases |m.atoms| - i
  {
    if i + 1 < |m.atoms| {
      FirstSameIsPosition(m.atoms, i);
      NeighbourBondsUnshifted(m, i, i + 1, threshold);
      BondRowsUnshifted(m, i + 1, threshold);
      var row := NeighbourBonds(m, m.atoms[i], i, i + 1, threshold).value;
      var rest := BondRows(m, i + 1, threshold).value;
      assert BondRows(m, i, threshold).value == row + rest;
      forall j, k | 0 <= j < |row| && 0 <= k < |rest| ensures LexLess(row[j], rest[k]) {
        assert row[j] in row && rest[k] in rest;
      }
    }
  }

  /**
   * With every shift still 0 and no two atoms equal, determine_bonds yields
   * exactly the pairs i < j whose atoms lie within the threshold (inclusive),
   * each once, in lexicographic order.
   */
  lemma DetermineBondsUnshifted(m: Molecule, threshold: real)
    requires Valid(m) && Distinct(m.atoms) && Unshifted(m)
    ensures DetermineBonds(m, threshold).Success?
    ensures var bonds := DetermineBonds(m, threshold).value.bonds.value;
      && (forall p :: p in bonds <==> BondedPair(m.atoms, threshold, p))
      && LexSorted(bonds)
  {
    BondRowsUnshifted(m, 0, threshold);
  }

  /** A strictly sorted bond list is determined by its members. */
  lemma {:induction false} LexSortedUnique(xs: seq<Bond>, ys: seq<Bond>)
    requires LexSorted(xs) && LexSorted(ys)
    requires forall p :: p in xs <==> p in ys
    ensures xs == ys
    decreases |xs|
  {
    assert xs != [] ==> xs[0] in ys;
    assert ys != [] ==> ys[0] in xs;
    if xs != [] {
      assert xs[0] == ys[0] by {
        assert xs[0] in ys;
        assert ys[0] in xs;
        var j :| 0 <= j < |xs| && xs[j] == ys[0];
        var k :| 0 <= k < |ys| && ys[k] == xs[0];
        assert j > 0 ==> LexLess(xs[0], xs[j]);
        assert k > 0 ==> LexLess(ys[0], ys[k]);
      }
      forall p ensures p in xs[1..] <==> p in ys[1..] {
        if p in xs[1..] {
          var j :| 1 <= j < |xs| && xs[j] == p;
          assert LexLess(xs[0], xs[j]);
          assert p in ys;
        }
        if p in ys[1..] {
          var k :| 1 <= k < |ys| && ys[k] == p;
          assert LexLess(ys[0], ys[k]);
          assert p in xs;
        }
      }
      LexSortedUnique(xs[1..], ys[1..]);
      assert xs == [xs[0]] + xs[1..];
      assert ys == [ys[0]] + ys[1..];
    }
  }

  /**
   * The unshifted result in closed form: any strictly sorted list holding
   * exactly the bonded pairs is the one determine_bonds returns.
   */
  lemma DetermineBondsExactly(m: Molecule, threshold: real, expected: seq<Bond>)
    requires Valid(m) && Distinct(m.atoms) && Unshifted(m)
    requires LexSorted(expected)
    requires forall p :: p in expected <==> BondedPair(m.atoms, threshold, p)
    ensures DetermineBonds(m, threshold) == Success(m.(bonds := Some(expected)))
  {
    DetermineBondsUnshifted(m, threshold);
    LexSortedUnique(DetermineBonds(m, threshold).value.bonds.value, expected);
  }

  /**
   * The running atom_index: once a bond of atom `atom` is found at neighbour
   * q, the index used for the next neighbour is the already shifted one, and
   * it is shifted again. Two bonded neighbours in a row give left ends
   * index + shifts[index] and then that value shifted by its own entry.
   */
  lemma RunningIndexShiftsTwice(m: Molecule, atom: Atom, index: int, q: int, threshold: real)
    requires Valid(m) && 0 <= q && q + 1 < |m.atoms|
    requires WithinThreshold(atom.coords, m.atoms[q].coords, threshold)
    requires WithinThreshold(atom.coords, m.atoms[q + 1].coords, threshold)
    requires index in m.shifts && index + m.shifts[index] in m.shifts
    requires NeighbourBonds(m, atom, index, q, threshold).Success?
    ensures var row := NeighbourBonds(m, atom, index, q, threshold).value;
      var once := index + m.shifts[index];
      && |row| >= 2
      && row[0].0 == once
      && row[1].0 == once + m.shifts[once]
  {
    var once := index + m.shifts[index];
    var tail := NeighbourBonds(m, atom, once, q + 1, threshold);
    assert tail.Success?;
    assert |tail.value| >= 1 && tail.value[0].0 == once + m.shifts[once];
  }
}
