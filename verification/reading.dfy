/**
 * The input readers over the lines of a file: the 1-based index conversion
 * through the shift table, the .dat pass that labels atoms, adds Drude
 * satellites and reads or derives the bonds, and the readers of the three
 * sections of a Tinker .conn file.
 */
module Reading {
  import opened Outcomes
  import opened Text
  import opened Atoms
  import opened Molecules
  import opened BondDetection
  import opened Derivation

  /** A .dat line with this many columns carries a polarizability in column 4. */
  const DRUDE_LINE_COLUMNS: int := 5
  const BOND_SECTION_BEGINNING: string := "Bond Stretching Parameters"
  const ANGLE_SECTION_BEGINNING: string := "Angle Bending Parameters"
  const DIHEDRAL_SECTION_BEGINNING: string := "Torsional Angle Parameters"
  /** Header lines between a .conn section title and its first row. */
  const CONN_LINES_TO_OMIT: int := 3

  /** readline() on line `k` of a file: the line without its newline, or "" past the end. */
  function LineAt(lines: seq<string>, k: int): (s: string)
    ensures 0 <= k < |lines| ==> s == lines[k]
    ensures !(0 <= k < |lines|) ==> s == ""
  {
    if 0 <= k < |lines| then lines[k] else ""
  }

  /**
   * shift: a 1-based index token becomes a 0-based final index. int() raises
   * ValueError on a malformed token and the table lookup KeyError on an index
   * outside the molecule.
   */
  function Shift(token: string, shifts: map<int, int>): (r: Result<int>)
    ensures ParseInt(token).None? ==> r == Failure(NotANumber)
    ensures ParseInt(token).Some? && ParseInt(token).value - 1 !in shifts ==> r == Failure(UnknownIndex)
    ensures r.Success? ==> exists i :: i in shifts && ParseInt(token) == Some(i + 1) && r.value == i + shifts[i]
  {
    match ParseInt(token)
    case None => Failure(NotANumber)
    case Some(v) =>
      var index := v - 1;
      if index in shifts then Success(index + shifts[index]) else Failure(UnknownIndex)
  }

  /** The written 1-based index of original atom i reads back as its final index. */
  lemma ShiftRoundTrip(i: int, shifts: map<int, int>)
    requires i in shifts
    ensures Shift(IntToString(i + 1), shifts) == Success(i + shifts[i])
  {
    ParseIntRoundTrip(i + 1);
  }

  /** With all shifts zero, shift is the plain 1-based to 0-based conversion. */
  lemma ShiftUnshifted(token: string, m: Molecule)
    requires Valid(m) && Unshifted(m)
    ensures Shift(token, m.shifts).Success? <==>
      ParseInt(token).Some? && 1 <= ParseInt(token).value <= |m.atoms|
    ensures Shift(token, m.shifts).Success? ==> Shift(token, m.shifts).value == ParseInt(token).value - 1
  {
  }

  /**
   * Once shifts[i] counts the satellites below i, the written 1-based index
   * i + 1 reads back as the final index of atom i: the slot of the
   * Drude-inclusive sequence that holds it (Molecules.FinalIndexLayout).
   */
  lemma ShiftFindsAtom(m: Molecule, i: int)
    requires 0 <= i < |m.atoms| && i in m.shifts
    requires m.shifts[i] == PromotedBelow(m.atoms, i)
    ensures Shift(IntToString(i + 1), m.shifts) == Success(i + PromotedBelow(m.atoms, i))
  {
    ShiftRoundTrip(i, m.shifts);
  }

  /** float() on a token, NotANumber where it raises ValueError. */
  function ParseReal(fl: Floats, token: string): (r: Result<real>)
    ensures r.Success? <==> fl.parse(token).Some?
    ensures r.Success? ==> r.value == fl.parse(token).value
    ensures r.Failure? ==> r.error == NotANumber
  {
    match fl.parse(token)
    case None => Failure(NotANumber)
    case Some(x) => Success(x)
  }

  /** The satellites' bonds in final indices, for the atoms below `k` that own one, in ascending order. */
  function DrudeBondsBelow(atoms: seq<Atom>, k: int): seq<Bond>
    requires 0 <= k <= |atoms|
  {
    if k == 0 then []
    else
      var p := k - 1;
      DrudeBondsBelow(atoms, p)
      + (if atoms[p].drude.Some? then [(p + PromotedBelow(atoms, p), p + PromotedBelow(atoms, p) + 1)] else [])
  }

  /** Replacing the atom at `k` leaves the bonds of the atoms below `k` alone. */
  lemma {:induction false} DrudeBondsBelowUpdate(atoms: seq<Atom>, k: int, a: Atom, j: int)
    requires 0 <= j <= k < |atoms|
    ensures DrudeBondsBelow(atoms[k := a], j) == DrudeBondsBelow(atoms, j)
    decreases j
  {
    if j > 0 {
      DrudeBondsBelowUpdate(atoms, k, a, j - 1);
      PromotedBelowUpdate(atoms, k, a, j - 1);
    }
  }

  /** Each satellite bond joins an atom's slot to the next one, which holds its satellite. */
  lemma {:induction false} DrudeBondsBelowLayout(atoms: seq<Atom>, k: int, b: Bond)
    requires 0 <= k <= |atoms|
    requires b in DrudeBondsBelow(atoms, k)
    ensures b.1 == b.0 + 1
    ensures exists p :: 0 <= p < k && atoms[p].drude.Some? && b.0 == p + PromotedBelow(atoms, p)
    decreases k
  {
    var p := k - 1;
    if b !in DrudeBondsBelow(atoms, p) {
      assert b == (p + PromotedBelow(atoms, p), p + PromotedBelow(atoms, p) + 1);
    } else {
      DrudeBondsBelowLayout(atoms, p, b);
    }
  }

  /** The atoms of a .dat line: its columns are the engine symbol, the charge,
      the mass and, on Drude lines, a fourth column and the polarizability. */
  predicate DrudeLine(includeDrude: bool, line: string) {
    includeDrude && |Split(line)| >= DRUDE_LINE_COLUMNS
  }

  /**
   * One atom line of the .dat pass: the atom at `k` takes its engine symbol,
   * charge and mass from the line, and on a Drude line gets its satellite.
   * A missing column raises IndexError and a malformed number ValueError,
   * in the order the source evaluates them.
   */
  function DatAtomLine(fl: Floats, includeDrude: bool, m: Molecule, k: int, line: string, drudeBonds: seq<Bond>)
    : (r: Result<(Molecule, seq<Bond>)>)
    requires Valid(m) && 0 <= k < |m.atoms|
    ensures r.Success? ==>
      var m' := r.value.0;
      && Valid(m') && |m'.atoms| == |m.atoms|
      && m' == m.(atoms := m'.atoms, shifts := m'.shifts)
      && (forall i :: 0 <= i < |m.atoms| && i != k ==> m'.atoms[i] == m.atoms[i])
      && m'.atoms[k].symbol == m.atoms[k].symbol && m'.atoms[k].coords == m.atoms[k].coords
  {
    var t := Split(line);
    if |t| < 1 then Failure(MissingField)
    else
      var namdSymbol := t[0];
      if |t| < 2 then Failure(MissingField)
      else
        var charge :- ParseReal(fl, t[1]);
        if |t| < 3 then Failure(MissingField)
        else
          var mass :- ParseReal(fl, t[2]);
          var atom := m.atoms[k].(namdSymbol := namdSymbol, charge := charge, mass := mass);
          var m1 := m.(atoms := m.atoms[k := atom]);
          if DrudeLine(includeDrude, line) then
            var polarizability :- ParseReal(fl, t[4]);
            AddDrudeAtom(fl, m1, k, polarizability, drudeBonds)
          else Success((m1, drudeBonds))
  }

  /** An atom line fails exactly when a column it needs is missing or
      malformed, or the satellite charge of a Drude line cannot be computed. */
  lemma DatAtomLineFails(fl: Floats, includeDrude: bool, m: Molecule, k: int, line: string, drudeBonds: seq<Bond>)
    requires Valid(m) && 0 <= k < |m.atoms|
    ensures var t := Split(line);
      DatAtomLine(fl, includeDrude, m, k, line, drudeBonds).Failure? <==>
        || |t| < 3 || fl.parse(t[1]).None? || fl.parse(t[2]).None?
        || (DrudeLine(includeDrude, line) && (fl.parse(t[4]).None? || fl.sqrt(fl.parse(t[4]).value * DRUDE_BOND_CONST).None?))
  {
  }

  /**
   * What an atom line that reads sets: the engine symbol, and the charge and
   * mass, which on a Drude line are shared between the atom and its new
   * satellite; only a Drude line adds a satellite bond and moves the shifts.
   */
  lemma DatAtomLineReads(fl: Floats, includeDrude: bool, m: Molecule, k: int, line: string, drudeBonds: seq<Bond>)
    requires Valid(m) && 0 <= k < |m.atoms|
    requires DatAtomLine(fl, includeDrude, m, k, line, drudeBonds).Success?
    ensures
      var t, r := Split(line), DatAtomLine(fl, includeDrude, m, k, line, drudeBonds).value;
      var m', bs := r.0, r.1;
      && |t| >= 3
      && m'.atoms[k].namdSymbol == t[0]
      && (if DrudeLine(includeDrude, line) then
            && m'.atoms[k].drude.Some?
            && m'.atoms[k].charge + m'.atoms[k].drude.value.charge == fl.parse(t[1]).value
            && m'.atoms[k].mass + m'.atoms[k].drude.value.mass == fl.parse(t[2]).value
            && |bs| == |drudeBonds| + 1 && bs[..|drudeBonds|] == drudeBonds
            && ((forall i :: 0 <= i < k ==> !Same(m'.atoms[i], m'.atoms[k])) ==>
                  && bs[|drudeBonds|] == (k + m.shifts[k], k + m.shifts[k] + 1)
                  && (forall i :: 0 <= i <= k ==> m'.shifts[i] == m.shifts[i])
                  && (forall i :: k < i < |m.atoms| ==> m'.shifts[i] == m.shifts[i] + 1))
          else
            && m'.atoms[k].drude == m.atoms[k].drude
            && m'.atoms[k].charge == fl.parse(t[1]).value && m'.atoms[k].mass == fl.parse(t[2]).value
            && bs == drudeBonds && m'.shifts == m.shifts)
  {
  }

  /** The loop of the .dat pass over the atoms from `k` on; atom k is described on line k + 1. */
  function DatAtoms(fl: Floats, lines: seq<string>, includeDrude: bool, m: Molecule, k: int, drudeBonds: seq<Bond>)
    : (r: Result<(Molecule, seq<Bond>)>)
    requires Valid(m) && 0 <= k <= |m.atoms|
    ensures r.Success? ==>
      var m' := r.value.0;
      && Valid(m') && |m'.atoms| == |m.atoms|
      && m' == m.(atoms := m'.atoms, shifts := m'.shifts)
      && (forall i :: 0 <= i < k ==> m'.atoms[i] == m.atoms[i])
      && (forall i :: 0 <= i < |m.atoms| ==> m'.atoms[i].symbol == m.atoms[i].symbol && m'.atoms[i].coords == m.atoms[i].coords)
    decreases |m.atoms| - k
  {
    if k == |m.atoms| then Success((m, drudeBonds))
    else
      var step :- DatAtomLine(fl, includeDrude, m, k, LineAt(lines, k + 1), drudeBonds);
      DatAtoms(fl, lines, includeDrude, step.0, k + 1, step.1)
  }

  /** The state of the .dat pass before atom `k`: shifts count the satellites
      below each index, the atoms from `k` on have none yet, and the satellite
      bonds so far are those of the atoms below `k`. */
  ghost predicate DatInvariant(m: Molecule, k: int, drudeBonds: seq<Bond>) {
    && Valid(m) && 0 <= k <= |m.atoms|
    && (forall i :: 0 <= i < |m.atoms| ==> m.shifts[i] == PromotedBelow(m.atoms, i))
    && (forall i :: k <= i < |m.atoms| ==> m.atoms[i].drude.None?)
    && drudeBonds == DrudeBondsBelow(m.atoms, k)
  }

  /** Satellite insertion at `k` in ascending order keeps the invariant: the
      counts below each index move exactly as the shift table does. */
  lemma InvariantStep(m: Molecule, k: int, drudeBonds: seq<Bond>, m': Molecule, bs: seq<Bond>)
    requires DatInvariant(m, k, drudeBonds) && k < |m.atoms|
    requires Valid(m') && |m'.atoms| == |m.atoms|
    requires forall i :: 0 <= i < |m.atoms| && i != k ==> m'.atoms[i] == m.atoms[i]
    requires m'.atoms[k].drude.None? ==> m'.shifts == m.shifts && bs == drudeBonds
    requires m'.atoms[k].drude.Some? ==>
      && bs == drudeBonds + [(k + m.shifts[k], k + m.shifts[k] + 1)]
      && (forall i :: 0 <= i <= k ==> m'.shifts[i] == m.shifts[i])
      && (forall i :: k < i < |m.atoms| ==> m'.shifts[i] == m.shifts[i] + 1)
    ensures DatInvariant(m', k + 1, bs)
  {
    var a := m'.atoms[k];
    assert m'.atoms == m.atoms[k := a];
    forall i | 0 <= i < |m.atoms| ensures m'.shifts[i] == PromotedBelow(m'.atoms, i) {
      PromotedBelowUpdate(m.atoms, k, a, i);
      assert m.shifts[i] == PromotedBelow(m.atoms, i);
    }
    assert bs == DrudeBondsBelow(m'.atoms, k + 1) by {
      DrudeBondsBelowUpdate(m.atoms, k, a, k);
      PromotedBelowUpdate(m.atoms, k, a, k);
      assert PromotedBelow(m'.atoms, k) == m.shifts[k];
      assert DrudeBondsBelow(m'.atoms, k) == drudeBonds;
    }
  }

  /** One atom line keeps the invariant, provided no earlier atom equals the updated one. */
  lemma DatAtomLineKeeps(fl: Floats, includeDrude: bool, m: Molecule, k: int, line: string, drudeBonds: seq<Bond>)
    requires DatInvariant(m, k, drudeBonds) && k < |m.atoms|
    requires DatAtomLine(fl, includeDrude, m, k, line, drudeBonds).Success?
    requires var m' := DatAtomLine(fl, includeDrude, m, k, line, drudeBonds).value.0;
      forall i :: 0 <= i < k ==> !Same(m'.atoms[i], m'.atoms[k])
    ensures var step := DatAtomLine(fl, includeDrude, m, k, line, drudeBonds).value;
      && DatInvariant(step.0, k + 1, step.1)
      && (step.0.atoms[k].drude.Some? <==> DrudeLine(includeDrude, line))
  {
    var step := DatAtomLine(fl, includeDrude, m, k, line, drudeBonds).value;
    var m', bs := step.0, step.1;
    DatAtomLineReads(fl, includeDrude, m, k, line, drudeBonds);
    if DrudeLine(includeDrude, line) {
      assert bs == drudeBonds + [bs[|drudeBonds|]];
    }
    InvariantStep(m, k, drudeBonds, m', bs);
  }

  /** A pass that reads goes through atom `k`'s line first. */
  lemma DatAtomsUnfold(fl: Floats, lines: seq<string>, includeDrude: bool, m: Molecule, k: int, drudeBonds: seq<Bond>)
    requires Valid(m) && 0 <= k < |m.atoms|
    requires DatAtoms(fl, lines, includeDrude, m, k, drudeBonds).Success?
    ensures DatAtomLine(fl, includeDrude, m, k, LineAt(lines, k + 1), drudeBonds).Success?
    ensures var step := DatAtomLine(fl, includeDrude, m, k, LineAt(lines, k + 1), drudeBonds).value;
      DatAtoms(fl, lines, includeDrude, step.0, k + 1, step.1) == DatAtoms(fl, lines, includeDrude, m, k, drudeBonds)
  {
  }

  /** One turn of the .dat loop: atom `k` is read, the invariant moves on to
      `k + 1`, and the rest of the pass starts from there. */
  lemma DatAtomsStep(fl: Floats, lines: seq<string>, includeDrude: bool, m: Molecule, k: int, drudeBonds: seq<Bond>)
    requires DatInvariant(m, k, drudeBonds) && k < |m.atoms|
    requires DatAtoms(fl, lines, includeDrude, m, k, drudeBonds).Success?
    requires Distinct(DatAtoms(fl, lines, includeDrude, m, k, drudeBonds).value.0.atoms)
    ensures DatAtomLine(fl, includeDrude, m, k, LineAt(lines, k + 1), drudeBonds).Success?
    ensures var step := DatAtomLine(fl, includeDrude, m, k, LineAt(lines, k + 1), drudeBonds).value;
      && DatInvariant(step.0, k + 1, step.1)
      && DatAtoms(fl, lines, includeDrude, step.0, k + 1, step.1) == DatAtoms(fl, lines, includeDrude, m, k, drudeBonds)
  {
    var step := DatAtomLine(fl, includeDrude, m, k, LineAt(lines, k + 1), drudeBonds).value;
    var r := DatAtoms(fl, lines, includeDrude, step.0, k + 1, step.1).value;
    DistinctPrefix(r.0.atoms, step.0.atoms, k);
    DatAtomLineKeeps(fl, includeDrude, m, k, LineAt(lines, k + 1), drudeBonds);
  }

  /**
   * The .dat pass from atom `k` on, started in the invariant, ends in it for
   * all atoms when the final atoms are pairwise distinct: every shift counts
   * the satellites below its index and the satellite bonds are those of the
   * promoted atoms in ascending order.
   */
  lemma {:induction false} DatAtomsShifts(fl: Floats, lines: seq<string>, includeDrude: bool, m: Molecule, k: int, drudeBonds: seq<Bond>, r: (Molecule, seq<Bond>))
    requires DatInvariant(m, k, drudeBonds)
    requires DatAtoms(fl, lines, includeDrude, m, k, drudeBonds) == Success(r)
    requires Distinct(r.0.atoms)
    ensures DatInvariant(r.0, |m.atoms|, r.1)
    decreases |m.atoms| - k
  {
    if k < |m.atoms| {
      DatAtomsStep(fl, lines, includeDrude, m, k, drudeBonds);
      var step := DatAtomLine(fl, includeDrude, m, k, LineAt(lines, k + 1), drudeBonds).value;
      DatAtomsShifts(fl, lines, includeDrude, step.0, k + 1, step.1, r);
    }
  }

  /** In the same pass an atom from `k` on that had no satellite is promoted
      exactly when Drude is enabled and its line has at least five columns. */
  lemma {:induction false} DatAtomsPromotes(fl: Floats, lines: seq<string>, includeDrude: bool, m: Molecule, k: int, drudeBonds: seq<Bond>, r: (Molecule, seq<Bond>), i: int)
    requires Valid(m) && 0 <= k <= i < |m.atoms| && m.atoms[i].drude.None?
    requires DatAtoms(fl, lines, includeDrude, m, k, drudeBonds) == Success(r)
    ensures r.0.atoms[i].drude.Some? <==> DrudeLine(includeDrude, LineAt(lines, i + 1))
    decreases i - k
  {
    if k < i {
      DatAtomsUnfold(fl, lines, includeDrude, m, k, drudeBonds);
      var step := DatAtomLine(fl, includeDrude, m, k, LineAt(lines, k + 1), drudeBonds).value;
      DatAtomsPromotes(fl, lines, includeDrude, step.0, k + 1, step.1, r, i);
    } else {
      DatAtomPromoted(fl, lines, includeDrude, m, k, drudeBonds, r);
    }
  }

  /** The atom read first is promoted exactly on a Drude line, and keeps that for the rest of the pass. */
  lemma DatAtomPromoted(fl: Floats, lines: seq<string>, includeDrude: bool, m: Molecule, k: int, drudeBonds: seq<Bond>, r: (Molecule, seq<Bond>))
    requires Valid(m) && 0 <= k < |m.atoms| && m.atoms[k].drude.None?
    requires DatAtoms(fl, lines, includeDrude, m, k, drudeBonds) == Success(r)
    ensures r.0.atoms[k].drude.Some? <==> DrudeLine(includeDrude, LineAt(lines, k + 1))
  {
    DatAtomsUnfold(fl, lines, includeDrude, m, k, drudeBonds);
    var step := DatAtomLine(fl, includeDrude, m, k, LineAt(lines, k + 1), drudeBonds).value;
    DatAtomLineReads(fl, includeDrude, m, k, LineAt(lines, k + 1), drudeBonds);
    assert r.0.atoms[k] == step.0.atoms[k];
  }

  /** Distinctness of the final atoms carries over to a state that agrees with them up to `k`. */
  lemma DistinctPrefix(final: seq<Atom>, current: seq<Atom>, k: int)
    requires Distinct(final) && 0 <= k < |final| == |current|
    requires forall i :: 0 <= i <= k ==> final[i] == current[i]
    ensures forall i :: 0 <= i < k ==> !Same(current[i], current[k])
  {
    forall i | 0 <= i < k ensures !Same(current[i], current[k]) {
      assert !Same(final[i], final[k]);
    }
  }

  /** The bond rows of a .dat BONDS section from line `pos` on, up to the first
      line with an END token; a line with fewer than two columns raises IndexError. */
  function DatBonds(lines: seq<string>, pos: int, shifts: map<int, int>): (r: Result<seq<Bond>>)
    requires 0 <= pos
    decreases |lines| - pos
  {
    var t := Split(LineAt(lines, pos));
    if "END" in t then Success([])
    else if |t| < 1 then Failure(MissingField)
    else
      var a :- Shift(t[0], shifts);
      if |t| < 2 then Failure(MissingField)
      else
        var b :- Shift(t[1], shifts);
        assert pos < |lines|;
        var rest :- DatBonds(lines, pos + 1, shifts);
        Success([(a, b)] + rest)
  }

  /** A BONDS row as the parameter files write it: two 1-based indices. */
  function BondRow(b: Bond): string {
    Join([IntToString(b.0 + 1), IntToString(b.1 + 1)])
  }

  function BondRows(bs: seq<Bond>): seq<string> {
    if |bs| == 0 then [] else [BondRow(bs[0])] + BondRows(bs[1..])
  }

  /** The final index of a written bond end. */
  function Final(shifts: map<int, int>, i: int): int
    requires i in shifts
  {
    i + shifts[i]
  }

  /** The bonds in final indices, in order. */
  function FinalBonds(bs: seq<Bond>, shifts: map<int, int>): (r: seq<Bond>)
    requires forall k :: 0 <= k < |bs| ==> bs[k].0 in shifts && bs[k].1 in shifts
  {
    if |bs| == 0 then [] else [(Final(shifts, bs[0].0), Final(shifts, bs[0].1))] + FinalBonds(bs[1..], shifts)
  }

  /** The written 1-based index of an original atom is one token, not END,
      and shifts back to the atom's final index. */
  lemma IndexTokenReads(i: int, shifts: map<int, int>)
    requires i in shifts
    ensures Token(IntToString(i + 1)) && IntToString(i + 1) != "END"
    ensures Shift(IntToString(i + 1), shifts) == Success(Final(shifts, i))
  {
    IntToStringIsToken(i + 1);
    ParseIntRoundTrip(i + 1);
    assert ParseInt("END").None?;
    ShiftRoundTrip(i, shifts);
  }

  /** A written row splits into its two indices, neither of which is END, and
      each reads back as the final index of its end. */
  lemma BondRowReads(b: Bond, shifts: map<int, int>)
    requires b.0 in shifts && b.1 in shifts
    ensures var t := Split(BondRow(b));
      && |t| == 2 && "END" !in t
      && Shift(t[0], shifts) == Success(Final(shifts, b.0))
      && Shift(t[1], shifts) == Success(Final(shifts, b.1))
  {
    var ws := [IntToString(b.0 + 1), IntToString(b.1 + 1)];
    IndexTokenReads(b.0, shifts);
    IndexTokenReads(b.1, shifts);
    SplitJoin(ws);
    assert Split(BondRow(b)) == ws;
  }

  /**
   * Round trip of the BONDS section: rows written for bonds between original
   * atoms and closed by END read back as those bonds in final indices, one per
   * line and in order.
   */
  lemma {:induction false} DatBondsRoundTrip(bs: seq<Bond>, rest: seq<string>, shifts: map<int, int>)
    requires forall k :: 0 <= k < |bs| ==> bs[k].0 in shifts && bs[k].1 in shifts
    ensures DatBonds(BondRows(bs) + ["END"] + rest, 0, shifts) == Success(FinalBonds(bs, shifts))
    decreases |bs|
  {
    var lines := BondRows(bs) + ["END"] + rest;
    if |bs| == 0 {
      assert LineAt(lines, 0) == "END";
      assert Split("END") == ["END"] by { SplitJoin(["END"]); }
    } else {
      var b := bs[0];
      assert LineAt(lines, 0) == BondRow(b);
      BondRowReads(b, shifts);
      assert lines[1..] == BondRows(bs[1..]) + ["END"] + rest;
      DatBondsRoundTrip(bs[1..], rest, shifts);
      DatBondsShift(lines, shifts);
    }
  }

  /** FinalBonds keeps one bond per written bond, each end moved to its final index. */
  lemma {:induction false} FinalBondsExact(bs: seq<Bond>, shifts: map<int, int>)
    requires forall k :: 0 <= k < |bs| ==> bs[k].0 in shifts && bs[k].1 in shifts
    ensures |FinalBonds(bs, shifts)| == |bs|
    ensures forall k :: 0 <= k < |bs| ==> FinalBonds(bs, shifts)[k] == (bs[k].0 + shifts[bs[k].0], bs[k].1 + shifts[bs[k].1])
    decreases |bs|
  {
    if |bs| > 0 {
      FinalBondsExact(bs[1..], shifts);
      forall k | 0 < k < |bs| ensures FinalBonds(bs, shifts)[k] == (bs[k].0 + shifts[bs[k].0], bs[k].1 + shifts[bs[k].1]) {
        assert bs[k] == bs[1..][k - 1];
      }
    }
  }

  /** Reading from line 1 on is reading the lines after the first from 0 on. */
  lemma {:induction false} DatBondsShift(lines: seq<string>, shifts: map<int, int>)
    requires |lines| > 0
    ensures DatBonds(lines, 1, shifts) == DatBonds(lines[1..], 0, shifts)
  {
    DatBondsFrom(lines, 1, shifts);
  }

  lemma {:induction false} DatBondsFrom(lines: seq<string>, pos: int, shifts: map<int, int>)
    requires 1 <= pos
    requires |lines| > 0
    ensures DatBonds(lines, pos, shifts) == DatBonds(lines[1..], pos - 1, shifts)
    decreases |lines| - pos
  {
    assert LineAt(lines, pos) == LineAt(lines[1..], pos - 1);
    if pos < |lines| {
      DatBondsFrom(lines, pos + 1, shifts);
    }
  }

  /**
   * __read_dat_data: the residue name from line 0, the atom lines, the
   * satellite bonds, and then, outside Tinker mode, the bonds: read from a
   * BONDS section when the line after the atoms mentions BONDS, derived
   * geometrically otherwise.
   */
  function ReadDat(fl: Floats, lines: seq<string>, tinker: bool, includeDrude: bool, m: Molecule): (r: Result<Molecule>)
    requires Valid(m)
    ensures r.Success? ==>
      && Valid(r.value) && |r.value.atoms| == |m.atoms|
      && r.value.residueName == LineAt(lines, 0)
      && r.value.drudeBonds.Some?
      && r.value.angles == m.angles && r.value.dihedrals == m.dihedrals
      && (tinker ==> r.value.bonds == m.bonds)
      && (!tinker ==> r.value.bonds.Some?)
    ensures r.Success? ==>
      var pass := DatAtoms(fl, lines, includeDrude, m.(residueName := LineAt(lines, 0)), 0, []);
      && pass.Success?
      && r.value.atoms == pass.value.0.atoms && r.value.shifts == pass.value.0.shifts
      && r.value.drudeBonds == Some(pass.value.1)
    ensures
      var pass := DatAtoms(fl, lines, includeDrude, m.(residueName := LineAt(lines, 0)), 0, []);
      pass.Success? ==>
        var m1 := pass.value.0.(drudeBonds := Some(pass.value.1));
        && (tinker ==> r == Success(m1))
        && (!tinker && Contains(LineAt(lines, |m.atoms| + 1), "BONDS") ==>
              && (r.Success? <==> DatBonds(lines, |m.atoms| + 2, m1.shifts).Success?)
              && (r.Success? ==> r.value == m1.(bonds := Some(DatBonds(lines, |m.atoms| + 2, m1.shifts).value))))
        && (!tinker && !Contains(LineAt(lines, |m.atoms| + 1), "BONDS") ==> r == DetermineBonds(m1, DEFAULT_THRESHOLD))
    ensures DatAtoms(fl, lines, includeDrude, m.(residueName := LineAt(lines, 0)), 0, []).Failure? ==> r.Failure?
  {
    var m0 := m.(residueName := LineAt(lines, 0));
    var pass :- DatAtoms(fl, lines, includeDrude, m0, 0, []);
    var m1 := pass.0.(drudeBonds := Some(pass.1));
    if tinker then Success(m1)
    else if Contains(LineAt(lines, |m.atoms| + 1), "BONDS") then
      var bonds :- DatBonds(lines, |m.atoms| + 2, m1.shifts);
      Success(m1.(bonds := Some(bonds)))
    else DetermineBonds(m1, DEFAULT_THRESHOLD)
  }

  /**
   * The .dat pass on a fresh molecule: the shift table and the satellite
   * bonds come out as the ascending insertion promises, whenever the labelled
   * atoms are pairwise distinct.
   */
  lemma ReadDatShifts(fl: Floats, lines: seq<string>, tinker: bool, includeDrude: bool, atoms: seq<Atom>, residueName: string)
    requires forall i :: 0 <= i < |atoms| ==> atoms[i].drude.None?
    requires ReadDat(fl, lines, tinker, includeDrude, NewMolecule(atoms, residueName)).Success?
    requires Distinct(ReadDat(fl, lines, tinker, includeDrude, NewMolecule(atoms, residueName)).value.atoms)
    ensures var m := ReadDat(fl, lines, tinker, includeDrude, NewMolecule(atoms, residueName)).value;
      && (forall i :: 0 <= i < |atoms| ==> m.shifts[i] == PromotedBelow(m.atoms, i))
      && (forall i :: 0 <= i < |atoms| ==> (m.atoms[i].drude.Some? <==> DrudeLine(includeDrude, LineAt(lines, i + 1))))
      && m.drudeBonds == Some(DrudeBondsBelow(m.atoms, |atoms|))
  {
    var m := NewMolecule(atoms, residueName);
    var m0 := m.(residueName := LineAt(lines, 0));
    var r := ReadDat(fl, lines, tinker, includeDrude, m).value;
    var pass := DatAtoms(fl, lines, includeDrude, m0, 0, []);
    assert pass.Success? && r.atoms == pass.value.0.atoms && r.shifts == pass.value.0.shifts;
    assert r.drudeBonds == Some(pass.value.1);
    FreshPass(fl, lines, includeDrude, m0);
  }

  /** The .dat pass started on a molecule without satellites ends in the invariant. */
  lemma FreshPass(fl: Floats, lines: seq<string>, includeDrude: bool, m0: Molecule)
    requires Valid(m0) && Unshifted(m0)
    requires forall i :: 0 <= i < |m0.atoms| ==> m0.atoms[i].drude.None?
    requires DatAtoms(fl, lines, includeDrude, m0, 0, []).Success?
    requires Distinct(DatAtoms(fl, lines, includeDrude, m0, 0, []).value.0.atoms)
    ensures var r := DatAtoms(fl, lines, includeDrude, m0, 0, []).value;
      && DatInvariant(r.0, |m0.atoms|, r.1)
      && (forall i :: 0 <= i < |m0.atoms| ==> (r.0.atoms[i].drude.Some? <==> DrudeLine(includeDrude, LineAt(lines, i + 1))))
  {
    FreshInvariant(m0.atoms, m0);
    var r := DatAtoms(fl, lines, includeDrude, m0, 0, []).value;
    DatAtomsShifts(fl, lines, includeDrude, m0, 0, [], r);
    forall i | 0 <= i < |m0.atoms| ensures r.0.atoms[i].drude.Some? <==> DrudeLine(includeDrude, LineAt(lines, i + 1)) {
      DatAtomsPromotes(fl, lines, includeDrude, m0, 0, [], r, i);
    }
  }

  /** A fresh molecule is in the invariant before its first atom. */
  lemma FreshInvariant(atoms: seq<Atom>, m: Molecule)
    requires forall i :: 0 <= i < |atoms| ==> atoms[i].drude.None?
    requires Valid(m) && m.atoms == atoms && Unshifted(m)
    ensures DatInvariant(m, 0, [])
  {
    forall i | 0 <= i < |atoms| ensures m.shifts[i] == PromotedBelow(m.atoms, i) {
      NoneBelow(atoms, i);
    }
  }

  /** With no satellites yet, no count is above zero. */
  lemma {:induction false} NoneBelow(atoms: seq<Atom>, i: int)
    requires 0 <= i <= |atoms|
    requires forall j :: 0 <= j < |atoms| ==> atoms[j].drude.None?
    ensures PromotedBelow(atoms, i) == 0
    decreases i
  {
    if i > 0 {
      NoneBelow(atoms, i - 1);
    }
  }

  /** __jump_to_conn_section: the position after the first line from `pos` on
      that contains the title and the header lines after it. The source loops
      forever when no line does, since readline() past the end keeps giving
      "", which contains no non-empty title; that is SectionNotFound here. */
  function JumpToSection(lines: seq<string>, pos: int, title: string): (r: Result<int>)
    requires 0 <= pos && |title| > 0
    ensures r.Success? ==>
      exists k :: pos <= k < |lines| && Contains(lines[k], title) && r.value == k + 1 + CONN_LINES_TO_OMIT
        && forall j :: pos <= j < k ==> !Contains(lines[j], title)
    ensures r.Failure? <==> forall j :: pos <= j < |lines| ==> !Contains(lines[j], title)
    ensures r.Failure? ==> r.error == SectionNotFound
    decreases |lines| - pos
  {
    if pos >= |lines| then Failure(SectionNotFound)
    else if Contains(lines[pos], title) then Success(pos + 1 + CONN_LINES_TO_OMIT)
    else JumpToSection(lines, pos + 1, title)
  }

  /** Columns lo..hi-1 of a row, each shifted, left to right. */
  function ShiftFields(t: seq<string>, lo: int, hi: int, shifts: map<int, int>): (r: Result<seq<int>>)
    requires 0 <= lo <= hi
    ensures r.Success? ==> (lo < hi ==> hi <= |t|) && |r.value| == hi - lo
    decreases hi - lo
  {
    if lo == hi then Success([])
    else if lo >= |t| then Failure(MissingField)
    else
      var v :- Shift(t[lo], shifts);
      var rest :- ShiftFields(t, lo + 1, hi, shifts);
      Success([v] + rest)
  }

  /** The columns read are exactly the shifted tokens, and they are read
      whenever every one of them is present and shifts. */
  lemma {:induction false} ShiftFieldsExact(t: seq<string>, lo: int, hi: int, shifts: map<int, int>)
    requires 0 <= lo <= hi
    ensures var r := ShiftFields(t, lo, hi, shifts);
      r.Success? ==> forall i :: lo <= i < hi ==> Shift(t[i], shifts) == Success(r.value[i - lo])
    ensures hi <= |t| && (forall i :: lo <= i < hi ==> Shift(t[i], shifts).Success?) ==> ShiftFields(t, lo, hi, shifts).Success?
    decreases hi - lo
  {
    if lo < hi && lo < |t| {
      ShiftFieldsExact(t, lo + 1, hi, shifts);
    }
  }

  /**
   * One .conn section from line `pos` on: every line up to the first blank one
   * gives a row of columns 1..width, shifted; the blank line is consumed.
   */
  function ConnRows(lines: seq<string>, pos: int, width: nat, shifts: map<int, int>): (r: Result<(seq<seq<int>>, int)>)
    requires 0 <= pos
    ensures r.Success? ==> r.value.1 == pos + |r.value.0| + 1
    ensures r.Success? ==> forall j :: 0 <= j < |r.value.0| ==> |r.value.0[j]| == width
    decreases |lines| - pos
  {
    var line := LineAt(lines, pos);
    if Blank(line) then Success(([], pos + 1))
    else
      assert pos < |lines|;
      var row :- ShiftFields(Split(line), 1, width + 1, shifts);
      var rest :- ConnRows(lines, pos + 1, width, shifts);
      Success(([row] + rest.0, rest.1))
  }

  /** A section that reads ends by consuming a blank line. */
  lemma {:induction false} ConnRowsClosed(lines: seq<string>, pos: int, width: nat, shifts: map<int, int>)
    requires 0 <= pos
    requires ConnRows(lines, pos, width, shifts).Success?
    ensures Blank(LineAt(lines, ConnRows(lines, pos, width, shifts).value.1 - 1))
    decreases |lines| - pos
  {
    if Blank(LineAt(lines, pos)) {
      ConnRowsStop(lines, pos, width, shifts);
    } else {
      ConnRowsNext(lines, pos, width, shifts);
      ConnRowsClosed(lines, pos + 1, width, shifts);
    }
  }

  /** Every line of a section before its closing line is non-blank, so the
      section ends at the first blank line from `pos` on. */
  lemma {:induction false} ConnRowsBoundary(lines: seq<string>, pos: int, width: nat, shifts: map<int, int>)
    requires 0 <= pos
    requires ConnRows(lines, pos, width, shifts).Success?
    ensures forall j :: pos <= j < ConnRows(lines, pos, width, shifts).value.1 - 1 ==> !Blank(LineAt(lines, j))
    decreases |lines| - pos
  {
    if Blank(LineAt(lines, pos)) {
      ConnRowsStop(lines, pos, width, shifts);
    } else {
      ConnRowsNext(lines, pos, width, shifts);
      ConnRowsBoundary(lines, pos + 1, width, shifts);
      NonBlankRun(lines, pos, ConnRows(lines, pos, width, shifts).value.1);
    }
  }

  /** A blank line closes the section at once, with no rows. */
  lemma ConnRowsStop(lines: seq<string>, pos: int, width: nat, shifts: map<int, int>)
    requires 0 <= pos && Blank(LineAt(lines, pos))
    ensures ConnRows(lines, pos, width, shifts) == Success(([], pos + 1))
  {
  }

  /** A non-blank line in front of a run of non-blank lines extends the run. */
  lemma NonBlankRun(lines: seq<string>, pos: int, next: int)
    requires !Blank(LineAt(lines, pos))
    requires forall j :: pos + 1 <= j < next - 1 ==> !Blank(LineAt(lines, j))
    ensures forall j :: pos <= j < next - 1 ==> !Blank(LineAt(lines, j))
  {
    forall j | pos <= j < next - 1 ensures !Blank(LineAt(lines, j)) {
      if j > pos {
        assert pos + 1 <= j < next - 1;
      }
    }
  }

  /** After a non-blank line the section goes on from the next line and ends where that rest ends. */
  lemma ConnRowsNext(lines: seq<string>, pos: int, width: nat, shifts: map<int, int>)
    requires 0 <= pos && !Blank(LineAt(lines, pos))
    requires ConnRows(lines, pos, width, shifts).Success?
    ensures ConnRows(lines, pos + 1, width, shifts).Success?
    ensures ConnRows(lines, pos + 1, width, shifts).value.1 == ConnRows(lines, pos, width, shifts).value.1
  {
  }

  /** A section that reads is either its closing blank line alone, or a row
      followed by the rest of the section. */
  lemma ConnRowsUnfold(lines: seq<string>, pos: int, width: nat, shifts: map<int, int>)
    requires 0 <= pos
    requires ConnRows(lines, pos, width, shifts).Success?
    requires |ConnRows(lines, pos, width, shifts).value.0| > 0
    ensures pos < |lines|
    ensures ShiftFields(Split(lines[pos]), 1, width + 1, shifts).Success?
    ensures ConnRows(lines, pos + 1, width, shifts).Success?
    ensures ConnRows(lines, pos, width, shifts).value.0
      == [ShiftFields(Split(lines[pos]), 1, width + 1, shifts).value] + ConnRows(lines, pos + 1, width, shifts).value.0
  {
  }

  /** Line k of a section, from `pos` on, is its row k - pos read as columns 1..width. */
  lemma {:induction false} ConnRowsContent(lines: seq<string>, pos: int, width: nat, shifts: map<int, int>, k: int)
    requires 0 <= pos <= k
    requires ConnRows(lines, pos, width, shifts).Success?
    requires k < pos + |ConnRows(lines, pos, width, shifts).value.0|
    ensures k < |lines|
    ensures ShiftFields(Split(lines[k]), 1, width + 1, shifts)
      == Success(ConnRows(lines, pos, width, shifts).value.0[k - pos])
    decreases |lines| - pos
  {
    ConnRowsUnfold(lines, pos, width, shifts);
    if k > pos {
      var rows := ConnRows(lines, pos, width, shifts).value.0;
      var rest := ConnRows(lines, pos + 1, width, shifts).value.0;
      assert rows[k - pos] == rest[k - (pos + 1)];
      ConnRowsContent(lines, pos + 1, width, shifts, k);
    }
  }

  function ToBonds(rows: seq<seq<int>>): (bs: seq<Bond>)
    requires forall j :: 0 <= j < |rows| ==> |rows[j]| == 2
    ensures |bs| == |rows| && forall j :: 0 <= j < |rows| ==> bs[j] == (rows[j][0], rows[j][1])
  {
    seq(|rows|, j requires 0 <= j < |rows| => (rows[j][0], rows[j][1]))
  }

  function ToAngles(rows: seq<seq<int>>): (as_: seq<Angle>)
    requires forall j :: 0 <= j < |rows| ==> |rows[j]| == 3
    ensures |as_| == |rows| && forall j :: 0 <= j < |rows| ==> as_[j] == (rows[j][0], rows[j][1], rows[j][2])
  {
    seq(|rows|, j requires 0 <= j < |rows| => (rows[j][0], rows[j][1], rows[j][2]))
  }

  function ToDihedrals(rows: seq<seq<int>>): (ds: seq<Dihedral>)
    requires forall j :: 0 <= j < |rows| ==> |rows[j]| == 4
    ensures |ds| == |rows| && forall j :: 0 <= j < |rows| ==> ds[j] == (rows[j][0], rows[j][1], rows[j][2], rows[j][3])
  {
    seq(|rows|, j requires 0 <= j < |rows| => (rows[j][0], rows[j][1], rows[j][2], rows[j][3]))
  }

  /**
   * __read_conn_data: the bond section always, the angle section only for
   * more than two atoms and the dihedral section only for more than three,
   * each searched from where the previous one ended.
   */
  function ReadConn(lines: seq<string>, m: Molecule): (r: Result<Molecule>)
    ensures r.Success? ==>
      && r.value == m.(bonds := r.value.bonds, angles := r.value.angles, dihedrals := r.value.dihedrals)
      && r.value.bonds.Some?
      && (r.value.angles.Some? <==> |m.atoms| > 2 || m.angles.Some?)
      && (|m.atoms| <= 2 ==> r.value.angles == m.angles)
      && (r.value.dihedrals.Some? <==> |m.atoms| > 3 || m.dihedrals.Some?)
      && (|m.atoms| <= 3 ==> r.value.dihedrals == m.dihedrals)
    ensures r.Success? ==>
      && JumpToSection(lines, 0, BOND_SECTION_BEGINNING).Success?
      && var p1 := JumpToSection(lines, 0, BOND_SECTION_BEGINNING).value;
      && ConnRows(lines, p1, 2, m.shifts).Success?
      && var bondRows := ConnRows(lines, p1, 2, m.shifts).value;
      && r.value.bonds == Some(ToBonds(bondRows.0))
      && (|m.atoms| > 2 ==>
            && JumpToSection(lines, bondRows.1, ANGLE_SECTION_BEGINNING).Success?
            && var p2 := JumpToSection(lines, bondRows.1, ANGLE_SECTION_BEGINNING).value;
            && ConnRows(lines, p2, 3, m.shifts).Success?
            && var angleRows := ConnRows(lines, p2, 3, m.shifts).value;
            && r.value.angles == Some(ToAngles(angleRows.0))
            && (|m.atoms| > 3 ==>
                  && JumpToSection(lines, angleRows.1, DIHEDRAL_SECTION_BEGINNING).Success?
                  && var p3 := JumpToSection(lines, angleRows.1, DIHEDRAL_SECTION_BEGINNING).value;
                  && ConnRows(lines, p3, 4, m.shifts).Success?
                  && r.value.dihedrals == Some(ToDihedrals(ConnRows(lines, p3, 4, m.shifts).value.0))))
  {
    var p1 :- JumpToSection(lines, 0, BOND_SECTION_BEGINNING);
    var bondRows :- ConnRows(lines, p1, 2, m.shifts);
    var m1 := m.(bonds := Some(ToBonds(bondRows.0)));
    if |m.atoms| <= 2 then Success(m1)
    else
      var p2 :- JumpToSection(lines, bondRows.1, ANGLE_SECTION_BEGINNING);
      var angleRows :- ConnRows(lines, p2, 3, m.shifts);
      var m2 := m1.(angles := Some(ToAngles(angleRows.0)));
      if |m.atoms| <= 3 then Success(m2)
      else
        var p3 :- JumpToSection(lines, angleRows.1, DIHEDRAL_SECTION_BEGINNING);
        var dihedralRows :- ConnRows(lines, p3, 4, m.shifts);
        Success(m2.(dihedrals := Some(ToDihedrals(dihedralRows.0))))
  }

  /**
   * The Tinker path for one molecule kind: the .dat pass without bonds, then
   * the .conn file, which is read only for more than one atom.
   */
  function ReadTinker(fl: Floats, datLines: seq<string>, connLines: seq<string>, includeDrude: bool, atoms: seq<Atom>)
    : (r: Result<Molecule>)
    ensures r.Success? ==>
      && (r.value.bonds.Some? <==> |atoms| > 1)
      && (r.value.angles.Some? <==> |atoms| > 2)
      && (r.value.dihedrals.Some? <==> |atoms| > 3)
    ensures r.Success? <==>
      && ReadDat(fl, datLines, true, includeDrude, NewMolecule(atoms, "MOL")).Success?
      && (|atoms| > 1 ==> ReadConn(connLines, ReadDat(fl, datLines, true, includeDrude, NewMolecule(atoms, "MOL")).value).Success?)
    ensures r.Success? ==>
      var d := ReadDat(fl, datLines, true, includeDrude, NewMolecule(atoms, "MOL")).value;
      && r.value.atoms == d.atoms && r.value.shifts == d.shifts
      && r.value.residueName == d.residueName && r.value.drudeBonds == d.drudeBonds
      && (|atoms| > 1 ==> r == ReadConn(connLines, d))
      && (|atoms| <= 1 ==> r.value == d)
  {
    var m :- ReadDat(fl, datLines, true, includeDrude, NewMolecule(atoms, "MOL"));
    if |atoms| > 1 then ReadConn(connLines, m) else Success(m)
  }

  /**
   * The default path for one molecule kind: the .dat pass, which always
   * leaves bonds, then the derived angles and dihedrals, which therefore
   * cannot fail.
   */
  function ReadDefault(fl: Floats, datLines: seq<string>, includeDrude: bool, atoms: seq<Atom>): (r: Result<Molecule>)
    ensures r.Success? <==> ReadDat(fl, datLines, false, includeDrude, NewMolecule(atoms, "MOL")).Success?
    ensures r.Success? ==>
      var d := ReadDat(fl, datLines, false, includeDrude, NewMolecule(atoms, "MOL")).value;
      && r.value.bonds == d.bonds && r.value.angles.Some? && r.value.dihedrals.Some?
      && r.value.atoms == d.atoms && r.value.shifts == d.shifts && r.value.drudeBonds == d.drudeBonds
      && (forall a :: a in r.value.angles.value ==>
            0 <= a.1 < |atoms| && (a.0, a.1) in d.bonds.value && (a.1, a.2) in d.bonds.value)
      && (forall x :: x in r.value.dihedrals.value <==>
            (x.0, x.1, x.2) in r.value.angles.value && (x.2, x.3) in d.bonds.value && 0 <= x.2 < |atoms|)
  {
    var m :- ReadDat(fl, datLines, false, includeDrude, NewMolecule(atoms, "MOL"));
    var withAngles := DetermineAngles(m);
    assert forall a :: a in withAngles.angles.value ==>
      0 <= a.1 < |atoms| && (a.0, a.1) in m.bonds.value && (a.1, a.2) in m.bonds.value by {
      forall a | a in withAngles.angles.value
        ensures 0 <= a.1 < |atoms| && (a.0, a.1) in m.bonds.value && (a.1, a.2) in m.bonds.value {
        DetermineAnglesSound(m, a);
      }
    }
    DetermineDihedrals(withAngles)
  }
}
