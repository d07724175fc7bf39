# Topology construction and index remapping, in Dafny

This project models the core of a tool that builds the topology of a
molecular system for polarisable force fields. The core is `utils/model.py`
with the connectivity readers of `utils/readingutils.py`.

- **Molecule.** A molecule holds its atoms in original order and a *shift
  table*. For each original index `i`, the table gives the number of Drude
  satellites inserted at lower original indices. So atom `i` sits at final
  index `i + shifts[i]` in the Drude-inclusive atom sequence, and its
  satellite, if any, sits right after it.
- **`add_drude_atom`.** Gives an atom its satellite. Part of the atom's
  charge and mass moves onto the satellite. The (atom, satellite) bond is
  recorded in final indices, and every later shift moves up by one.
- **Bonds.** `determine_bonds` compares every pair of atoms once against a
  distance threshold.
- **Angles and dihedrals.** `determine_angles` and `determine_dihedrals`
  derive them from the bonds.
- **Reading.** The readers take atom parameters, Drude polarisabilities,
  bonds, angles and dihedrals from `.dat` and Tinker `.conn` tables. Every
  1-based table index goes through `shift` to become a final index.
- **Packmol.** The Packmol manifest parser yields the output file name and
  the (structure file, instance count) pairs.
- **System.** A `System` adds up atom counts with and without satellites.

Files, one module each:

- `outcomes.dfy`: `Result`/`Option`, plus one error constructor per exception the code can raise.
- `text.dfy`: `str.split()`, `in` on strings, `int()`, and the decimal rendering `int()` reads back.
- `geometry.dfy`: coordinates and the squared distance test.
- `atoms.dfy`: atoms, equality, lookup by equality (`list.index`), satellite creation.
- `molecules.dfy`: the molecule, the shift table, `add_drude_atom`, the atom counts, the Drude-inclusive layout.
- `bonds.dfy`: `determine_bonds`.
- `derivation.dfy`: `determine_angles` and `determine_dihedrals`.
- `systems.dfy`: `System` counts.
- `reading.dfy`: `shift`, the `.dat` pass, the `.conn` section readers, the two per-molecule paths.
- `packmol.dfy`: `parse_packmol_input`.
- `scenarios.dfy`: concrete inputs. These are the bond unit test and the inputs on which the recorded quirks show.

Every operation is a pure function: an object that the source mutates
becomes an old-state → new-state function. Input files are sequences of
lines. `readline()` past the end of a file gives `""` (`Reading.LineAt`).

### Behaviour of the code that the model keeps

- **Atom lookup is by equality.** `atoms.index(atom)` finds the first atom
  equal to the given one (`Atoms.FirstSame`). Equality compares symbol,
  coordinates, charge, mass and engine symbol, not the satellite. The
  position-based properties therefore carry a hypothesis that the atoms are
  pairwise distinct.
- **`determine_bonds` shifts its running atom index in place.** Each time a
  bond is found, it shifts `atom_index` again. The clean "exactly the close
  pairs, sorted" result holds only while all shifts are zero. With non-zero
  shifts, a second bonded neighbour sees a doubly shifted index
  (`BondDetection.RunningIndexShiftsTwice`).
- **`determine_angles` filters one shared iterator twice.** At each vertex,
  only the first incoming bond is paired, and only with outgoing bonds listed
  after it. The guarantee is soundness (`Derivation.AnglesAtSound`). The full
  incoming × outgoing pairing holds only under the ordering condition of
  `Derivation.AnglesAtComplete`. Two scenarios show an angle being missed.
  - The bonds (0,2) and (1,2) both enter atom 2, so `determine_angles`
    derives no angle from them, although an incoming × outgoing pairing
    would give (0,2,1) (`Scenarios.WaterAngles`).
- **Vertex loops cover original indices only.** Both derivers loop over
  `range(atoms_number)`, not over final indices.
- **`determine_dihedrals` with angles set but bonds unset** raises
  TypeError as soon as the vertex loop runs.

## Model

| member | source | states |
|---|---|---|
| Text.SplitJoin | utils/readingutils.py:37 | a line of single-space-joined tokens splits back into exactly those tokens |
| Text.SplitEmptyIffBlank | utils/readingutils.py:191-192 | a line splits into no tokens exactly when it is blank (strips to "") |
| Text.ParseIntRoundTrip | utils/readingutils.py:237 | int() reads back the decimal rendering of every integer |
| Geometry.SquaredTestExact | utils/model.py:226 | for a non-negative distance, `distance <= threshold` holds exactly when the squared test holds, so the squared model decides the same bonds |
| Geometry.WithinThresholdSymmetric | utils/model.py:27-31 | the distance test does not depend on the order of the two atoms |
| Geometry.ThresholdInclusive | utils/model.py:226 | atoms exactly at the threshold distance are bonded |
| Atoms.FirstSame | utils/model.py:196 | list.index by equality: the first position holding an atom equal to the given one |
| Atoms.FirstSameIsPosition | utils/model.py:224 | when no earlier atom is equal, the lookup returns the atom's own position |
| Atoms.DrudeChargeSign | utils/model.py:113 | with a square root that fails exactly on negative arguments and otherwise returns the non-negative root, the satellite charge fails exactly for a negative polarizability, is never positive, and squares to the factor squared times polarizability × bond constant |
| Atoms.DrudeSymbol | utils/model.py:112 | the satellite label is "D" followed by at most the first two characters of the parent label |
| Atoms.CreateDrudeAtom | utils/model.py:111-118 | parent mass plus satellite mass, and parent charge plus satellite charge, equal the parent's before; the satellite keeps symbol and coordinates and carries the 0.4 mass |
| Molecules.NewMolecule | utils/model.py:128-136 | a new molecule has nothing derived and a shift table whose keys are exactly 0..n-1, all mapped to 0 |
| Molecules.ZeroShifts | utils/model.py:136 | the dict comprehension has exactly the keys 0..n-1, each mapped to 0 |
| Molecules.CountWithDrude | utils/model.py:142-144 | the reduce counts n plus the number of atoms that own a satellite |
| Molecules.AtomsNumberWithDrudeBounds | utils/model.py:142-144 | atoms_number ≤ atoms_number_with_drude ≤ 2·atoms_number, and the difference is the number of satellites |
| Molecules.AddDrudeAtom | utils/model.py:194-201 | only atom k changes, and it conserves mass and charge; one Drude bond is appended; for a first-of-its-kind atom that bond is (k + shifts[k], that + 1) with the old shift, shifts ≤ k are unchanged and shifts after k grow by one |
| Molecules.PromotedBelowUpdate | utils/model.py:200-201 | giving atom k a satellite adds one to the satellite count below every later index and leaves earlier counts alone |
| Molecules.PromotedBelowMonotone | utils/model.py:194-201 | counts of satellites below an index, hence shift tables built in ascending order, are non-decreasing and grow by at most one per index |
| Molecules.FinalIndexLayout | utils/model.py:196-198 | in the Drude-inclusive atom sequence, original atom i sits at i + shifts[i] and its satellite right after it |
| Molecules.FinalIndicesOrdered | utils/model.py:197-201 | final indices keep the original order and leave room for each satellite |
| BondDetection.DetermineBonds | utils/model.py:220-231 | determine_bonds sets the bonds and changes nothing else; zero or one atom gives no bonds |
| BondDetection.NeighbourBondsUnshifted | utils/model.py:225-230 | with zero shifts, the inner loop for atom i yields exactly the close pairs (i, j) with j in its range, in increasing order |
| BondDetection.BondRowsUnshifted | utils/model.py:223-230 | with zero shifts, the outer loop from atom i yields exactly the close pairs starting at i or later, in lexicographic order |
| BondDetection.DetermineBondsUnshifted | utils/model.py:220-231 | with zero shifts and distinct atoms, determine_bonds succeeds with exactly the pairs i < j within the threshold, each once, in lexicographic order |
| BondDetection.DetermineBondsExactly | utils/model.py:220-231 | any strictly sorted list of exactly those pairs is the result of determine_bonds |
| BondDetection.RunningIndexShiftsTwice | utils/model.py:225-230 | after one bond is found, the next bond's left end is the already shifted index shifted again |
| Derivation.Outgoing | utils/model.py:241 | the bonds leaving a vertex, all and only those |
| Derivation.FirstIncoming | utils/model.py:239-240 | the position of the first bond entering a vertex, with none before it |
| Derivation.AnglesAtExact | utils/model.py:238-245 | the angles at v pair the first bond entering v with exactly the bonds leaving v that come after it in the list |
| Derivation.AnglesAtSound | utils/model.py:243-245 | every angle (a, v, c) at v has bonds (a, v) and (v, c) |
| Derivation.AnglesAtComplete | utils/model.py:239-245 | when v has one incoming bond listed before all its outgoing ones, the angles at v are exactly the incoming × outgoing pairs |
| Derivation.AnglesFromExact | utils/model.py:237-247 | the vertex loop collects exactly the angles centred on vertices in range |
| Derivation.AnglesFromSound | utils/model.py:237-247 | every collected angle has its centre in range and both of its bonds in the list |
| Derivation.DetermineAngles | utils/model.py:233-247 | unset bonds leave the molecule unchanged; otherwise only the angles are set |
| Derivation.DetermineAnglesSound | utils/model.py:233-247 | every angle (a, i, c) recorded has bonds (a, i) and (i, c) and 0 ≤ i < n |
| Derivation.Ending | utils/model.py:255 | the angles whose last atom is v, all and only those |
| Derivation.Extend3 | utils/model.py:258-260 | the double loop yields |lefts| × |rights| dihedrals, exactly the left angles extended by a right bond's end |
| Derivation.DihedralsAt | utils/model.py:254-260 | the dihedrals through v are exactly angle (a, b, v) extended by bond (v, d) |
| Derivation.DihedralsFrom | utils/model.py:253-262 | the vertex loop collects exactly the angle + bond extensions through vertices in range |
| Derivation.DetermineDihedrals | utils/model.py:249-262 | unset angles leave the molecule unchanged; it fails exactly when angles are set, bonds unset and the loop runs; otherwise only dihedrals are set, to exactly angle (a, b, c) + bond (c, d) with c < n |
| Systems.DrudeSurplus | utils/model.py:283-297 | the Drude-inclusive system count exceeds the plain count by exactly the satellites of all instances |
| Systems.SatellitesBounded | utils/model.py:283-297 | with non-negative instance counts, the satellites are between zero and the plain count |
| Systems.SystemCounts | utils/model.py:283-297 | with non-negative instance counts, atoms_number ≤ atoms_number_with_drude ≤ 2·atoms_number |
| Reading.Shift | utils/readingutils.py:235-239 | a malformed token raises ValueError, an index outside the table KeyError; otherwise the result is i + shifts[i] for the 0-based index i |
| Reading.ShiftRoundTrip | utils/readingutils.py:235-239 | the written 1-based index of atom i reads back as its final index i + shifts[i] |
| Reading.ShiftUnshifted | utils/readingutils.py:235-239 | with zero shifts, shift succeeds exactly on 1..n and is the plain 1-based to 0-based conversion |
| Reading.ShiftFindsAtom | utils/readingutils.py:235-239 | once shifts[i] counts the satellites below i, the written 1-based index i + 1 reads back as i plus that count, the slot that Molecules.FinalIndexLayout shows holds atom i |
| Reading.DrudeBondsBelowLayout | utils/readingutils.py:141-144 | each recorded Drude bond joins a promoted atom's final slot to the next one |
| Reading.DatAtomLine | utils/readingutils.py:136-142 | an atom line changes only atom k, keeps its element and coordinates, and leaves a valid shift table |
| Reading.DatAtomLineFails | utils/readingutils.py:136-142 | an atom line fails exactly when a column it needs is missing or malformed, or the satellite charge cannot be computed |
| Reading.DatAtomLineReads | utils/readingutils.py:136-142 | an atom line that reads sets the engine symbol, charge and mass (shared with the satellite on a Drude line), and only a Drude line adds a satellite bond and, when no earlier atom equals atom k, shifts the later indices |
| Reading.DatAtoms | utils/readingutils.py:135-142 | the atom pass keeps symbols and coordinates, touches only atoms and shifts, and leaves earlier atoms alone |
| Reading.InvariantStep | utils/readingutils.py:135-142 | satellite insertion in ascending order keeps every shift equal to the satellite count below it |
| Reading.DatAtomsShifts | utils/readingutils.py:135-144 | the pass ends with every shift equal to the satellites below its index and the Drude bonds those of the promoted atoms in ascending order |
| Reading.DatAtomsPromotes | utils/readingutils.py:135-144 | in the pass, an atom that had no satellite gets one exactly when Drude is enabled and its line has a fifth column |
| Reading.FreshPass | utils/readingutils.py:132-144 | the pass over a fresh molecule ends in that invariant |
| Reading.ReadDat | utils/readingutils.py:130-160 | the residue name comes from line 0; atoms, shifts and Drude bonds come from the atom pass; angles and dihedrals are untouched; in Tinker mode nothing else is read; otherwise a BONDS line makes the bonds exactly the shifted rows read up to END (and their failure the reader's failure), and its absence makes the result exactly determine_bonds on the pass's molecule |
| Reading.ReadDatShifts | utils/readingutils.py:130-144 | reading a fresh molecule leaves shifts[i] = satellites below i, satellites exactly on Drude lines, and the Drude bonds in ascending order |
| Reading.BondRowReads | utils/readingutils.py:150-153 | a written BONDS row splits into two non-END tokens that shift to the final indices of its ends |
| Reading.DatBondsRoundTrip | utils/readingutils.py:147-156 | BONDS rows closed by END read back as those bonds in final indices, one per line, in order |
| Reading.FinalBondsExact | utils/readingutils.py:152 | the read bonds are the written ones, each end moved by its shift |
| Reading.JumpToSection | utils/readingutils.py:178-185 | the position after the first line containing the title plus 3 header lines, and failure exactly when no line contains it |
| Reading.ShiftFields | utils/readingutils.py:207-211 | a row's columns lo..hi-1 shifted, with one value per column |
| Reading.ShiftFieldsExact | utils/readingutils.py:207-211 | each value is its column shifted, and the row reads whenever all its columns exist and shift |
| Reading.ConnRows | utils/readingutils.py:188-198 | a section read from line pos consumes one line per row plus its closing line, one row of the given width per line |
| Reading.ConnRowsClosed | utils/readingutils.py:191-196 | the last line a section consumes is blank (stripped to "", or past the end of the file) |
| Reading.ConnRowsBoundary | utils/readingutils.py:191-196 | every line a section reads as a row is non-blank, so the section stops at the first blank line |
| Reading.ConnRowsContent | utils/readingutils.py:192-196 | row j of a section is line pos + j read as shifted columns 1..width |
| Reading.ReadConn | utils/readingutils.py:162-176 | the bonds are the 2-column rows of the bond section found from the top of the file; for more than 2 atoms the angles are the 3-column rows of the angle section found after it, and for more than 3 atoms the dihedrals the 4-column rows of the dihedral section after that; nothing else changes |
| Reading.ReadTinker | utils/readingutils.py:119-125 | the Tinker path succeeds exactly when the .dat pass does and, for more than one atom, the .conn reader on its molecule does; the result is that .conn reading of the .dat molecule (or the .dat molecule itself for one atom), so bonds are set exactly when n > 1, angles when n > 2 and dihedrals when n > 3 |
| Reading.ReadDefault | utils/readingutils.py:85-90 | the default path succeeds exactly when the .dat pass does; derived angles are sound and dihedrals are exactly the angle + bond extensions |
| Packmol.DirPrefix | utils/readingutils.py:32-34 | the directory prefix is empty or the directory followed by a slash |
| Packmol.ParsePackmol | utils/readingutils.py:30-52 | every structure file and the output name carry the manifest's directory prefix |
| Packmol.Manifest | utils/readingutils.py:36-50 | the manifest loop only appends entries, each under the prefix |
| Packmol.Block | utils/readingutils.py:42-50 | a structure block only appends entries, each under the prefix |
| Packmol.OutputStep | utils/readingutils.py:40-41 | an output line replaces the output name and nothing else |
| Packmol.StructureStep | utils/readingutils.py:42-44 | a structure line opens a block for the prefixed file |
| Packmol.NumberStep | utils/readingutils.py:47-48 | a number line appends (file, count) |
| Packmol.EndStep | utils/readingutils.py:46 | an end line closes the block and resumes the outer loop |
| Packmol.BlockReads | utils/readingutils.py:42-50 | a structure, number and end line add exactly one entry |
| Packmol.BlockRoundTrip | utils/readingutils.py:42-50 | a written block reads back as its (file, count) entry |
| Packmol.StructuresRoundTrip | utils/readingutils.py:36-50 | written blocks read back as their entries, in order |
| Packmol.PackmolRoundTrip | utils/readingutils.py:30-52 | a written manifest reads back as its output name and entries, each under the directory prefix |
| Packmol.UnterminatedBlock | utils/readingutils.py:44-50 | a block cut off by the end of the manifest raises StopIteration |
| Packmol.BlankLineInBlock | utils/readingutils.py:44-46 | a blank line inside a block raises IndexError |
| Scenarios.WaterBonds | tests/test_model.py:67-82 | the unit test's four atoms at threshold 1.50 give exactly the bonds ((0, 2), (1, 2)) |
| Scenarios.WaterShapeBonds | tests/test_model.py:67-82 | any H, H, O, O placement with only the first oxygen's O-H pairs close gives those bonds |
| Scenarios.WaterAngles | utils/model.py:233-247 | bonds (0, 2) and (1, 2) both enter atom 2, so no angle is derived |
| Scenarios.SharedIteratorMissesAngle | utils/model.py:239-245 | with two bonds entering a vertex, the second one's angle is missed although both its bonds exist |
| Scenarios.SharedIteratorMissesEarlierOutgoing | utils/model.py:239-245 | an outgoing bond listed before the incoming one is never paired |
| Scenarios.ChainAngles | utils/model.py:233-247 | the chain 0-1-2-3 gives the angles (0, 1, 2) and (1, 2, 3) |
| Scenarios.ChainDihedrals | utils/model.py:249-262 | and the single dihedral (0, 1, 2, 3) |
| Scenarios.SatelliteAtFirstAtom | utils/readingutils.py:235-239 | with one satellite at atom 0 of three, the Drude bond is (0, 1) and "1", "2", "3" shift to 0, 2, 3 |

## Left out

- File handling: opening, closing and reading files is modelled as sequences of lines. `os.path.dirname` is a parameter of the Packmol parser.
- Coordinate-file reading (`__read_xyz_data_default`/`_tinker`, which take atom symbols and coordinates from `.xyz` files) is not modelled. The per-molecule paths take the atoms as input. The warning printed on an atom-count mismatch is left out.
- Float parsing (`float()`) and `math.sqrt` are parameters (`Atoms.Floats`), with None where Python raises ValueError. Distances are exact reals compared on squares. IEEE rounding is not modelled.
- Geometry.SquaredTestExact: relates the squared test to the real square root. Floating-point rounding of `sqrt` is not modelled.
- Text.ParseInt: accepts an optional sign and ASCII digits only. Python's `int()` also accepts underscores between digits and non-ASCII decimal digits.
- Reading.JumpToSection: when no line contains the title, the source loops forever on `""`. The model returns SectionNotFound instead.
- Systems.SatellitesBounded and Systems.SystemCounts assume non-negative instance counts. The manifest's `int()` would also accept a negative count, for which only Systems.DrudeSurplus holds.
- The positional properties of the `.dat` pass and of `determine_bonds` assume pairwise-distinct atoms. With equal atoms, `list.index` picks the first equal one; that behaviour is in the model but has no property of its own.
- A scenario for `determine_bonds` with non-zero shifts on concrete coordinates is left out. The behaviour is stated in general by BondDetection.RunningIndexShiftsTwice.
- `utils/savingutils.py` (PSF/PDB writing), `main.py` and the older copies at the repository root are not part of this model. The structure writer's numbering is the Drude-inclusive layout of Molecules.Materialize.
- `__eq__` on molecules (a Counter comparison), `__hash__` and `__str__` are not modelled. Atom equality is modelled as Atoms.Same because lookups use it.
