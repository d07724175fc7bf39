/**
 * A system: molecule kinds with their instance counts, as read from a
 * Packmol manifest, and the total atom counts the structure writers use.
 */
module Systems {
  import opened Molecules

  datatype System = System(molecules: seq<(Molecule, int)>, xyzFileName: string, segmentId: string)

  /** The default segment identifier. */
  const DEFAULT_SEGMENT_ID: string := "IL"

  /** Σ atoms_number × count over the molecule kinds. */
  function AtomsNumberOf(ms: seq<(Molecule, int)>): int {
    if |ms| == 0 then 0 else AtomsNumber(ms[0].0) * ms[0].1 + AtomsNumberOf(ms[1..])
  }

  /** Σ atoms_number_with_drude × count over the molecule kinds. */
  function AtomsNumberWithDrudeOf(ms: seq<(Molecule, int)>): int {
    if |ms| == 0 then 0 else AtomsNumberWithDrude(ms[0].0) * ms[0].1 + AtomsNumberWithDrudeOf(ms[1..])
  }

  /** Σ (number of satellites) × count: the satellites the system holds. */
  function SatellitesOf(ms: seq<(Molecule, int)>): int {
    if |ms| == 0 then 0 else Promoted(ms[0].0.atoms) * ms[0].1 + SatellitesOf(ms[1..])
  }

  function AtomsNumberOfSystem(s: System): int {
    AtomsNumberOf(s.molecules)
  }

  function AtomsNumberWithDrudeOfSystem(s: System): int {
    AtomsNumberWithDrudeOf(s.molecules)
  }

  /** Both totals differ by exactly the satellites of all molecule instances. */
  lemma {:induction false} DrudeSurplus(ms: seq<(Molecule, int)>)
    ensures AtomsNumberWithDrudeOf(ms) == AtomsNumberOf(ms) + SatellitesOf(ms)
  {
    if |ms| > 0 {
      DrudeSurplus(ms[1..]);
      var m, c := ms[0].0, ms[0].1;
      AtomsNumberWithDrudeBounds(m);
      Distribute(AtomsNumber(m), Promoted(m.atoms), c);
    }
  }

  /** With non-negative counts the satellites are non-negative and at most the plain atoms. */
  lemma {:induction false} SatellitesBounded(ms: seq<(Molecule, int)>)
    requires forall k :: 0 <= k < |ms| ==> ms[k].1 >= 0
    ensures 0 <= SatellitesOf(ms) <= AtomsNumberOf(ms)
  {
    if |ms| > 0 {
      assert forall k :: 0 <= k < |ms[1..]| ==> ms[1..][k].1 >= 0 by {
        forall k | 0 <= k < |ms[1..]| ensures ms[1..][k].1 >= 0 {
          assert ms[1..][k] == ms[k + 1];
        }
      }
      SatellitesBounded(ms[1..]);
      var m, c := ms[0].0, ms[0].1;
      AtomsNumberWithDrudeBounds(m);
      assert 0 <= Promoted(m.atoms) * c <= AtomsNumber(m) * c by {
        assert 0 <= Promoted(m.atoms) <= AtomsNumber(m);
        MulMonotone(Promoted(m.atoms), AtomsNumber(m), c);
      }
    }
  }

  lemma Distribute(a: int, b: int, c: int)
    ensures (a + b) * c == a * c + b * c
  {
  }

  lemma MulMonotone(a: int, b: int, c: int)
    requires 0 <= a <= b && 0 <= c
    ensures 0 <= a * c <= b * c
  {
  }

  /**
   * The Drude-inclusive count of a system is at least its plain count and at
   * most twice it, when every instance count is non-negative.
   */
  lemma SystemCounts(s: System)
    requires forall k :: 0 <= k < |s.molecules| ==> s.molecules[k].1 >= 0
    ensures AtomsNumberOfSystem(s) <= AtomsNumberWithDrudeOfSystem(s) <= 2 * AtomsNumberOfSystem(s)
  {
    DrudeSurplus(s.molecules);
    SatellitesBounded(s.molecules);
  }
}
