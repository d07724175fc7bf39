/**
 * Derived connectivity: angles from bonds and dihedrals from angles and
 * bonds, each built vertex by vertex over the original indices 0..n-1.
 */
module Derivation {
  import opened Outcomes
  import opened Molecules

  /** The bonds of `bs` that leave vertex `v`, in list order. */
  function Outgoing(bs: seq<Bond>, v: int): (out: seq<Bond>)
    ensures forall b :: b in out <==> b in bs && b.0 == v
    ensures |out| <= |bs|
  {
    if |bs| == 0 then []
    else (if bs[0].0 == v then [bs[0]] else []) + Outgoing(bs[1..], v)
  }

  /** Position of the first bond of `bs` that enters vertex `v`, or |bs| if none does. */
  function FirstIncoming(bs: seq<Bond>, v: int): (j: nat)
    ensures j <= |bs|
    ensures j < |bs| ==> bs[j].1 == v
    ensures forall i :: 0 <= i < j ==> bs[i].1 != v
  {
    if |bs| == 0 then 0
    else if bs[0].1 == v then 0
    else 1 + FirstIncoming(bs[1..], v)
  }

  /**
   * The angles centred on `v`. The source filters one shared iterator twice:
   * the scan for an incoming bond consumes the list up to the first bond
   * entering `v`, and the scan for outgoing bonds then drains what is left.
   * So only that first incoming bond is paired, and only with the outgoing
   * bonds after it.
   */
  function AnglesAt(bs: seq<Bond>, v: int): seq<Angle> {
    var j := FirstIncoming(bs, v);
    if j == |bs| then []
    else Extend2(bs[j], Outgoing(bs[j + 1..], v))
  }

  /** `left + (right[1],)` for each right side in order. */
  function Extend2(left: Bond, rights: seq<Bond>): (r: seq<Angle>)
    ensures |r| == |rights|
    ensures forall k :: 0 <= k < |rights| ==> r[k] == (left.0, left.1, rights[k].1)
  {
    if |rights| == 0 then [] else [(left.0, left.1, rights[0].1)] + Extend2(left, rights[1..])
  }

  /** The angles of every vertex v in from..n-1, vertex by vertex. */
  function AnglesFrom(bs: seq<Bond>, from: int, n: int): seq<Angle>
    decreases n - from
  {
    if from >= n then [] else AnglesAt(bs, from) + AnglesFrom(bs, from + 1, n)
  }

  /** determine_angles: nothing happens while the bonds are unset. */
  function DetermineAngles(m: Molecule): (r: Molecule)
    ensures m.bonds.None? ==> r == m
    ensures m.bonds.Some? ==> r.angles.Some? && r == m.(angles := r.angles)
  {
    match m.bonds
    case None => m
    case Some(bs) => m.(angles := Some(AnglesFrom(bs, 0, |m.atoms|)))
  }

  /** The incoming x outgoing pairing at `v`: angle (a, v, c) for every bond
      (a, v) and every bond (v, c). */
  ghost predicate FullAngle(bs: seq<Bond>, v: int, a: Angle) {
    a.1 == v && (a.0, v) in bs && (v, a.2) in bs
  }

  /**
   * Exact content of AnglesAt: the left side is the first bond entering `v`,
   * the right sides are the bonds leaving `v` that come after it in the list.
   */
  lemma {:induction false} AnglesAtExact(bs: seq<Bond>, v: int, a: Angle)
    ensures a in AnglesAt(bs, v) <==>
      var j := FirstIncoming(bs, v);
      j < |bs| && a.0 == bs[j].0 && a.1 == v && exists k :: j < k < |bs| && bs[k] == (v, a.2)
  {
    var j := FirstIncoming(bs, v);
    if j < |bs| {
      var rights := Outgoing(bs[j + 1..], v);
      var r := Extend2(bs[j], rights);
      if a in r {
        var k :| 0 <= k < |r| && r[k] == a;
        assert rights[k] in bs[j + 1..];
        var k' :| j + 1 <= k' < |bs| && bs[k'] == rights[k];
        assert bs[k'] == (v, a.2);
      }
      if a.0 == bs[j].0 && a.1 == v && exists k :: j < k < |bs| && bs[k] == (v, a.2) {
        var k :| j < k < |bs| && bs[k] == (v, a.2);
        assert bs[k] == bs[j + 1..][k - j - 1];
        assert bs[k] in rights;
        var i :| 0 <= i < |rights| && rights[i] == bs[k];
        assert r[i] == a;
      }
    }
  }

  /** Soundness: every angle at `v` is made of two bonds of the list through `v`. */
  lemma AnglesAtSound(bs: seq<Bond>, v: int, a: Angle)
    requires a in AnglesAt(bs, v)
    ensures FullAngle(bs, v, a)
  {
    AnglesAtExact(bs, v, a);
    var j := FirstIncoming(bs, v);
    assert bs[j] == (a.0, v);
  }

  /**
   * Completeness under the condition the derivation silently relies on: when
   * `v` has at most one incoming bond and every bond leaving `v` comes after
   * it, the angles at `v` are the full incoming x outgoing pairing.
   */
  lemma AnglesAtComplete(bs: seq<Bond>, v: int, a: Angle)
    requires forall i, k :: 0 <= i < |bs| && 0 <= k < |bs| && bs[i].1 == v && bs[k].1 == v ==> bs[i] == bs[k]
    requires forall i, k :: 0 <= i < |bs| && 0 <= k < |bs| && bs[i].1 == v && bs[k].0 == v ==> i < k
    ensures a in AnglesAt(bs, v) <==> FullAngle(bs, v, a)
  {
    AnglesAtExact(bs, v, a);
    var j := FirstIncoming(bs, v);
    if FullAngle(bs, v, a) {
      var i :| 0 <= i < |bs| && bs[i] == (a.0, v);
      var k :| 0 <= k < |bs| && bs[k] == (v, a.2);
      assert j <= i;
      assert bs[i] == bs[j];
      assert j < k;
    }
  }

  /** Every derived angle has its vertex among the original indices and both of its bonds in the list. */
  lemma {:induction false} AnglesFromSound(bs: seq<Bond>, from: int, n: int, a: Angle)
    requires a in AnglesFrom(bs, from, n)
    ensures from <= a.1 < n && FullAngle(bs, a.1, a)
    decreases n - from
  {
    if a in AnglesAt(bs, from) {
      AnglesAtSound(bs, from, a);
    } else {
      AnglesFromSound(bs, from + 1, n, a);
    }
  }

  /** Every angle at a vertex in from..n-1 is collected, and nothing else. */
  lemma {:induction false} AnglesFromExact(bs: seq<Bond>, from: int, n: int, a: Angle)
    ensures a in AnglesFrom(bs, from, n) <==> from <= a.1 < n && a in AnglesAt(bs, a.1)
    decreases n - from
  {
    if from < n {
      AnglesFromExact(bs, from + 1, n, a);
      AnglesAtCentre(bs, from, a);
      AnglesAtCentre(bs, a.1, a);
      assert AnglesFrom(bs, from, n) == AnglesAt(bs, from) + AnglesFrom(bs, from + 1, n);
    }
  }

  /** Every angle at `v` is centred on `v`. */
  lemma AnglesAtCentre(bs: seq<Bond>, v: int, a: Angle)
    ensures a in AnglesAt(bs, v) ==> a.1 == v
  {
    if a in AnglesAt(bs, v) {
      AnglesAtSound(bs, v, a);
    }
  }

  /** Every angle determine_angles records has bonds (a, i) and (i, c) and i < n. */
  lemma DetermineAnglesSound(m: Molecule, a: Angle)
    requires m.bonds.Some?
    requires a in DetermineAngles(m).angles.value
    ensures 0 <= a.1 < |m.atoms|
    ensures (a.0, a.1) in m.bonds.value && (a.1, a.2) in m.bonds.value
  {
    AnglesFromSound(m.bonds.value, 0, |m.atoms|, a);
  }

  /** The angles (a.0, a.1, a.2) of `angles` whose last atom is `v`, in list order. */
  function Ending(angles: seq<Angle>, v: int): (out: seq<Angle>)
    ensures forall a :: a in out <==> a in angles && a.2 == v
    ensures |out| <= |angles|
  {
    if |angles| == 0 then []
    else (if angles[0].2 == v then [angles[0]] else []) + Ending(angles[1..], v)
  }

  /** `left + (right[1],)` for every left side and, inside it, every right side. */
  function Extend3(lefts: seq<Angle>, rights: seq<Bond>): (r: seq<Dihedral>)
    ensures |r| == |lefts| * |rights|
    ensures forall d :: d in r <==>
      (d.0, d.1, d.2) in lefts && exists b :: b in rights && b.1 == d.3
  {
    if |lefts| == 0 then []
    else
      var l := lefts[0];
      var head := seq(|rights|, k requires 0 <= k < |rights| => (l.0, l.1, l.2, rights[k].1));
      assert forall d :: d in head <==> (d.0, d.1, d.2) == l && exists b :: b in rights && b.1 == d.3 by {
        forall d ensures d in head <==> (d.0, d.1, d.2) == l && exists b :: b in rights && b.1 == d.3 {
          if (d.0, d.1, d.2) == l && exists b :: b in rights && b.1 == d.3 {
            var b :| b in rights && b.1 == d.3;
            var k :| 0 <= k < |rights| && rights[k] == b;
            assert head[k] == d;
          }
        }
      }
      var tail := Extend3(lefts[1..], rights);
      assert |lefts| * |rights| == |rights| + |lefts[1..]| * |rights| by {
        assert |lefts| == 1 + |lefts[1..]|;
      }
      assert forall a :: a in lefts <==> a == l || a in lefts[1..] by {
        assert lefts == [l] + lefts[1..];
      }
      head + tail
  }

  /** The dihedrals through vertex `v`: angles ending at `v` times bonds leaving `v`. */
  function DihedralsAt(angles: seq<Angle>, bs: seq<Bond>, v: int): (r: seq<Dihedral>)
    ensures |r| == |Ending(angles, v)| * |Outgoing(bs, v)|
    ensures forall d :: d in r <==> (d.0, d.1, d.2) in angles && d.2 == v && (v, d.3) in bs
  {
    var r := Extend3(Ending(angles, v), Outgoing(bs, v));
    assert forall d :: d in r <==> (d.0, d.1, d.2) in angles && d.2 == v && (v, d.3) in bs by {
      forall d ensures d in r <==> (d.0, d.1, d.2) in angles && d.2 == v && (v, d.3) in bs {
        if (d.0, d.1, d.2) in angles && d.2 == v && (v, d.3) in bs {
          assert (v, d.3) in Outgoing(bs, v);
        }
      }
    }
    r
  }

  /** The dihedrals of every vertex v in from..n-1, vertex by vertex. */
  function DihedralsFrom(angles: seq<Angle>, bs: seq<Bond>, from: int, n: int): (r: seq<Dihedral>)
    ensures forall d :: d in r <==>
      (d.0, d.1, d.2) in angles && (d.2, d.3) in bs && from <= d.2 < n
    decreases n - from
  {
    if from >= n then [] else DihedralsAt(angles, bs, from) + DihedralsFrom(angles, bs, from + 1, n)
  }

  /**
   * determine_dihedrals: nothing happens while the angles are unset; with
   * angles but no bonds, filtering the missing bond list raises TypeError as
   * soon as the vertex loop runs once.
   */
  function DetermineDihedrals(m: Molecule): (r: Result<Molecule>)
    ensures m.angles.None? ==> r == Success(m)
    ensures r.Failure? <==> m.angles.Some? && m.bonds.None? && |m.atoms| > 0
    ensures r.Success? && m.angles.Some? ==> r.value.dihedrals.Some? && r.value == m.(dihedrals := r.value.dihedrals)
    ensures r.Success? && m.angles.Some? && m.bonds.Some? ==>
      forall d :: d in r.value.dihedrals.value <==>
        (d.0, d.1, d.2) in m.angles.value && (d.2, d.3) in m.bonds.value && 0 <= d.2 < |m.atoms|
  {
    match m.angles
    case None => Success(m)
    case Some(angles) =>
      if |m.atoms| == 0 then Success(m.(dihedrals := Some([])))
      else
        match m.bonds
        case None => Failure(Unset)
        case Some(bs) => Success(m.(dihedrals := Some(DihedralsFrom(angles, bs, 0, |m.atoms|))))
  }
}
