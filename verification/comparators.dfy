/**
 * The comparator classes of MoleculeRenderer: six that compare one
 * coordinate, in mirrored pairs, and two that turn Atom's depth helpers into
 * a three-way result at the current viewing angle.
 */
module Comparators {
  import opened Sorting
  import opened Atoms

  /** The branch shape of BackToFront, RightToLeft and BottomToTop. */
  function Ascending(u: int, v: int): int {
    if u > v then 1 else if u < v then -1 else 0
  }

  /** The branch shape of FrontToBack, LeftToRight and TopToBottom. */
  function Descending(u: int, v: int): int {
    if u < v then 1 else if u > v then -1 else 0
  }

  /** BackToFrontComparator.compare: positive when a1 has the larger z. */
  function BackToFront(a1: Atom, a2: Atom): (r: int)
    ensures a1.z > a2.z ==> r == 1
    ensures a1.z < a2.z ==> r == -1
    ensures a1.z == a2.z ==> r == 0
  {
    Ascending(a1.z, a2.z)
  }

  /** FrontToBackComparator.compare: the mirror image of BackToFront. */
  function FrontToBack(a1: Atom, a2: Atom): (r: int)
    ensures r == -BackToFront(a1, a2)
  {
    Descending(a1.z, a2.z)
  }

  /** RightToLeftComparator.compare: positive when a1 has the larger x. */
  function RightToLeft(a1: Atom, a2: Atom): (r: int)
    ensures a1.x > a2.x ==> r == 1
    ensures a1.x < a2.x ==> r == -1
    ensures a1.x == a2.x ==> r == 0
  {
    Ascending(a1.x, a2.x)
  }

  /** LeftToRightComparator.compare: the mirror image of RightToLeft. */
  function LeftToRight(a1: Atom, a2: Atom): (r: int)
    ensures r == -RightToLeft(a1, a2)
  {
    Descending(a1.x, a2.x)
  }

  /** BottomToTopComparator.compare: positive when a1 has the larger y. */
  function BottomToTop(a1: Atom, a2: Atom): (r: int)
    ensures a1.y > a2.y ==> r == 1
    ensures a1.y < a2.y ==> r == -1
    ensures a1.y == a2.y ==> r == 0
  {
    Ascending(a1.y, a2.y)
  }

  /** TopToBottomComparator.compare: the mirror image of BottomToTop. */
  function TopToBottom(a1: Atom, a2: Atom): (r: int)
    ensures r == -BottomToTop(a1, a2)
  {
    Descending(a1.y, a2.y)
  }

  /** The sign of a real, as the pan and tilt comparators report it. */
  function SignOf(v: real): int {
    if v > 0.0 then 1 else if v < 0.0 then -1 else 0
  }

  /** PanComparator.compare at horizontal angle `angle`. */
  function PanCompare(g: Geometry, angle: int, a1: Atom, a2: Atom): (r: int)
    ensures r == 1 <==> g.furtherLtoR(a1, a2, angle) > 0.0
    ensures r == -1 <==> g.furtherLtoR(a1, a2, angle) < 0.0
    ensures r == 0 <==> g.furtherLtoR(a1, a2, angle) == 0.0
  {
    SignOf(g.furtherLtoR(a1, a2, angle))
  }

  /** TiltComparator.compare at vertical angle `angle`. */
  function TiltCompare(g: Geometry, angle: int, a1: Atom, a2: Atom): (r: int)
    ensures r == 1 <==> g.furtherTtoB(a1, a2, angle) > 0.0
    ensures r == -1 <==> g.furtherTtoB(a1, a2, angle) < 0.0
    ensures r == 0 <==> g.furtherTtoB(a1, a2, angle) == 0.0
  {
    SignOf(g.furtherTtoB(a1, a2, angle))
  }

  /** A PanComparator that reads `angle` as the current horizontal angle. */
  function PanComparator(g: Geometry, angle: int): (Atom, Atom) -> int {
    (a1, a2) => PanCompare(g, angle, a1, a2)
  }

  /** A TiltComparator that reads `angle` as the current vertical angle. */
  function TiltComparator(g: Geometry, angle: int): (Atom, Atom) -> int {
    (a1, a2) => TiltCompare(g, angle, a1, a2)
  }

  // ---------------------------------------------------------------------
  // Contract and mirror properties
  // ---------------------------------------------------------------------

  /** A comparator that is the three-way comparison of an integer key keeps the Comparator contract. */
  lemma KeyComparatorValid(cmp: (Atom, Atom) -> int, key: Atom -> int)
    requires forall a, b :: cmp(a, b) == Ascending(key(a), key(b))
    ensures ValidComparator(cmp)
  {
  }

  /** All six axis comparators keep the Comparator contract (a total preorder on one coordinate). */
  lemma AxisComparatorsValid()
    ensures ValidComparator(BackToFront) && ValidComparator(FrontToBack)
    ensures ValidComparator(RightToLeft) && ValidComparator(LeftToRight)
    ensures ValidComparator(BottomToTop) && ValidComparator(TopToBottom)
  {
    KeyComparatorValid(BackToFront, (a: Atom) => a.z);
    KeyComparatorValid(FrontToBack, (a: Atom) => -a.z);
    KeyComparatorValid(RightToLeft, (a: Atom) => a.x);
    KeyComparatorValid(LeftToRight, (a: Atom) => -a.x);
    KeyComparatorValid(BottomToTop, (a: Atom) => a.y);
    KeyComparatorValid(TopToBottom, (a: Atom) => -a.y);
  }

  /** Mirror pairs tie on exactly the same pairs of atoms. */
  lemma MirrorPairsTieAlike()
    ensures forall a, b :: BackToFront(a, b) == 0 <==> FrontToBack(a, b) == 0
    ensures forall a, b :: RightToLeft(a, b) == 0 <==> LeftToRight(a, b) == 0
    ensures forall a, b :: BottomToTop(a, b) == 0 <==> TopToBottom(a, b) == 0
  {
  }

  /** Atoms at the same point tie under every axis comparator. */
  lemma SamePlaceTies(a: Atom, b: Atom)
    requires SamePlace(a, b)
    ensures BackToFront(a, b) == 0 && FrontToBack(a, b) == 0
    ensures RightToLeft(a, b) == 0 && LeftToRight(a, b) == 0
    ensures BottomToTop(a, b) == 0 && TopToBottom(a, b) == 0
  {
  }

  /**
   * If furtherLtoR at `angle` is a difference of depths, as the dot product
   * with the view direction is, then the pan comparator keeps the contract.
   */
  lemma PanComparatorValid(g: Geometry, angle: int, depth: Atom -> real)
    requires forall a, b :: g.furtherLtoR(a, b, angle) == depth(a) - depth(b)
    ensures ValidComparator(PanComparator(g, angle))
  {
  }

  /** The same for tilting and furtherTtoB. */
  lemma TiltComparatorValid(g: Geometry, angle: int, depth: Atom -> real)
    requires forall a, b :: g.furtherTtoB(a, b, angle) == depth(a) - depth(b)
    ensures ValidComparator(TiltComparator(g, angle))
  {
  }

  /**
   * Where furtherLtoR reduces to the difference in z, the pan comparator is
   * BackToFront and sorts exactly as the FromFront view does.
   */
  lemma PanAgreesWithBackToFront(g: Geometry, angle: int, s: seq<Atom>)
    requires forall a, b :: g.furtherLtoR(a, b, angle) == (a.z - b.z) as real
    ensures forall a, b :: PanComparator(g, angle)(a, b) == BackToFront(a, b)
    ensures Sort(PanComparator(g, angle), s) == Sort(BackToFront, s)
  {
    SortAgreeing(PanComparator(g, angle), BackToFront, s);
  }

  /**
   * Where furtherTtoB reduces to the difference in y, the tilt comparator is
   * BottomToTop and sorts exactly as the FromTop view does.
   */
  lemma TiltAgreesWithBottomToTop(g: Geometry, angle: int, s: seq<Atom>)
    requires forall a, b :: g.furtherTtoB(a, b, angle) == (a.y - b.y) as real
    ensures forall a, b :: TiltComparator(g, angle)(a, b) == BottomToTop(a, b)
    ensures Sort(TiltComparator(g, angle), s) == Sort(BottomToTop, s)
  {
    SortAgreeing(TiltComparator(g, angle), BottomToTop, s);
  }

  // ---------------------------------------------------------------------
  // What "sorted" means for each axis comparator
  // ---------------------------------------------------------------------

  /** Sorted by BackToFront is z non-decreasing; by FrontToBack, z non-increasing. */
  lemma SortedByZ(s: seq<Atom>)
    ensures SortedBy(BackToFront, s) <==> forall i, j :: 0 <= i < j < |s| ==> s[i].z <= s[j].z
    ensures SortedBy(FrontToBack, s) <==> forall i, j :: 0 <= i < j < |s| ==> s[i].z >= s[j].z
  {
  }

  /** Sorted by RightToLeft is x non-decreasing; by LeftToRight, x non-increasing. */
  lemma SortedByX(s: seq<Atom>)
    ensures SortedBy(RightToLeft, s) <==> forall i, j :: 0 <= i < j < |s| ==> s[i].x <= s[j].x
    ensures SortedBy(LeftToRight, s) <==> forall i, j :: 0 <= i < j < |s| ==> s[i].x >= s[j].x
  {
  }

  /** Sorted by BottomToTop is y non-decreasing; by TopToBottom, y non-increasing. */
  lemma SortedByY(s: seq<Atom>)
    ensures SortedBy(BottomToTop, s) <==> forall i, j :: 0 <= i < j < |s| ==> s[i].y <= s[j].y
    ensures SortedBy(TopToBottom, s) <==> forall i, j :: 0 <= i < j < |s| ==> s[i].y >= s[j].y
  {
  }
}
