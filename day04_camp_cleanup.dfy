/** Day 4: camp cleanup. Each line holds two section ranges; part 1 counts
    lines where one range contains the other, part 2 lines where they overlap. */
module CampCleanup {

  /** A section range `min-max`; the source reads both bounds as u32. */
  datatype Range = Range(min: nat, max: nat)

  predicate WellFormed(r: Range) { r.min <= r.max }

  /** Whether section `e` lies in the range. */
  predicate ContainsElem(r: Range, e: nat)
  {
    r.min <= e && r.max >= e
  }

  function Contains(a: Range, b: Range): bool
  {
    a.min <= b.min && a.max >= b.max
  }

  /** One range overlaps another when one of the four end points lies in the
      other range. */
  function Overlaps(a: Range, b: Range): bool
  {
    ContainsElem(a, b.min) || ContainsElem(a, b.max) || ContainsElem(b, a.min) || ContainsElem(b, a.max)
  }

  /** For well-formed ranges, containment is inclusion of the covered sections. */
  lemma ContainsIsInclusion(a: Range, b: Range)
    requires WellFormed(a) && WellFormed(b)
    ensures Contains(a, b) <==> forall e: nat :: ContainsElem(b, e) ==> ContainsElem(a, e)
  {
    if forall e: nat :: ContainsElem(b, e) ==> ContainsElem(a, e) {
      assert ContainsElem(b, b.min) && ContainsElem(b, b.max);
    }
  }

  /** Containment is reflexive. */
  lemma ContainsReflexive(a: Range)
    ensures Contains(a, a)
  {
  }

  /** Overlap does not depend on the order of its arguments. */
  lemma OverlapsSymmetric(a: Range, b: Range)
    ensures Overlaps(a, b) == Overlaps(b, a)
  {
  }

  /** For well-formed ranges, overlap means some section lies in both. */
  lemma OverlapsIsSharedSection(a: Range, b: Range)
    requires WellFormed(a) && WellFormed(b)
    ensures Overlaps(a, b) <==> exists e: nat :: ContainsElem(a, e) && ContainsElem(b, e)
  {
    if Overlaps(a, b) {
      if ContainsElem(a, b.min) {
        assert ContainsElem(b, b.min);
      } else if ContainsElem(a, b.max) {
        assert ContainsElem(b, b.max);
      } else {
        assert ContainsElem(a, a.min) && ContainsElem(a, a.max);
      }
    }
  }

  /** For well-formed ranges, containment implies overlap. */
  lemma ContainsImpliesOverlaps(a: Range, b: Range)
    requires WellFormed(b)
    ensures Contains(a, b) ==> Overlaps(a, b)
  {
  }

  /** Part 1 counts a line when either range contains the other. */
  predicate CountsForPart1(a: Range, b: Range)
  {
    Contains(a, b) || Contains(b, a)
  }

  /** Part 2 counts a line when the ranges overlap either way round. */
  predicate CountsForPart2(a: Range, b: Range)
  {
    Overlaps(a, b) || Overlaps(b, a)
  }

  /** Asking both ways round in part 2 adds nothing, and every line counted in
      part 1 is counted in part 2 too. */
  lemma CountingRules(a: Range, b: Range)
    requires WellFormed(a) && WellFormed(b)
    ensures CountsForPart2(a, b) <==> Overlaps(a, b)
    ensures CountsForPart1(a, b) ==> CountsForPart2(a, b)
  {
    OverlapsSymmetric(a, b);
  }

  /** Number of lines counted in part 1. */
  function CountPart1(pairs: seq<(Range, Range)>): (n: nat)
    ensures n <= |pairs|
    ensures n == |pairs| <==> forall i :: 0 <= i < |pairs| ==> CountsForPart1(pairs[i].0, pairs[i].1)
    ensures n == 0 <==> forall i :: 0 <= i < |pairs| ==> !CountsForPart1(pairs[i].0, pairs[i].1)
  {
    if pairs == [] then 0
    else (if CountsForPart1(pairs[0].0, pairs[0].1) then 1 else 0) + CountPart1(pairs[1..])
  }

  /** Number of lines counted in part 2. */
  function CountPart2(pairs: seq<(Range, Range)>): (n: nat)
    ensures n <= |pairs|
    ensures n == |pairs| <==> forall i :: 0 <= i < |pairs| ==> CountsForPart2(pairs[i].0, pairs[i].1)
    ensures n == 0 <==> forall i :: 0 <= i < |pairs| ==> !CountsForPart2(pairs[i].0, pairs[i].1)
  {
    if pairs == [] then 0
    else (if CountsForPart2(pairs[0].0, pairs[0].1) then 1 else 0) + CountPart2(pairs[1..])
  }

  /** The source's containment and overlap test cases. */
  lemma Examples()
    ensures Contains(Range(10, 20), Range(13, 15)) && Contains(Range(1, 5), Range(2, 5))
    ensures Contains(Range(6, 12), Range(6, 11)) && Contains(Range(408, 509), Range(408, 409))
    ensures Contains(Range(0, 0), Range(0, 0))
    ensures !Contains(Range(10, 20), Range(8, 26)) && !Contains(Range(1, 5), Range(0, 5))
    ensures !Contains(Range(6, 12), Range(6, 16)) && !Contains(Range(408, 509), Range(90, 98))
    ensures !Contains(Range(0, 0), Range(6, 6))
    ensures Overlaps(Range(10, 20), Range(5, 25)) && Overlaps(Range(5, 8), Range(3, 6))
    ensures Overlaps(Range(6, 12), Range(5, 11)) && Overlaps(Range(408, 509), Range(300, 800))
    ensures Overlaps(Range(0, 100), Range(0, 0))
    ensures !Overlaps(Range(10, 20), Range(25, 35)) && !Overlaps(Range(5, 10), Range(0, 4))
    ensures !Overlaps(Range(6, 6), Range(7, 7))
  {
  }
}
