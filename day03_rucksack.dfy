/** Day 3: rucksack reorganisation. Items are characters; each letter has a
    priority, and each line (or group of three lines) must share exactly one item. */
module Rucksack {
  import opened Wrappers

  predicate IsLower(c: char) { 'a' <= c <= 'z' }

  predicate IsUpper(c: char) { 'A' <= c <= 'Z' }

  /** Priority of an item: 'a'..'z' are 1..26 and 'A'..'Z' are 27..52; any
      other character is a fatal error in the source. */
  function Priority(c: char): (r: Option<nat>)
    ensures r.Some? <==> IsLower(c) || IsUpper(c)
    ensures IsLower(c) ==> r == Some(c as nat - 'a' as nat + 1)
    ensures IsUpper(c) ==> r == Some(c as nat - 'A' as nat + 27)
    ensures r.Some? ==> 1 <= r.value <= 52
  {
    if IsLower(c) then Some(1 + c as nat - 'a' as nat)
    else if IsUpper(c) then Some(27 + c as nat - 'A' as nat)
    else None
  }

  /** Two letters with the same priority are the same letter. */
  lemma PriorityInjective(c: char, d: char)
    requires Priority(c).Some? && Priority(c) == Priority(d)
    ensures c == d
  {
    if IsLower(c) {
      assert !IsUpper(d);
    } else {
      assert !IsLower(d);
    }
  }

  /** The set of items in a string. */
  function ToItems(s: string): (r: set<char>)
    ensures forall c :: c in r <==> c in s
  {
    set c | c in s
  }

  /** The only element of a one-element set. */
  function Single(s: set<char>): (c: char)
    requires |s| == 1
    ensures s == {c}
  {
    var c :| c in s;
    assert s == {c} by {
      assert |s - {c}| == 0;
    }
    c
  }

  /** The common item of a set of candidates, when there is exactly one. */
  function UniquePriority(common: set<char>): (r: Option<nat>)
    ensures r.Some? ==> exists c :: common == {c} && Priority(c) == r
    ensures (exists c :: common == {c} && Priority(c).Some?) ==> r.Some?
  {
    if |common| == 1 then
      var c := Single(common);
      Priority(c)
    else
      None
  }

  /** Part 1 rule for one line: the line has even length, its two halves
      share exactly one item, and that item's priority counts. */
  function CompartmentPriority(line: string): (r: Option<nat>)
    ensures r.Some? ==> |line| % 2 == 0
    ensures r.Some? ==> exists c :: ToItems(line[..|line| / 2]) * ToItems(line[|line| / 2..]) == {c}
                                   && Priority(c) == r
    ensures (|line| % 2 == 0 &&
             exists c :: ToItems(line[..|line| / 2]) * ToItems(line[|line| / 2..]) == {c} && Priority(c).Some?)
            ==> r.Some?
  {
    if |line| % 2 != 0 then None
    else
      var mid := |line| / 2;
      UniquePriority(ToItems(line[..mid]) * ToItems(line[mid..]))
  }

  /** Part 2 rule for a group of three lines: exactly one item common to all three. */
  function BadgePriority(a: string, b: string, c: string): (r: Option<nat>)
    ensures r.Some? ==> exists x :: x in a && x in b && x in c && Priority(x) == r
    ensures r.Some? ==> forall x, y :: x in a && x in b && x in c && y in a && y in b && y in c ==> x == y
    ensures (exists x :: x in a && x in b && x in c && Priority(x).Some?
                         && forall y :: y in a && y in b && y in c ==> y == x) ==> r.Some?
  {
    var common := ToItems(a) * ToItems(b) * ToItems(c);
    assert forall x :: x in common <==> x in a && x in b && x in c;
    UniquePriority(common)
  }

  /** Part 1 total: the sum over lines, failing when any line breaks the rule. */
  function SumCompartments(lines: seq<string>): (r: Option<nat>)
    ensures r.Some? <==> forall i :: 0 <= i < |lines| ==> CompartmentPriority(lines[i]).Some?
  {
    if lines == [] then Some(0)
    else
      match (CompartmentPriority(lines[0]), SumCompartments(lines[1..]))
      case (Some(p), Some(rest)) => Some(p + rest)
      case _ => None
  }

  /** Group `g` (lines 3g, 3g+1 and 3g+2) has a single common item with a priority. */
  predicate GroupHasBadge(lines: seq<string>, g: nat)
    requires 3 * g + 2 < |lines|
  {
    BadgePriority(lines[3 * g], lines[3 * g + 1], lines[3 * g + 2]).Some?
  }

  /** Dropping the first three lines renumbers the remaining groups: all
      groups have a badge iff the first one does and all later ones do. */
  lemma GroupShift(lines: seq<string>)
    requires 3 <= |lines|
    ensures (forall g: nat :: g < |lines| / 3 ==> GroupHasBadge(lines, g))
            <==> GroupHasBadge(lines, 0) && forall g: nat :: g < |lines[3..]| / 3 ==> GroupHasBadge(lines[3..], g)
  {
    var rest := lines[3..];
    forall g: nat | g < |rest| / 3
      ensures GroupHasBadge(rest, g) == GroupHasBadge(lines, g + 1)
    {
      assert rest[3 * g] == lines[3 * (g + 1)];
      assert rest[3 * g + 1] == lines[3 * (g + 1) + 1];
      assert rest[3 * g + 2] == lines[3 * (g + 1) + 2];
    }
    if !forall g: nat :: g < |lines| / 3 ==> GroupHasBadge(lines, g) {
      var g: nat :| g < |lines| / 3 && !GroupHasBadge(lines, g);
      if g > 0 {
        assert !GroupHasBadge(rest, g - 1);
      }
    }
  }

  /** Part 2 total: the line count must be a multiple of three and every group
      of three consecutive lines must have a single badge. */
  function SumBadges(lines: seq<string>): (r: Option<nat>)
    ensures r.Some? <==> |lines| % 3 == 0 && forall g: nat :: g < |lines| / 3 ==> GroupHasBadge(lines, g)
  {
    if |lines| % 3 != 0 then None
    else if lines == [] then Some(0)
    else
      GroupShift(lines);
      match (BadgePriority(lines[0], lines[1], lines[2]), SumBadges(lines[3..]))
      case (Some(p), Some(q)) => Some(p + q)
      case _ => None
  }

  /** The test values: a is 1, z is 26, A is 27 and Z is 52. */
  lemma PriorityExamples()
    ensures Priority('a') == Some(1) && Priority('z') == Some(26)
    ensures Priority('A') == Some(27) && Priority('Z') == Some(52)
  {
  }
}
