/** Day 1: calorie counting. Input lines are grouped by blank lines; part 1
    keeps the largest group total, part 2 keeps the three largest in an
    `OrderedList` and sums them. */
module Calories {

  /** One input line: a blank separator or one calorie amount. */
  datatype Line = Blank | Amount(calories: nat)

  predicate NonIncreasing(s: seq<int>)
  {
    forall i, j :: 0 <= i < j < |s| ==> s[i] >= s[j]
  }

  function Sum(s: seq<int>): int
  {
    if s == [] then 0 else Sum(s[..|s| - 1]) + s[|s| - 1]
  }

  /** The index `add` inserts `e` at: scanning from the back, it skips every
      element strictly smaller than `e` and stops on the first one that is
      not, so a value equal to an existing one lands after it. */
  function InsertPosition(l: seq<int>, e: int): (i: nat)
    ensures i <= |l|
    ensures forall k :: i <= k < |l| ==> e > l[k]
    ensures i > 0 ==> e <= l[i - 1]
  {
    if l == [] || e <= l[|l| - 1] then |l| else InsertPosition(l[..|l| - 1], e)
  }

  /** The list held after `add(e)`: `e` inserted at `InsertPosition`, then the
      last element popped when the list has grown beyond three. */
  function Added(l: seq<int>, e: int): seq<int>
  {
    if l == [] then [e]
    else
      var i := InsertPosition(l, e);
      var grown := l[..i] + [e] + l[i..];
      if |grown| > 3 then grown[..|grown| - 1] else grown
  }

  /** The list after adding every value of `xs`, in order, to an empty list. */
  function AddAll(xs: seq<int>): seq<int>
  {
    if xs == [] then [] else Added(AddAll(xs[..|xs| - 1]), xs[|xs| - 1])
  }

  class OrderedList {
    var items: seq<int>

    constructor ()
      ensures items == []
    {
      items := [];
    }

    /** Inserts `e` keeping the list in non-increasing order and keeps at most
        three elements, dropping the smallest. */
    method Add(e: int)
      modifies this
      ensures items == Added(old(items), e)
    {
      if items == [] {
        items := [e];
      } else {
        var i := |items|;
        while i > 0 && e > items[i - 1]
          invariant 0 <= i <= |items|
          invariant forall k :: i <= k < |items| ==> e > items[k]
          decreases i
        {
          i := i - 1;
        }
        InsertPositionIs(items, e, i);
        items := items[..i] + [e] + items[i..];
        if |items| > 3 {
          items := items[..|items| - 1];
        }
      }
    }

    /** The sum of the kept elements, 0 for an empty list. */
    function Total(): (t: int)
      reads this
      ensures items == [] ==> t == 0
    {
      Sum(items)
    }
  }

  /** `InsertPosition` is the only index with every later element smaller than
      `e` and the element before it not smaller. */
  lemma {:induction false} InsertPositionIs(l: seq<int>, e: int, i: nat)
    requires i <= |l|
    requires forall k :: i <= k < |l| ==> e > l[k]
    requires i > 0 ==> e <= l[i - 1]
    ensures InsertPosition(l, e) == i
    decreases |l|
  {
    if l != [] && e > l[|l| - 1] {
      InsertPositionIs(l[..|l| - 1], e, i);
    }
  }

  /** The list `add` builds before popping: `e` at its insert position. */
  function Grown(l: seq<int>, e: int): seq<int>
  {
    var i := InsertPosition(l, e);
    l[..i] + [e] + l[i..]
  }

  /** Inserting at `InsertPosition` keeps a non-increasing list non-increasing. */
  lemma GrownSorted(l: seq<int>, e: int)
    requires NonIncreasing(l)
    ensures NonIncreasing(Grown(l, e))
  {
    var i := InsertPosition(l, e);
    var g := Grown(l, e);
    forall a, b | 0 <= a < b < |g| ensures g[a] >= g[b] {
      if b < i {
        assert g[a] == l[a] && g[b] == l[b];
      } else if b == i {
        assert g[a] == l[a] >= l[i - 1] >= e;
      } else if a < i {
        assert g[a] == l[a] && g[b] == l[b - 1];
      } else if a == i {
        assert g[b] == l[b - 1];
      } else {
        assert g[a] == l[a - 1] && g[b] == l[b - 1];
      }
    }
  }

  /** Inserting adds exactly `e` to the contents. */
  lemma GrownContents(l: seq<int>, e: int)
    ensures |Grown(l, e)| == |l| + 1
    ensures multiset(Grown(l, e)) == multiset(l) + multiset{e}
  {
    var i := InsertPosition(l, e);
    assert l == l[..i] + l[i..];
  }

  /** Inserting never lowers the third element of a full list. */
  lemma GrownThird(l: seq<int>, e: int)
    requires NonIncreasing(l) && |l| == 3
    ensures Grown(l, e)[2] >= l[2]
  {
    var i := InsertPosition(l, e);
    var g := Grown(l, e);
    if i <= 1 {
      assert g[2] == l[1];
    } else if i == 2 {
      assert g[2] == e;
    } else {
      assert g[2] == l[2];
    }
  }

  /** `add` returns the grown list, without its last element once it exceeds three. */
  lemma AddedIsGrown(l: seq<int>, e: int)
    ensures Added(l, e) == if |Grown(l, e)| > 3 then Grown(l, e)[..|Grown(l, e)| - 1] else Grown(l, e)
  {
    if l == [] {
      assert Grown(l, e) == [e];
    }
  }

  /** `add` keeps the list in non-increasing order. */
  lemma AddedSorted(l: seq<int>, e: int)
    requires NonIncreasing(l)
    ensures NonIncreasing(Added(l, e))
  {
    GrownSorted(l, e);
    AddedIsGrown(l, e);
  }

  /** After any add the list holds one more element, up to three. */
  lemma AddedLength(l: seq<int>, e: int)
    requires |l| <= 3
    ensures |Added(l, e)| == if |l| < 3 then |l| + 1 else 3
  {
    GrownContents(l, e);
    AddedIsGrown(l, e);
  }

  /** The step of `AddAllInvariant` when the list is already full: the popped
      element joins the values left out, and it is no larger than the new third. */
  lemma FullStep(xs: seq<int>, a: seq<int>, e: int)
    requires NonIncreasing(a) && |a| == 3
    requires multiset(a) <= multiset(xs)
    requires forall x :: x in multiset(xs) - multiset(a) ==> x <= a[2]
    ensures multiset(Added(a, e)) <= multiset(xs) + multiset{e}
    ensures forall x :: x in (multiset(xs) + multiset{e}) - multiset(Added(a, e)) ==> x <= Added(a, e)[2]
  {
    var g := Grown(a, e);
    GrownSorted(a, e);
    GrownContents(a, e);
    GrownThird(a, e);
    AddedIsGrown(a, e);
    var r := g[..3];
    assert Added(a, e) == r;
    assert g == r + [g[3]];
    assert multiset(g) == multiset(r) + multiset{g[3]};
    assert multiset(r) <= multiset(g);
    var dropped := (multiset(xs) + multiset{e}) - multiset(r);
    forall v ensures dropped[v] == ((multiset(xs) - multiset(a)) + multiset{g[3]})[v] {
      assert multiset(r)[v] + multiset{g[3]}[v] == multiset(a)[v] + multiset{e}[v];
    }
    assert dropped == (multiset(xs) - multiset(a)) + multiset{g[3]};
    assert g[3] <= g[2];
  }

  /** A sub-multiset of the same size is the whole multiset. */
  lemma SameSizeSubMultiset(a: multiset<int>, b: multiset<int>)
    requires a <= b && |a| == |b|
    ensures a == b
  {
    assert b == a + (b - a);
    assert |b - a| == 0;
  }

  /** After a series of adds the list is non-increasing, holds min(3, n) of the
      values added, and every value left out is no larger than its last element. */
  lemma {:induction false} AddAllInvariant(xs: seq<int>)
    ensures NonIncreasing(AddAll(xs))
    ensures |AddAll(xs)| == if |xs| < 3 then |xs| else 3
    ensures multiset(AddAll(xs)) <= multiset(xs)
    ensures forall x :: x in multiset(xs) - multiset(AddAll(xs)) ==> |AddAll(xs)| == 3 && x <= AddAll(xs)[2]
  {
    if xs != [] {
      var p := xs[..|xs| - 1];
      var e := xs[|xs| - 1];
      assert xs == p + [e];
      assert multiset(xs) == multiset(p) + multiset{e};
      AddAllInvariant(p);
      var a := AddAll(p);
      AddedSorted(a, e);
      AddedLength(a, e);
      if |a| < 3 {
        SameSizeSubMultiset(multiset(a), multiset(p));
        GrownContents(a, e);
        AddedIsGrown(a, e);
      } else {
        FullStep(p, a, e);
      }
    }
  }

  /** After a series of adds the list holds the min(3, n) largest values added,
      in non-increasing order: every value left out is no larger than any kept. */
  lemma AddAllIsTopThree(xs: seq<int>)
    ensures NonIncreasing(AddAll(xs))
    ensures |AddAll(xs)| == if |xs| < 3 then |xs| else 3
    ensures multiset(AddAll(xs)) <= multiset(xs)
    ensures forall x, y :: x in multiset(xs) - multiset(AddAll(xs)) && y in AddAll(xs) ==> x <= y
  {
    AddAllInvariant(xs);
  }

  /** The part-2 test: adding 3, 2, 1 sums to 6 with 1 last; adding 4 then
      keeps three elements summing to 9. */
  lemma OrderedListExample()
    ensures AddAll([3, 2, 1]) == [3, 2, 1] && Sum(AddAll([3, 2, 1])) == 6
    ensures AddAll([3, 2, 1, 4]) == [4, 3, 2] && Sum(AddAll([3, 2, 1, 4])) == 9
  {
    assert [3, 2, 1][..2] == [3, 2];
    assert [3, 2][..1] == [3];
    assert [3, 2, 1, 4][..3] == [3, 2, 1];
  }

  /** Totals of the groups closed by a blank line, in input order. */
  function ClosedTotals(lines: seq<Line>): seq<nat>
  {
    if lines == [] then []
    else
      var p := lines[..|lines| - 1];
      match lines[|lines| - 1]
      case Blank => ClosedTotals(p) + [OpenTotal(p)]
      case Amount(_) => ClosedTotals(p)
  }

  /** The running total of the group still open after `lines`. */
  function OpenTotal(lines: seq<Line>): nat
  {
    if lines == [] then 0
    else
      match lines[|lines| - 1]
      case Blank => 0
      case Amount(n) => OpenTotal(lines[..|lines| - 1]) + n
  }

  /** Part 1: the largest total among groups closed by a blank line; a final
      group with no blank after it does not count. */
  method MaxGroup(lines: seq<Line>) returns (max: nat)
    ensures forall t :: t in ClosedTotals(lines) ==> t <= max
    ensures max == 0 || max in ClosedTotals(lines)
  {
    max := 0;
    var current: nat := 0;
    var i := 0;
    while i < |lines|
      invariant 0 <= i <= |lines|
      invariant current == OpenTotal(lines[..i])
      invariant forall t :: t in ClosedTotals(lines[..i]) ==> t <= max
      invariant max == 0 || max in ClosedTotals(lines[..i])
    {
      assert lines[..i + 1][..i] == lines[..i];
      if lines[i].Blank? {
        if current > max {
          max := current;
        }
        current := 0;
      } else {
        current := current + lines[i].calories;
      }
      i := i + 1;
    }
    assert lines[..i] == lines;
  }

  /** Part 2: the sum of the three largest closed group totals. */
  method TopThreeTotal(lines: seq<Line>) returns (total: int)
    ensures total == Sum(AddAll(ClosedTotals(lines)))
  {
    var top3 := new OrderedList();
    var current: nat := 0;
    var i := 0;
    ghost var added: seq<int> := [];
    while i < |lines|
      invariant 0 <= i <= |lines|
      invariant current == OpenTotal(lines[..i])
      invariant added == ClosedTotals(lines[..i])
      invariant top3.items == AddAll(added)
    {
      assert lines[..i + 1][..i] == lines[..i];
      if lines[i].Blank? {
        top3.Add(current);
        added := added + [current];
        assert added[..|added| - 1] == ClosedTotals(lines[..i]);
        current := 0;
      } else {
        current := current + lines[i].calories;
      }
      i := i + 1;
    }
    assert lines[..i] == lines;
    total := top3.Total();
  }
}
