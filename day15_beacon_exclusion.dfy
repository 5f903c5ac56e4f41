/*
 * Beacon Exclusion Zone: every sensor reports its closest beacon, which
 * makes it the centre of a Manhattan "circle" in which no other beacon can
 * be.  A row of the map is covered by the intersections of those circles
 * with it, kept as a sorted list of disjoint, non-adjacent integer
 * intervals clipped to a window.
 */
module BeaconExclusion {
  import opened Wrappers

  /** Bounds of a Rust i32, the starting values of the horizontal extent. */
  const I32Min: int := -0x8000_0000
  const I32Max: int := 0x7fff_ffff

  datatype Point = Point(x: int, y: int)

  function Abs(n: int): nat
  {
    if n < 0 then -n else n
  }

  function Min(a: int, b: int): int
  {
    if a <= b then a else b
  }

  function Max(a: int, b: int): int
  {
    if a <= b then b else a
  }

  /** Sum of the absolute coordinate differences. */
  function ManhattanDist(a: Point, b: Point): (d: nat)
    ensures d == 0 <==> a == b
    ensures d >= Abs(a.x - b.x) && d >= Abs(a.y - b.y)
  {
    Abs(a.x - b.x) + Abs(a.y - b.y)
  }

  // ---------------------------------------------------------------------
  // Intervals
  // ---------------------------------------------------------------------

  /** The integers `low..=high`; empty when `low > high`. */
  datatype Interval = Interval(low: int, high: int)

  predicate WellFormed(i: Interval)
  {
    i.low <= i.high
  }

  predicate Contains(i: Interval, k: int)
  {
    i.low <= k <= i.high
  }

  /** The integers of `i`; the explicit bounds make the set finite. */
  ghost function Cells(i: Interval): set<int>
  {
    set k: int | i.low <= k <= i.high && Contains(i, k)
  }

  datatype Ordering = Less | Equal | Greater

  function Cmp(a: int, b: int): Ordering
  {
    if a < b then Less else if a == b then Equal else Greater
  }

  /** Intervals are ordered by `low`, then by `high`. */
  function PartialCmp(a: Interval, b: Interval): (r: Ordering)
    ensures r == Equal <==> a == b
    ensures r == Less <==> a.low < b.low || (a.low == b.low && a.high < b.high)
    ensures r == Greater <==> a.low > b.low || (a.low == b.low && a.high > b.high)
  {
    var byLow := Cmp(a.low, b.low);
    if byLow == Equal then Cmp(a.high, b.high) else byLow
  }

  predicate Lt(a: Interval, b: Interval)
  {
    PartialCmp(a, b) == Less
  }

  /** The order is strict and total. */
  lemma LtTotal(a: Interval, b: Interval)
    ensures !(Lt(a, b) && Lt(b, a))
    ensures a != b ==> Lt(a, b) || Lt(b, a)
  {
  }

  datatype IntervalType = Joined(single: Interval) | Disjoined(min: Interval, max: Interval)

  /** At least one integer lies strictly between the two intervals. */
  predicate Apart(a: Interval, b: Interval)
  {
    a.low > b.high + 1 || b.low > a.high + 1
  }

  /** Joins two intervals that overlap or touch; otherwise returns both in
      order. */
  function Merge(a: Interval, b: Interval): (r: IntervalType)
    ensures r.Disjoined? <==> Apart(a, b)
    ensures r.Disjoined? ==> {r.min, r.max} == {a, b} && !Lt(r.max, r.min)
    ensures r.Disjoined? && WellFormed(a) && WellFormed(b) ==> r.min.high + 1 < r.max.low
  {
    if a.low > b.high + 1 || b.low > a.high + 1 then
      if Lt(a, b) then Disjoined(a, b) else Disjoined(b, a)
    else
      Joined(Interval(Min(a.low, b.low), Max(a.high, b.high)))
  }

  /** A join covers exactly the integers of both intervals. */
  lemma MergeJoinedUnion(a: Interval, b: Interval)
    requires WellFormed(a) && WellFormed(b)
    ensures Merge(a, b).Joined? ==>
      WellFormed(Merge(a, b).single) && Cells(Merge(a, b).single) == Cells(a) + Cells(b)
  {
    if !Apart(a, b) {
      var m := Merge(a, b).single;
      forall k | k in Cells(m)
        ensures k in Cells(a) + Cells(b)
      {
      }
    }
  }

  /** The integers lists of intervals cover. */
  ghost function Union(s: seq<Interval>): set<int>
  {
    if s == [] then {} else Cells(s[0]) + Union(s[1..])
  }

  function Pieces(o: Option<IntervalType>): seq<Interval>
  {
    match o
    case None => []
    case Some(Joined(i)) => [i]
    case Some(Disjoined(lo, hi)) => [lo, hi]
  }

  predicate AllWellFormed(s: seq<Interval>)
  {
    forall j :: 0 <= j < |s| ==> WellFormed(s[j])
  }

  /** Removes the integers of `b` from `a`: whole, split in two, clipped on
      one side, or nothing left. */
  function Disjoin(a: Interval, b: Interval): (r: Option<IntervalType>)
    ensures Union(Pieces(r)) == Cells(a) - Cells(b)
    ensures WellFormed(a) ==> AllWellFormed(Pieces(r))
    ensures WellFormed(a) ==> (r.None? <==> Cells(a) <= Cells(b))
    ensures r.Some? && r.value.Disjoined? ==> r.value.min.high < b.low && b.high < r.value.max.low
  {
    var r :=
      if a.low > b.high then Some(Joined(a))
      else if a.high < b.low then Some(Joined(a))
      else if a.low >= b.low && a.high <= b.high then None
      else if a.low < b.low && a.high > b.high then
        Some(Disjoined(Interval(a.low, b.low - 1), Interval(b.high + 1, a.high)))
      else if a.low < b.low then Some(Joined(Interval(a.low, b.low - 1)))
      else Some(Joined(Interval(b.high + 1, a.high)));
    DisjoinCells(a, b, r);
    r
  }

  lemma DisjoinCells(a: Interval, b: Interval, r: Option<IntervalType>)
    requires r ==
      if a.low > b.high then Some(Joined(a))
      else if a.high < b.low then Some(Joined(a))
      else if a.low >= b.low && a.high <= b.high then None
      else if a.low < b.low && a.high > b.high then
        Some(Disjoined(Interval(a.low, b.low - 1), Interval(b.high + 1, a.high)))
      else if a.low < b.low then Some(Joined(Interval(a.low, b.low - 1)))
      else Some(Joined(Interval(b.high + 1, a.high)))
    ensures Union(Pieces(r)) == Cells(a) - Cells(b)
    ensures WellFormed(a) ==> (r.None? <==> Cells(a) <= Cells(b))
  {
    var ps := Pieces(r);
    if r.None? {
      assert Union(ps) == {};
    } else if r.value.Joined? {
      assert Union(ps) == Cells(ps[0]);
    } else {
      assert ps[1..] == [ps[1]];
      assert Union(ps[1..]) == Cells(ps[1]);
    }
    if WellFormed(a) && r.Some? {
      assert a.low in Cells(a) || a.high in Cells(a);
      assert a.low in Cells(a) - Cells(b) || a.high in Cells(a) - Cells(b);
    }
  }

  // ---------------------------------------------------------------------
  // Interval list
  // ---------------------------------------------------------------------

  /** Covered intervals of a row, clipped to `lowBound..=highBound`. */
  datatype IntervalList = IntervalList(intervals: seq<Interval>, lowBound: int, highBound: int)

  /** Every interval ends at least two before the next one starts: the
      list is sorted, pairwise disjoint and has no touching neighbours. */
  ghost predicate Separated(s: seq<Interval>)
  {
    forall j, k :: 0 <= j < k < |s| ==> s[j].high + 1 < s[k].low
  }

  ghost predicate Within(s: seq<Interval>, lo: int, hi: int)
  {
    forall j :: 0 <= j < |s| ==> lo <= s[j].low && s[j].high <= hi
  }

  ghost predicate Tidy(s: seq<Interval>, lo: int, hi: int)
  {
    AllWellFormed(s) && Separated(s) && Within(s, lo, hi)
  }

  ghost predicate Valid(l: IntervalList)
  {
    l.lowBound <= l.highBound && Tidy(l.intervals, l.lowBound, l.highBound)
  }

  function Clip(i: Interval, lo: int, hi: int): Interval
  {
    Interval(Max(i.low, lo), Min(i.high, hi))
  }

  predicate OutOfBounds(i: Interval, lo: int, hi: int)
  {
    i.high < lo || i.low > hi
  }

  /** Merges `current` into the sorted `rest`, front to back, emitting
      into `acc` every interval that ends before what follows it. */
  function MergeAll(acc: seq<Interval>, current: Interval, rest: seq<Interval>): seq<Interval>
    decreases |rest|
  {
    if rest == [] then acc + [current]
    else
      match Merge(rest[0], current)
      case Joined(m) => MergeAll(acc, m, rest[1..])
      case Disjoined(lo, hi) => MergeAll(acc + [lo], hi, rest[1..])
  }

  /** The list `insert` returns. */
  function Inserted(l: IntervalList, i: Interval): IntervalList
  {
    if OutOfBounds(i, l.lowBound, l.highBound) then l
    else IntervalList(MergeAll([], Clip(i, l.lowBound, l.highBound), l.intervals), l.lowBound, l.highBound)
  }

  method Insert(l: IntervalList, i: Interval) returns (r: IntervalList)
    ensures r == Inserted(l, i)
  {
    if i.high < l.lowBound || i.low > l.highBound {
      return l;
    }
    var current := Interval(Max(i.low, l.lowBound), Min(i.high, l.highBound));
    var afterInsert: seq<Interval> := [];
    var n := 0;
    while n < |l.intervals|
      invariant 0 <= n <= |l.intervals|
      invariant MergeAll(afterInsert, current, l.intervals[n..]) == Inserted(l, i).intervals
    {
      assert l.intervals[n..][1..] == l.intervals[n + 1..];
      match Merge(l.intervals[n], current) {
        case Joined(merged) =>
          current := merged;
        case Disjoined(min, max) =>
          afterInsert := afterInsert + [min];
          current := max;
      }
      n := n + 1;
    }
    afterInsert := afterInsert + [current];
    r := IntervalList(afterInsert, l.lowBound, l.highBound);
  }

  lemma {:induction false} UnionAppend(a: seq<Interval>, b: seq<Interval>)
    ensures Union(a + b) == Union(a) + Union(b)
    decreases |a|
  {
    if a == [] {
      assert a + b == b;
    } else {
      assert (a + b)[0] == a[0];
      assert (a + b)[1..] == a[1..] + b;
      UnionAppend(a[1..], b);
    }
  }

  lemma TidySnoc(s: seq<Interval>, x: Interval, lo: int, hi: int)
    requires Tidy(s, lo, hi) && WellFormed(x) && lo <= x.low && x.high <= hi
    requires s != [] ==> s[|s| - 1].high + 1 < x.low
    ensures Tidy(s + [x], lo, hi)
  {
    var t := s + [x];
    forall j, k | 0 <= j < k < |t|
      ensures t[j].high + 1 < t[k].low
    {
      if k == |s| && j < |s| - 1 {
        assert s[j].high + 1 < s[|s| - 1].low;
      }
    }
  }

  /** What merging `current` into `rest` after `acc` relies on: both lists
      tidy, `current` well formed and inside the bounds, and the last
      emitted interval well before both `current` and `rest`. */
  ghost predicate MergeReady(acc: seq<Interval>, current: Interval, rest: seq<Interval>, lo: int, hi: int)
  {
    && Tidy(acc, lo, hi) && Tidy(rest, lo, hi)
    && WellFormed(current) && lo <= current.low && current.high <= hi
    && (acc != [] ==> acc[|acc| - 1].high + 1 < current.low)
    && (acc != [] && rest != [] ==> acc[|acc| - 1].high + 1 < rest[0].low)
  }

  lemma TailTidy(rest: seq<Interval>, lo: int, hi: int)
    requires rest != [] && Tidy(rest, lo, hi)
    ensures Tidy(rest[1..], lo, hi)
    ensures rest[1..] != [] ==> rest[0].high + 1 < rest[1..][0].low
  {
    if |rest| > 1 {
      assert rest[0].high + 1 < rest[1].low;
    }
  }

  lemma JoinedStep(acc: seq<Interval>, current: Interval, rest: seq<Interval>, lo: int, hi: int)
    requires MergeReady(acc, current, rest, lo, hi)
    requires rest != [] && Merge(rest[0], current).Joined?
    ensures MergeReady(acc, Merge(rest[0], current).single, rest[1..], lo, hi)
  {
    TailTidy(rest, lo, hi);
    MergeJoinedUnion(rest[0], current);
  }

  lemma DisjoinedStep(acc: seq<Interval>, current: Interval, rest: seq<Interval>, lo: int, hi: int)
    requires MergeReady(acc, current, rest, lo, hi)
    requires rest != [] && Merge(rest[0], current).Disjoined?
    ensures var r := Merge(rest[0], current);
      MergeReady(acc + [r.min], r.max, rest[1..], lo, hi)
  {
    var r := Merge(rest[0], current);
    TailTidy(rest, lo, hi);
    TidySnoc(acc, r.min, lo, hi);
    var acc' := acc + [r.min];
    assert acc'[|acc'| - 1] == r.min;
  }

  /** Merging keeps the list tidy. */
  lemma {:induction false} MergeAllTidy(acc: seq<Interval>, current: Interval, rest: seq<Interval>, lo: int, hi: int)
    requires MergeReady(acc, current, rest, lo, hi)
    ensures Tidy(MergeAll(acc, current, rest), lo, hi)
    decreases |rest|
  {
    if rest == [] {
      TidySnoc(acc, current, lo, hi);
    } else {
      match Merge(rest[0], current) {
        case Joined(m) =>
          JoinedStep(acc, current, rest, lo, hi);
          MergeAllTidy(acc, m, rest[1..], lo, hi);
        case Disjoined(a, b) =>
          DisjoinedStep(acc, current, rest, lo, hi);
          MergeAllTidy(acc + [a], b, rest[1..], lo, hi);
      }
    }
  }

  /** Merging adds exactly the integers of `current`. */
  lemma {:induction false} MergeAllUnion(acc: seq<Interval>, current: Interval, rest: seq<Interval>)
    requires WellFormed(current) && AllWellFormed(rest)
    ensures Union(MergeAll(acc, current, rest)) == Union(acc) + Cells(current) + Union(rest)
    decreases |rest|
  {
    if rest == [] {
      UnionAppend(acc, [current]);
      assert Union([current]) == Cells(current);
    } else {
      assert AllWellFormed(rest[1..]);
      match Merge(rest[0], current) {
        case Joined(m) =>
          MergeJoinedUnion(rest[0], current);
          MergeAllUnion(acc, m, rest[1..]);
        case Disjoined(a, b) =>
          MergeAllUnion(acc + [a], b, rest[1..]);
          UnionAppend(acc, [a]);
          assert Union([a]) == Cells(a);
      }
    }
  }

  lemma ClipCells(i: Interval, lo: int, hi: int)
    ensures OutOfBounds(i, lo, hi) ==> Cells(i) * Cells(Interval(lo, hi)) == {}
    ensures !OutOfBounds(i, lo, hi) ==> Cells(Clip(i, lo, hi)) == Cells(i) * Cells(Interval(lo, hi))
  {
  }

  /** `insert` ignores an interval outside the bounds, clips any other, and
      keeps a tidy list whose union grows by exactly the clipped interval. */
  lemma InsertKeepsTidy(l: IntervalList, i: Interval)
    requires Valid(l) && WellFormed(i)
    ensures Valid(Inserted(l, i))
    ensures Union(Inserted(l, i).intervals) == Union(l.intervals) + Cells(i) * Cells(Interval(l.lowBound, l.highBound))
    ensures Inserted(l, i).lowBound == l.lowBound && Inserted(l, i).highBound == l.highBound
  {
    ClipCells(i, l.lowBound, l.highBound);
    if !OutOfBounds(i, l.lowBound, l.highBound) {
      var c := Clip(i, l.lowBound, l.highBound);
      MergeAllTidy([], c, l.intervals, l.lowBound, l.highBound);
      MergeAllUnion([], c, l.intervals);
      assert Union([]) == {};
    }
  }

  // ---------------------------------------------------------------------
  // Sensors
  // ---------------------------------------------------------------------

  /** A sensor at `center` whose closest beacon is at `sensorPos`. */
  datatype Circle = Circle(center: Point, sensorPos: Point)

  function Radius(c: Circle): nat
  {
    ManhattanDist(c.center, c.sensorPos)
  }

  /** No beacon other than the reported one can be at `p`. */
  predicate Covers(c: Circle, p: Point)
  {
    ManhattanDist(c.center, p) <= Radius(c)
  }

  function MinX(c: Circle): int
  {
    c.center.x - Radius(c)
  }

  function MaxX(c: Circle): int
  {
    c.center.x + Radius(c)
  }

  function MinY(c: Circle): int
  {
    c.center.y - Radius(c)
  }

  function MaxY(c: Circle): int
  {
    c.center.y + Radius(c)
  }

  /** The segment of row `y` inside the circle. */
  function IntersectWithY(c: Circle, y: int): (r: Option<Interval>)
    ensures r.None? <==> Abs(y - c.center.y) > Radius(c)
    ensures r.None? ==> forall x :: !Covers(c, Point(x, y))
    ensures r.Some? ==> WellFormed(r.value) && forall x :: x in Cells(r.value) <==> Covers(c, Point(x, y))
  {
    if y > MaxY(c) || y < MinY(c) then None
    else
      var yDiff := Abs(y - c.center.y);
      var radius := Radius(c);
      Some(Interval(c.center.x + yDiff - radius, c.center.x + radius - yDiff))
  }

  /** The reported beacon lies on the rim of its sensor's circle. */
  lemma BeaconOnRim(c: Circle)
    ensures Covers(c, c.sensorPos)
    ensures MinX(c) <= c.sensorPos.x <= MaxX(c)
  {
  }

  // ---------------------------------------------------------------------
  // The field
  // ---------------------------------------------------------------------

  datatype Field = Field(circles: seq<Circle>, minX: int, maxX: int)

  /** Left-most x any circle reaches, starting from `i32::MAX`. */
  function LeftEdge(cs: seq<Circle>): int
  {
    if cs == [] then I32Max else Min(LeftEdge(cs[..|cs| - 1]), MinX(cs[|cs| - 1]))
  }

  /** Right-most x any circle reaches, starting from `i32::MIN`. */
  function RightEdge(cs: seq<Circle>): int
  {
    if cs == [] then I32Min else Max(RightEdge(cs[..|cs| - 1]), MaxX(cs[|cs| - 1]))
  }

  /** The horizontal extent is the smallest window holding every circle,
      unless the `i32` starting values are tighter. */
  lemma {:induction false} EdgesBound(cs: seq<Circle>)
    ensures LeftEdge(cs) <= I32Max && RightEdge(cs) >= I32Min
    ensures forall c :: c in cs ==> LeftEdge(cs) <= MinX(c) && MaxX(c) <= RightEdge(cs)
    ensures LeftEdge(cs) == I32Max || exists c :: c in cs && LeftEdge(cs) == MinX(c)
    ensures RightEdge(cs) == I32Min || exists c :: c in cs && RightEdge(cs) == MaxX(c)
  {
    if cs != [] {
      var init := cs[..|cs| - 1];
      var last := cs[|cs| - 1];
      EdgesBound(init);
      assert forall c :: c in cs ==> c in init || c == last;
      assert forall c :: c in init ==> c in cs;
    }
  }

  /** Builds the field from already split sensor and beacon positions. */
  method Parse(readings: seq<(Point, Point)>) returns (f: Field)
    ensures |f.circles| == |readings|
    ensures forall j :: 0 <= j < |readings| ==>
      f.circles[j] == Circle(readings[j].0, readings[j].1)
    ensures f.minX == LeftEdge(f.circles) && f.maxX == RightEdge(f.circles)
  {
    var circles: seq<Circle> := [];
    var minX, maxX := I32Max, I32Min;
    for n := 0 to |readings|
      invariant |circles| == n
      invariant forall j :: 0 <= j < n ==> circles[j] == Circle(readings[j].0, readings[j].1)
      invariant minX == LeftEdge(circles) && maxX == RightEdge(circles)
    {
      var circle := Circle(readings[n].0, readings[n].1);
      minX := Min(minX, MinX(circle));
      maxX := Max(maxX, MaxX(circle));
      assert (circles + [circle])[..n] == circles;
      circles := circles + [circle];
    }
    f := Field(circles, minX, maxX);
  }

  ghost predicate CoveredAt(cs: seq<Circle>, p: Point)
  {
    exists c :: c in cs && Covers(c, p)
  }

  /** The x positions of row `y` inside `lo..=hi` some circle covers. */
  ghost function CoveredSet(cs: seq<Circle>, y: int, lo: int, hi: int): set<int>
  {
    set x: int | lo <= x <= hi && CoveredAt(cs, Point(x, y))
  }

  /** Inserts each circle's segment of row `y`, in circle order. */
  function CoveredFrom(l: IntervalList, cs: seq<Circle>, y: int): IntervalList
    decreases |cs|
  {
    if cs == [] then l
    else
      match IntersectWithY(cs[0], y)
      case None => CoveredFrom(l, cs[1..], y)
      case Some(i) => CoveredFrom(Inserted(l, i), cs[1..], y)
  }

  function Covered(cs: seq<Circle>, y: int, lo: int, hi: int): IntervalList
  {
    CoveredFrom(IntervalList([], lo, hi), cs, y)
  }

  method CoveredIntervals(f: Field, y: int, lowBound: int, highBound: int) returns (r: IntervalList)
    ensures r == Covered(f.circles, y, lowBound, highBound)
  {
    r := IntervalList([], lowBound, highBound);
    for n := 0 to |f.circles|
      invariant CoveredFrom(r, f.circles[n..], y) == Covered(f.circles, y, lowBound, highBound)
    {
      assert f.circles[n..][1..] == f.circles[n + 1..];
      var intersection := IntersectWithY(f.circles[n], y);
      if intersection.Some? {
        r := Insert(r, intersection.value);
      }
    }
  }

  lemma CoveredSetCons(cs: seq<Circle>, y: int, lo: int, hi: int)
    requires cs != []
    ensures IntersectWithY(cs[0], y).None? ==>
      CoveredSet(cs, y, lo, hi) == CoveredSet(cs[1..], y, lo, hi)
    ensures IntersectWithY(cs[0], y).Some? ==>
      CoveredSet(cs, y, lo, hi) ==
        CoveredSet(cs[1..], y, lo, hi) + Cells(IntersectWithY(cs[0], y).value) * Cells(Interval(lo, hi))
  {
    forall x
      ensures CoveredAt(cs, Point(x, y)) <==> Covers(cs[0], Point(x, y)) || CoveredAt(cs[1..], Point(x, y))
    {
      if CoveredAt(cs, Point(x, y)) {
        var c :| c in cs && Covers(c, Point(x, y));
        if c != cs[0] {
          assert c in cs[1..];
        }
      }
      if CoveredAt(cs[1..], Point(x, y)) {
        var c :| c in cs[1..] && Covers(c, Point(x, y));
        assert c in cs;
      }
    }
  }

  lemma {:induction false} CoveredFromTidy(l: IntervalList, cs: seq<Circle>, y: int)
    requires Valid(l)
    ensures Valid(CoveredFrom(l, cs, y))
    ensures CoveredFrom(l, cs, y).lowBound == l.lowBound && CoveredFrom(l, cs, y).highBound == l.highBound
    ensures Union(CoveredFrom(l, cs, y).intervals) == Union(l.intervals) + CoveredSet(cs, y, l.lowBound, l.highBound)
    decreases |cs|
  {
    if cs == [] {
      assert CoveredSet(cs, y, l.lowBound, l.highBound) == {};
    } else {
      CoveredSetCons(cs, y, l.lowBound, l.highBound);
      match IntersectWithY(cs[0], y) {
        case None =>
          CoveredFromTidy(l, cs[1..], y);
        case Some(i) =>
          InsertKeepsTidy(l, i);
          CoveredFromTidy(Inserted(l, i), cs[1..], y);
      }
    }
  }

  /** `covered_intervals` yields a tidy list covering exactly the positions
      of the row inside the window that some circle covers. */
  lemma CoveredIsRow(cs: seq<Circle>, y: int, lo: int, hi: int)
    requires lo <= hi
    ensures Valid(Covered(cs, y, lo, hi))
    ensures Union(Covered(cs, y, lo, hi).intervals) == CoveredSet(cs, y, lo, hi)
  {
    assert Union([]) == {};
    CoveredFromTidy(IntervalList([], lo, hi), cs, y);
  }

  // ---------------------------------------------------------------------
  // Counting covered positions
  // ---------------------------------------------------------------------

  function TotalLength(s: seq<Interval>): int
  {
    if s == [] then 0 else s[0].high - s[0].low + 1 + TotalLength(s[1..])
  }

  lemma {:induction false} CellsCard(i: Interval)
    requires WellFormed(i)
    ensures |Cells(i)| == i.high - i.low + 1
    decreases i.high - i.low
  {
    if i.low == i.high {
      assert Cells(i) == {i.low};
    } else {
      var shorter := Interval(i.low, i.high - 1);
      CellsCard(shorter);
      assert Cells(i) == Cells(shorter) + {i.high};
    }
  }

  lemma {:induction false} UnionAbove(s: seq<Interval>, bound: int)
    requires forall j :: 0 <= j < |s| ==> bound < s[j].low
    ensures forall x :: x in Union(s) ==> bound < x
    decreases |s|
  {
    if s != [] {
      UnionAbove(s[1..], bound);
    }
  }

  /** For a tidy list the summed lengths count the covered integers. */
  lemma {:induction false} TotalLengthIsCard(s: seq<Interval>)
    requires AllWellFormed(s) && Separated(s)
    ensures TotalLength(s) == |Union(s)|
    decreases |s|
  {
    if s != [] {
      var tail := s[1..];
      assert Separated(tail) by {
        forall j, k | 0 <= j < k < |tail|
          ensures tail[j].high + 1 < tail[k].low
        {
          assert s[j + 1].high + 1 < s[k + 1].low;
        }
      }
      TotalLengthIsCard(tail);
      CellsCard(s[0]);
      forall j | 0 <= j < |tail|
        ensures s[0].high < tail[j].low
      {
        assert s[0].high + 1 < s[j + 1].low;
      }
      UnionAbove(tail, s[0].high);
      assert Cells(s[0]) * Union(tail) == {};
    }
  }

  /** Distinct beacons standing on row `y`. */
  function BeaconsOnRow(cs: seq<Circle>, y: int): set<Point>
  {
    set c | c in cs && c.sensorPos.y == y :: c.sensorPos
  }

  /** Covered positions of row `y` between the field's horizontal extent,
      minus the beacons standing on that row. */
  method CountUnchecked(f: Field, lineNumber: int) returns (r: int)
    ensures f.minX <= f.maxX ==>
      r == |CoveredSet(f.circles, lineNumber, f.minX, f.maxX)| - |BeaconsOnRow(f.circles, lineNumber)|
  {
    var merged := CoveredIntervals(f, lineNumber, f.minX, f.maxX);
    var coveredIncludingBeacons := TotalLength(merged.intervals);
    var beacons := |BeaconsOnRow(f.circles, lineNumber)|;
    r := coveredIncludingBeacons - beacons;
    if f.minX <= f.maxX {
      CoveredIsRow(f.circles, lineNumber, f.minX, f.maxX);
      TotalLengthIsCard(merged.intervals);
    }
  }

  /** In a parsed field every beacon on the row is among the covered
      positions, so the count is the number of positions where no unknown
      beacon can be. */
  lemma BeaconsCovered(cs: seq<Circle>, y: int)
    ensures forall p :: p in BeaconsOnRow(cs, y) ==>
      p.y == y && p.x in CoveredSet(cs, y, LeftEdge(cs), RightEdge(cs))
  {
    forall p | p in BeaconsOnRow(cs, y)
      ensures p.y == y && p.x in CoveredSet(cs, y, LeftEdge(cs), RightEdge(cs))
    {
      var c :| c in cs && c.sensorPos.y == y && p == c.sensorPos;
      BeaconOnRim(c);
      EdgesBound(cs);
      assert Covers(c, Point(p.x, y));
    }
  }

  // ---------------------------------------------------------------------
  // Finding uncovered positions
  // ---------------------------------------------------------------------

  /** Removes one covered interval from every uncovered piece. */
  function SubtractOne(acc: seq<Interval>, c: Interval): (r: seq<Interval>)
    ensures Union(r) == Union(acc) - Cells(c)
    ensures AllWellFormed(acc) ==> AllWellFormed(r)
  {
    if acc == [] then []
    else
      var r := Pieces(Disjoin(acc[0], c)) + SubtractOne(acc[1..], c);
      UnionAppend(Pieces(Disjoin(acc[0], c)), SubtractOne(acc[1..], c));
      r
  }

  /** Removes the covered intervals one after another. */
  function SubtractAll(acc: seq<Interval>, covered: seq<Interval>): (r: seq<Interval>)
    ensures Union(r) == Union(acc) - Union(covered)
    ensures AllWellFormed(acc) ==> AllWellFormed(r)
    decreases |covered|
  {
    if covered == [] then acc
    else SubtractAll(SubtractOne(acc, covered[0]), covered[1..])
  }

  /** The uncovered pieces of row `y` inside `x`. */
  function UncoveredRow(f: Field, x: Interval, y: int): seq<Interval>
  {
    SubtractAll([x], Covered(f.circles, y, x.low, x.high).intervals)
  }

  lemma {:induction false} EmptyUnion(s: seq<Interval>)
    requires AllWellFormed(s)
    ensures s == [] <==> Union(s) == {}
  {
    if s != [] {
      assert s[0].low in Union(s);
    }
  }

  /** A row has pieces left exactly when some position of `x` on it is not
      covered, and the pieces are exactly those positions. */
  lemma UncoveredRowMeaning(f: Field, x: Interval, y: int)
    requires WellFormed(x)
    ensures AllWellFormed(UncoveredRow(f, x, y))
    ensures Union(UncoveredRow(f, x, y)) == Cells(x) - CoveredSet(f.circles, y, x.low, x.high)
    ensures UncoveredRow(f, x, y) != [] <==> exists k :: x.low <= k <= x.high && !CoveredAt(f.circles, Point(k, y))
  {
    CoveredIsRow(f.circles, y, x.low, x.high);
    assert Union([x]) == Cells(x);
    EmptyUnion(UncoveredRow(f, x, y));
    var rest := Cells(x) - CoveredSet(f.circles, y, x.low, x.high);
    if rest != {} {
      var k :| k in rest;
      assert x.low <= k <= x.high && !CoveredAt(f.circles, Point(k, y));
    }
    if exists k :: x.low <= k <= x.high && !CoveredAt(f.circles, Point(k, y)) {
      var k :| x.low <= k <= x.high && !CoveredAt(f.circles, Point(k, y));
      assert k in rest;
    }
  }

  /** Maps each row of `yInterval` that is not fully covered inside
      `xInterval` to its uncovered pieces. */
  method FindUncovered(f: Field, xInterval: Interval, yInterval: Interval) returns (res: map<int, seq<Interval>>)
    ensures forall k :: k in res <==> yInterval.low <= k <= yInterval.high && UncoveredRow(f, xInterval, k) != []
    ensures forall k :: k in res ==> res[k] == UncoveredRow(f, xInterval, k)
  {
    res := map[];
    var y := yInterval.low;
    while y <= yInterval.high
      invariant yInterval.low <= y
      invariant y <= Max(yInterval.low, yInterval.high + 1)
      invariant forall k :: k in res <==> yInterval.low <= k < y && UncoveredRow(f, xInterval, k) != []
      invariant forall k :: k in res ==> res[k] == UncoveredRow(f, xInterval, k)
      decreases yInterval.high - y
    {
      var covered := CoveredIntervals(f, y, xInterval.low, xInterval.high);
      var uncovered := SubtractAll([xInterval], covered.intervals);
      if uncovered != [] {
        res := res[y := uncovered];
      }
      y := y + 1;
    }
    forall k
      ensures k in res <==> yInterval.low <= k <= yInterval.high && UncoveredRow(f, xInterval, k) != []
    {
      assert yInterval.low <= k < y <==> yInterval.low <= k <= yInterval.high;
    }
  }

  // ---------------------------------------------------------------------
  // Samples
  // ---------------------------------------------------------------------

  lemma SampleMerge()
    ensures Merge(Interval(0, 5), Interval(-3, 4)) == Joined(Interval(-3, 5))
    ensures Merge(Interval(0, 5), Interval(-3, -2)) == Disjoined(Interval(-3, -2), Interval(0, 5))
    ensures Merge(Interval(0, 5), Interval(6, 8)) == Joined(Interval(0, 8))
  {
  }

  lemma SampleIntersect()
    ensures var c := Circle(Point(0, 0), Point(0, 5));
      && IntersectWithY(c, 0) == Some(Interval(-5, 5))
      && IntersectWithY(c, 5) == Some(Interval(0, 0))
      && IntersectWithY(c, -5) == Some(Interval(0, 0))
      && IntersectWithY(c, 1) == Some(Interval(-4, 4))
      && IntersectWithY(c, -1) == Some(Interval(-4, 4))
  {
    var c := Circle(Point(0, 0), Point(0, 5));
    assert Radius(c) == 5;
    assert MinY(c) == -5 && MaxY(c) == 5;
  }

  lemma SampleInsert()
    ensures
      var l0 := IntervalList([], 0, 20);
      var l1 := Inserted(l0, Interval(-3, -2));
      var l2 := Inserted(l1, Interval(-1, 3));
      var l3 := Inserted(l2, Interval(1, 3));
      var l4 := Inserted(l3, Interval(6, 9));
      var l5 := Inserted(l4, Interval(5, 10));
      var l6 := Inserted(l5, Interval(11, 12));
      var l7 := Inserted(l6, Interval(14, 16));
      l7.intervals == [Interval(0, 3), Interval(5, 12), Interval(14, 16)]
  {
    var l0 := IntervalList([], 0, 20);
    var l2 := Inserted(Inserted(l0, Interval(-3, -2)), Interval(-1, 3));
    assert l2.intervals == [Interval(0, 3)];
    var l3 := Inserted(l2, Interval(1, 3));
    assert l3.intervals == [Interval(0, 3)];
    var l4 := Inserted(l3, Interval(6, 9));
    assert l4.intervals == [Interval(0, 3), Interval(6, 9)];
    var l5 := Inserted(l4, Interval(5, 10));
    assert l5.intervals == [Interval(0, 3), Interval(5, 10)];
    var l6 := Inserted(l5, Interval(11, 12));
    assert l6.intervals == [Interval(0, 3), Interval(5, 12)];
  }

  /** The fourteen sample sensors with their closest beacons. */
  function SampleCircles(): seq<Circle>
  {
    [ Circle(Point(2, 18), Point(-2, 15)), Circle(Point(9, 16), Point(10, 16)),
      Circle(Point(13, 2), Point(15, 3)), Circle(Point(12, 14), Point(10, 16)),
      Circle(Point(10, 20), Point(10, 16)), Circle(Point(14, 17), Point(10, 16)),
      Circle(Point(8, 7), Point(2, 10)), Circle(Point(2, 0), Point(2, 10)),
      Circle(Point(0, 11), Point(2, 10)), Circle(Point(20, 14), Point(25, 17)),
      Circle(Point(17, 20), Point(21, 22)), Circle(Point(16, 7), Point(15, 3)),
      Circle(Point(14, 3), Point(15, 3)), Circle(Point(20, 1), Point(15, 3)) ]
  }

  lemma SampleCircleExtent(j: int)
    requires 0 <= j < |SampleCircles()|
    ensures -8 <= MinX(SampleCircles()[j]) && MaxX(SampleCircles()[j]) <= 28
  {
  }

  /** The sample field spans x from -8 to 28. */
  lemma SampleEdges()
    ensures LeftEdge(SampleCircles()) == -8 && RightEdge(SampleCircles()) == 28
  {
    var cs := SampleCircles();
    EdgesBound(cs);
    assert MinX(cs[7]) == -8 && MaxX(cs[9]) == 28;
    forall c | c in cs
      ensures -8 <= MinX(c) && MaxX(c) <= 28
    {
      var j :| 0 <= j < |cs| && cs[j] == c;
      SampleCircleExtent(j);
    }
  }
}
