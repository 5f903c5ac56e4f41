/** Day 14: regolith reservoir. Rock paths are drawn into a sparse grid;
    grains of sand enter at (500, 0) one at a time, fall straight down,
    else down-left, else down-right, and settle when all three are taken.
    Part 1 counts the grains that settle before one falls below the lowest
    rock; part 2 adds a solid floor and counts grains until the source
    itself is covered. */
module RegolithReservoir {
  import opened Wrappers

  datatype Square = Sand | Rock

  /** x grows to the right, y grows downwards. */
  datatype Position = Position(x: int, y: nat)

  /** The content of the grid: occupied cells, the floor row, and whether
      the floor row is solid. */
  datatype Cave = Cave(content: map<Position, Square>, floor: nat, infiniteFloor: bool)

  datatype MoveResult = Moved(to: Position) | AtRest(at: Position) | FellDown

  const Source := Position(500, 0)

  /** What occupies a cell: with a solid floor every cell of the floor row
      is rock, otherwise the cell's recorded content if any. */
  function GetContent(c: Cave, p: Position): (r: Option<Square>)
    ensures c.infiniteFloor && p.y == c.floor ==> r == Some(Rock)
    ensures !(c.infiniteFloor && p.y == c.floor) ==> (r.Some? <==> p in c.content)
    ensures r.Some? && p in c.content && !(c.infiniteFloor && p.y == c.floor) ==> r.value == c.content[p]
  {
    if c.infiniteFloor && p.y == c.floor then Some(Rock)
    else if p in c.content then Some(c.content[p])
    else None
  }

  /** The three cells a grain tries, in order: down, down-left, down-right. */
  function Below(p: Position): (r: seq<Position>)
    ensures |r| == 3
    ensures forall i :: 0 <= i < 3 ==> r[i].y == p.y + 1 && -1 <= r[i].x - p.x <= 1
  {
    [Position(p.x, p.y + 1), Position(p.x - 1, p.y + 1), Position(p.x + 1, p.y + 1)]
  }

  predicate Free(c: Cave, p: Position)
  {
    GetContent(c, p).None?
  }

  /** One step of a grain at p. */
  function MoveSandOnce(c: Cave, p: Position): (r: MoveResult)
    ensures r.FellDown? <==> p.y + 1 > c.floor
    ensures r.AtRest? <==> p.y + 1 <= c.floor && forall i :: 0 <= i < 3 ==> !Free(c, Below(p)[i])
    ensures r.AtRest? ==> r.at == p
    ensures r.Moved? ==> exists i :: 0 <= i < 3 && r.to == Below(p)[i] && Free(c, r.to) && forall j :: 0 <= j < i ==> !Free(c, Below(p)[j])
  {
    if p.y + 1 > c.floor then FellDown
    else
      var b := Below(p);
      if Free(c, b[0]) then Moved(b[0])
      else if Free(c, b[1]) then Moved(b[1])
      else if Free(c, b[2]) then Moved(b[2])
      else AtRest(p)
  }

  /** Where a grain released at p ends up: it keeps moving until it rests or
      falls past the floor. */
  function Settle(c: Cave, p: Position): (r: MoveResult)
    ensures !r.Moved?
    decreases c.floor - p.y
  {
    match MoveSandOnce(c, p)
    case Moved(q) => Settle(c, q)
    case other => other
  }

  /** The cells a grain released at p can reach: one column either way per
      row descended, down to the floor. */
  function Cone(p: Position, floor: nat): set<Position>
  {
    set x: int, y: nat | p.y <= y <= floor && p.x - (y - p.y) <= x <= p.x + (y - p.y) :: Position(x, y)
  }

  /** A grain rests inside its cone, above the floor, and either where it
      was released or on a cell that was free. */
  lemma {:induction false} SettleLands(c: Cave, p: Position)
    ensures Settle(c, p).AtRest? ==>
      var q := Settle(c, p).at;
      q in Cone(p, c.floor) && q.y < c.floor && (q == p || Free(c, q))
    decreases c.floor - p.y
  {
    var m := MoveSandOnce(c, p);
    if m.Moved? {
      var q := m.to;
      SettleLands(c, q);
      var e := Settle(c, q);
      if e.AtRest? {
        var r := e.at;
        assert r in Cone(q, c.floor) && r.y < c.floor;
        assert q.y == p.y + 1 && -1 <= q.x - p.x <= 1;
        assert r in Cone(p, c.floor);
        if r != q {
          assert Free(c, r);
        }
      }
    } else if m.AtRest? {
      assert p in Cone(p, c.floor);
    }
  }

  /** The cave after one grain released at `start`: sand is recorded where
      it rests, and nothing changes when it falls out. */
  function PlaceGrain(c: Cave, start: Position): (r: Cave)
    ensures r.floor == c.floor && r.infiniteFloor == c.infiniteFloor
    ensures Settle(c, start).AtRest? ==> r.content == c.content[Settle(c, start).at := Sand]
    ensures Settle(c, start).FellDown? ==> r == c
  {
    match Settle(c, start)
    case AtRest(q) => c.(content := c.content[q := Sand])
    case _ => c
  }

  /** The cave after n grains. */
  function Pour(c: Cave, start: Position, n: nat): (r: Cave)
    ensures r.floor == c.floor && r.infiniteFloor == c.infiniteFloor
  {
    if n == 0 then c else PlaceGrain(Pour(c, start, n - 1), start)
  }

  /** How grain number k (from 0) ends. */
  function GrainEnd(c: Cave, start: Position, k: nat): MoveResult
  {
    Settle(Pour(c, start, k), start)
  }

  /** A grain resting on the source leaves every later grain resting there
      too, and the cave no longer changes: the part-1 loop, which only stops
      when a grain falls out, never ends from then on. */
  lemma {:induction false} SourceBlockedForever(c: Cave, n: nat)
    requires Settle(c, Source) == AtRest(Source)
    ensures GrainEnd(c, Source, n) == AtRest(Source)
    ensures Pour(c, Source, n + 1) == PlaceGrain(c, Source)
  {
    SourceBlockedStays(c);
    if n > 0 {
      SourceBlockedForever(c, n - 1);
    }
  }

  /** Resting on the source means the three cells below it are taken; adding
      sand at the source does not free them. */
  lemma SourceBlockedStays(c: Cave)
    requires Settle(c, Source) == AtRest(Source)
    ensures Settle(PlaceGrain(c, Source), Source) == AtRest(Source)
    ensures PlaceGrain(PlaceGrain(c, Source), Source) == PlaceGrain(c, Source)
  {
    var m := MoveSandOnce(c, Source);
    if m.Moved? {
      SettleLands(c, m.to);
      assert false;
    }
    var c1 := PlaceGrain(c, Source);
    assert c1.content == c.content[Source := Sand];
    forall i | 0 <= i < 3
      ensures !Free(c1, Below(Source)[i])
    {
      assert !Free(c, Below(Source)[i]);
    }
    assert MoveSandOnce(c1, Source) == AtRest(Source);
    assert c1.content[Source := Sand] == c1.content;
  }

  /** The single rock path `499,1 -> 501,1`: three rock cells right under
      the source, lowest row 1. */
  function BlockedCave(): Cave
  {
    Cave(map[Position(499, 1) := Rock, Position(500, 1) := Rock, Position(501, 1) := Rock], 1, false)
  }

  /** That path draws exactly the cave above, the first grain rests on the
      source, and so does every later one: the part-1 loop never ends on
      this input. */
  lemma BlockedSourceExample(n: nat)
    ensures RockCells([[Position(499, 1), Position(501, 1)]]) == BlockedCave().content.Keys
    ensures IsMaxRow(BlockedCave().content.Keys, BlockedCave().floor)
    ensures Settle(BlockedCave(), Source) == AtRest(Source)
    ensures GrainEnd(BlockedCave(), Source, n) == AtRest(Source)
  {
    var path := [Position(499, 1), Position(501, 1)];
    var paths := [path];
    var cells := {Position(499, 1), Position(500, 1), Position(501, 1)};
    assert path[..1] == [Position(499, 1)];
    forall q | q in Box(path[0], path[1])
      ensures q in cells
    {
      assert q.y == 1 && 499 <= q.x <= 501;
    }
    assert Position(500, 1) in Box(path[0], path[1]);
    assert PathCells(path) == cells;
    assert paths[..0] == [];
    assert RockCells(paths) == cells;
    assert BlockedCave().content.Keys == cells;
    assert Position(500, 1) in cells;
    var c := BlockedCave();
    assert !Free(c, Below(Source)[0]) && !Free(c, Below(Source)[1]) && !Free(c, Below(Source)[2]);
    assert MoveSandOnce(c, Source) == AtRest(Source);
    SourceBlockedForever(c, n);
  }

  /** A grain that rests away from where it was released occupies one new
      cell; nothing else in the grid changes. */
  lemma GrainAddsOneCell(c: Cave, start: Position)
    requires Settle(c, start).AtRest? && Settle(c, start).at != start
    ensures PlaceGrain(c, start).content.Keys == c.content.Keys + {Settle(c, start).at}
    ensures Settle(c, start).at !in c.content
    ensures |PlaceGrain(c, start).content| == |c.content| + 1
  {
    SettleLands(c, start);
  }

  // ---------------------------------------------------------------------
  // Rock paths

  function Min(a: int, b: int): int { if a <= b then a else b }
  function Max(a: int, b: int): int { if a <= b then b else a }

  /** Every cell of the box spanned by two path points; for the axis-aligned
      segments of the puzzle this is the segment itself, ends included. */
  function Box(a: Position, b: Position): (r: set<Position>)
    ensures a in r && b in r
  {
    var r := set x: int, y: nat | Min(a.x, b.x) <= x <= Max(a.x, b.x) && Min(a.y, b.y) <= y <= Max(a.y, b.y) :: Position(x, y);
    assert Position(a.x, a.y) in r;
    assert Position(b.x, b.y) in r;
    r
  }

  /** The cells of one rock path. */
  function PathCells(path: seq<Position>): set<Position>
  {
    if path == [] then {}
    else if |path| == 1 then {path[0]}
    else PathCells(path[..|path| - 1]) + Box(path[|path| - 2], path[|path| - 1])
  }

  /** The cells of all rock paths. */
  function RockCells(paths: seq<seq<Position>>): set<Position>
  {
    if paths == [] then {} else RockCells(paths[..|paths| - 1]) + PathCells(paths[|paths| - 1])
  }

  predicate AllRock(content: map<Position, Square>)
  {
    forall p :: p in content ==> content[p] == Rock
  }

  /** Rows ly..hy of the columns lx .. cx - 1. */
  function Columns(lx: int, cx: int, ly: nat, hy: nat): set<Position>
  {
    set x: int, y: nat | lx <= x < cx && ly <= y <= hy :: Position(x, y)
  }

  /** Rows ly .. cy - 1 of column x. */
  function Column(x: int, ly: nat, cy: nat): set<Position>
  {
    set y: nat | ly <= y < cy :: Position(x, y)
  }

  lemma ColumnNext(x: int, ly: nat, cy: nat)
    requires ly <= cy
    ensures Column(x, ly, cy + 1) == Column(x, ly, cy) + {Position(x, cy)}
  {
  }

  lemma ColumnsNext(lx: int, cx: int, ly: nat, hy: nat)
    requires lx <= cx
    ensures Columns(lx, cx + 1, ly, hy) == Columns(lx, cx, ly, hy) + Column(cx, ly, hy + 1)
  {
    var a := Columns(lx, cx + 1, ly, hy);
    var b := Columns(lx, cx, ly, hy) + Column(cx, ly, hy + 1);
    forall p | p in a ensures p in b {
      if p.x < cx {
        assert p in Columns(lx, cx, ly, hy);
      } else {
        assert p in Column(cx, ly, hy + 1);
      }
    }
  }

  lemma ColumnsDone(a: Position, b: Position)
    ensures Columns(Min(a.x, b.x), Max(a.x, b.x) + 1, Min(a.y, b.y), Max(a.y, b.y)) == Box(a, b)
  {
  }

  /** Draws rock on rows ly..hy of column x. */
  method FillColumn(content: map<Position, Square>, x: int, ly: nat, hy: nat) returns (r: map<Position, Square>)
    requires AllRock(content) && ly <= hy + 1
    ensures AllRock(r)
    ensures r.Keys == content.Keys + Column(x, ly, hy + 1)
  {
    r := content;
    var y := ly;
    while y <= hy
      invariant ly <= y <= hy + 1
      invariant AllRock(r)
      invariant r.Keys == content.Keys + Column(x, ly, y)
    {
      ColumnNext(x, ly, y);
      r := r[Position(x, y) := Rock];
      y := y + 1;
    }
  }

  /** Draws rock on every cell of the box between two path points, column
      by column. */
  method FillSegment(content: map<Position, Square>, a: Position, b: Position) returns (r: map<Position, Square>)
    requires AllRock(content)
    ensures AllRock(r)
    ensures r.Keys == content.Keys + Box(a, b)
  {
    var lx, hx := Min(a.x, b.x), Max(a.x, b.x);
    var ly, hy := Min(a.y, b.y), Max(a.y, b.y);
    r := content;
    var x := lx;
    while x <= hx
      invariant lx <= x <= hx + 1
      invariant AllRock(r)
      invariant r.Keys == content.Keys + Columns(lx, x, ly, hy)
    {
      ColumnsNext(lx, x, ly, hy);
      r := FillColumn(r, x, ly, hy);
      x := x + 1;
    }
    ColumnsDone(a, b);
  }

  /** Draws one rock path: its first point, then each segment in turn. */
  method DrawPath(content: map<Position, Square>, path: seq<Position>) returns (r: map<Position, Square>)
    requires AllRock(content)
    ensures AllRock(r)
    ensures r.Keys == content.Keys + PathCells(path)
  {
    r := content;
    if path == [] {
      return;
    }
    var current := path[0];
    r := r[current := Rock];
    assert path[..1] == [path[0]];
    var j := 1;
    while j < |path|
      invariant 1 <= j <= |path|
      invariant current == path[j - 1]
      invariant AllRock(r)
      invariant r.Keys == content.Keys + PathCells(path[..j])
    {
      var next := path[j];
      r := FillSegment(r, current, next);
      assert path[..j + 1][..j] == path[..j];
      current := next;
      j := j + 1;
    }
    assert path[..j] == path;
  }

  /** The deepest row among the cells, the lowest rock. */
  ghost predicate IsMaxRow(cells: set<Position>, m: nat)
  {
    (exists p :: p in cells && p.y == m) && forall p :: p in cells ==> p.y <= m
  }

  method MaxRow(cells: set<Position>) returns (m: Option<nat>)
    ensures m.None? <==> cells == {}
    ensures m.Some? ==> IsMaxRow(cells, m.value)
  {
    if cells == {} {
      return None;
    }
    var first :| first in cells;
    var best := first.y;
    var todo := cells - {first};
    ghost var seen := {first};
    while todo != {}
      invariant todo + seen == cells && seen != {}
      invariant (exists p :: p in seen && p.y == best) && forall p :: p in seen ==> p.y <= best
      decreases |todo|
    {
      var p :| p in todo;
      if p.y > best {
        best := p.y;
      }
      todo := todo - {p};
      seen := seen + {p};
    }
    return Some(best);
  }

  /** The sparse grid of the puzzle. */
  class Grid {
    var content: map<Position, Square>
    var floor: nat
    var infiniteFloor: bool

    function State(): Cave
      reads this
    {
      Cave(content, floor, infiniteFloor)
    }

    constructor(content: map<Position, Square>, floor: nat)
      ensures State() == Cave(content, floor, false)
    {
      this.content := content;
      this.floor := floor;
      this.infiniteFloor := false;
    }

    /** Part 2 puts a solid floor two rows below the lowest rock. */
    method AddFloor()
      modifies this
      ensures State() == Cave(old(content), old(floor) + 2, true)
    {
      floor := floor + 2;
      infiniteFloor := true;
    }

    /** Releases one grain at `start`, follows it until it stops, and records
        it where it rests. */
    method MoveSand(start: Position) returns (r: MoveResult)
      modifies this
      ensures r == Settle(old(State()), start)
      ensures State() == PlaceGrain(old(State()), start)
    {
      r := MoveSandOnce(State(), start);
      while r.Moved?
        invariant State() == old(State())
        invariant Settle(State(), start) == (if r.Moved? then Settle(State(), r.to) else r)
        invariant r.Moved? ==> r.to.y <= floor
        decreases if r.Moved? then floor - r.to.y + 1 else 0
      {
        r := MoveSandOnce(State(), r.to);
      }
      if r.AtRest? {
        content := content[r.at := Sand];
      }
    }

    /** Pours grains from the source, counting those that come to rest,
        until one falls out or one rests on the source itself. */
    method FillWithSand() returns (count: nat)
      modifies this
      ensures FillStops(old(State()), count)
      ensures State() == Pour(old(State()), Source, count)
    {
      ghost var c0 := State();
      ghost var cone := Cone(Source, floor);
      count := 0;
      SettleLands(State(), Source);
      var r := MoveSand(Source);
      while r.AtRest?
        invariant State() == Pour(c0, Source, count + 1)
        invariant r == GrainEnd(c0, Source, count)
        invariant RestedOffSource(c0, count)
        invariant r.AtRest? ==> r.at in cone && r.at in content
        decreases |cone - content.Keys|, if r.AtRest? && r.at != Source then 1 else 0
      {
        RestedStep(c0, count);
        count := count + 1;
        if r.at == Source {
          return;
        }
        ghost var before := content.Keys;
        SettleLands(State(), Source);
        r := MoveSand(Source);
        if r.AtRest? {
          assert r.at in content;
          if r.at != Source {
            assert r.at !in before;
            assert cone - content.Keys < cone - before;
          }
        }
        CardSubset(cone - content.Keys, cone - before);
      }
    }

    /** Part 1, with the loop stopped where the source cell is covered: the
        count of grains at rest when one falls out, or, when a grain comes
        to rest on the source, the count including it. */
    method DropSand() returns (r: DropOutcome)
      modifies this
      ensures r.Spilled? ==> RestedOffSource(old(State()), r.count) && GrainEnd(old(State()), Source, r.count).FellDown?
      ensures r.SourceBlocked? ==> (r.count >= 1 && RestedOffSource(old(State()), r.count - 1)
        && GrainEnd(old(State()), Source, r.count - 1) == AtRest(Source))
      ensures State() == Pour(old(State()), Source, r.count)
    {
      ghost var c0 := State();
      ghost var cone := Cone(Source, floor);
      var count := 0;
      SettleLands(State(), Source);
      var m := MoveSand(Source);
      while m.AtRest? && m.at != Source
        invariant State() == Pour(c0, Source, count + 1)
        invariant m == GrainEnd(c0, Source, count)
        invariant RestedOffSource(c0, count)
        invariant m.AtRest? ==> m.at in cone && m.at in content
        decreases |cone - content.Keys|, if m.AtRest? && m.at != Source then 1 else 0
      {
        RestedStep(c0, count);
        count := count + 1;
        ghost var before := content.Keys;
        SettleLands(State(), Source);
        m := MoveSand(Source);
        if m.AtRest? {
          assert m.at in content;
          if m.at != Source {
            assert m.at !in before;
            assert cone - content.Keys < cone - before;
          }
        }
        CardSubset(cone - content.Keys, cone - before);
      }
      if m.AtRest? {
        r := SourceBlocked(count + 1);
      } else {
        r := Spilled(count);
      }
    }
  }

  /** The first n grains all came to rest, none of them on the source. */
  ghost predicate RestedOffSource(c: Cave, n: nat)
  {
    forall k :: 0 <= k < n ==> GrainEnd(c, Source, k).AtRest? && GrainEnd(c, Source, k) != AtRest(Source)
  }

  /** How the part-2 count ends: the last counted grain rests on the
      source, or the grain after the counted ones falls out; every grain
      before that rests elsewhere. */
  ghost predicate FillStops(c: Cave, count: nat)
  {
    (count > 0 && RestedOffSource(c, count - 1) && GrainEnd(c, Source, count - 1) == AtRest(Source))
    || (RestedOffSource(c, count) && GrainEnd(c, Source, count).FellDown?)
  }

  lemma RestedStep(c: Cave, n: nat)
    requires RestedOffSource(c, n)
    ensures GrainEnd(c, Source, n).AtRest? && GrainEnd(c, Source, n) != AtRest(Source) ==> RestedOffSource(c, n + 1)
  {
  }

  datatype DropOutcome = Spilled(count: nat) | SourceBlocked(count: nat)

  lemma CardSubset<T>(a: set<T>, b: set<T>)
    requires a <= b
    ensures |a| <= |b|
    ensures a < b ==> |a| < |b|
  {
    assert b == a + (b - a);
    assert |b| == |a| + |b - a|;
  }

  /** Builds the grid from the rock paths (already split into points): all
      their cells are rock and the floor is the lowest rock row. Without any
      rock there is no lowest row, which the source treats as fatal. */
  method Parse(paths: seq<seq<Position>>) returns (g: Option<Grid>)
    ensures g.None? <==> RockCells(paths) == {}
    ensures g.Some? ==> (fresh(g.value) && g.value.content.Keys == RockCells(paths) && AllRock(g.value.content)
      && IsMaxRow(RockCells(paths), g.value.floor) && !g.value.infiniteFloor)
  {
    var content: map<Position, Square> := map[];
    for i := 0 to |paths|
      invariant AllRock(content)
      invariant content.Keys == RockCells(paths[..i])
    {
      content := DrawPath(content, paths[i]);
      assert paths[..i + 1][..i] == paths[..i];
    }
    assert paths[..|paths|] == paths;
    var floor := MaxRow(content.Keys);
    if floor.None? {
      return None;
    }
    var grid := new Grid(content, floor.value);
    return Some(grid);
  }

  /** The two sample rock paths. */
  function SamplePaths(): seq<seq<Position>>
  {
    [ [Position(498, 4), Position(498, 6), Position(496, 6)],
      [Position(503, 4), Position(502, 4), Position(502, 9), Position(494, 9)] ]
  }

  function SampleFirst(): set<Position>
  {
    {Position(498, 4), Position(498, 5), Position(498, 6), Position(497, 6), Position(496, 6)}
  }

  function SampleSecond(): set<Position>
  {
    {Position(503, 4), Position(502, 4), Position(502, 5), Position(502, 6), Position(502, 7),
     Position(502, 8), Position(502, 9), Position(501, 9), Position(500, 9), Position(499, 9),
     Position(498, 9), Position(497, 9), Position(496, 9), Position(495, 9), Position(494, 9)}
  }

  lemma SampleFirstPath()
    ensures PathCells(SamplePaths()[0]) == SampleFirst()
  {
    var p := SamplePaths()[0];
    assert p[..2][..1] == [p[0]];
    assert Box(p[0], p[1]) == {Position(498, 4), Position(498, 5), Position(498, 6)};
    assert Box(p[1], p[2]) == {Position(498, 6), Position(497, 6), Position(496, 6)};
    assert p[..2] == [p[0], p[1]];
  }

  lemma SampleSecondBoxes()
    ensures var p := SamplePaths()[1];
      Box(p[0], p[1]) + Box(p[1], p[2]) + Box(p[2], p[3]) == SampleSecond()
  {
    var p := SamplePaths()[1];
    assert Box(p[0], p[1]) == {Position(503, 4), Position(502, 4)};
    assert Box(p[1], p[2]) == {Position(502, 4), Position(502, 5), Position(502, 6), Position(502, 7), Position(502, 8), Position(502, 9)};
    var row := Box(p[2], p[3]);
    forall q | q in row
      ensures q in SampleSecond()
    {
      assert q.y == 9 && 494 <= q.x <= 502;
    }
    assert SampleSecond() - {Position(503, 4), Position(502, 4), Position(502, 5), Position(502, 6), Position(502, 7), Position(502, 8)} <= row;
  }

  lemma SampleSecondPath()
    ensures PathCells(SamplePaths()[1]) == SampleSecond()
  {
    var p := SamplePaths()[1];
    assert p[..3][..2][..1] == [p[0]];
    assert p[..3][..2] == [p[0], p[1]];
    assert p[..3] == [p[0], p[1], p[2]];
    assert PathCells([p[0], p[1]]) == Box(p[0], p[1]);
    assert PathCells([p[0], p[1], p[2]]) == Box(p[0], p[1]) + Box(p[1], p[2]);
    assert PathCells(p) == PathCells(p[..3]) + Box(p[2], p[3]);
    SampleSecondBoxes();
  }

  /** The sample draws exactly the 20 rock cells the puzzle lists, and its
      lowest rock row is 9. */
  lemma SampleRocks()
    ensures RockCells(SamplePaths()) == SampleFirst() + SampleSecond()
    ensures IsMaxRow(RockCells(SamplePaths()), 9)
  {
    var ps := SamplePaths();
    SampleFirstPath();
    SampleSecondPath();
    assert ps[..1][..0] == [];
    assert ps[..1] == [ps[0]];
    assert RockCells(ps) == SampleFirst() + SampleSecond();
    SampleLowestRow();
  }

  lemma SampleLowestRow()
    ensures IsMaxRow(SampleFirst() + SampleSecond(), 9)
  {
    forall q | q in SampleFirst()
      ensures q.y <= 6
    {
    }
    forall q | q in SampleSecond()
      ensures q.y <= 9
    {
    }
    assert Position(502, 9) in SampleSecond();
  }
}
