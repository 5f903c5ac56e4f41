/** Day 12: hill climbing. A height map is turned into a directed graph
    whose edges join adjacent squares the climber may step between; a
    Dijkstra search with unit edge weights then finds the fewest steps from
    any start square to any goal square. */
module HillClimbing {
  import opened Wrappers

  datatype Position = Position(row: nat, col: nat)

  /** Row-major order on positions. */
  predicate PosLess(a: Position, b: Position)
  {
    a.row < b.row || (a.row == b.row && a.col < b.col)
  }

  /** A square of the map: its elevation and whether it is the start (`S`)
      or the goal (`E`). */
  datatype Square = Square(elevation: char, isStart: bool, isGoal: bool)

  /** Decodes one character of the map; any character other than `S`, `E`
      or a lower-case letter is the fatal error of the program, here
      `None`. */
  function SquareFromChar(c: char): (r: Option<Square>)
    ensures r.Some? <==> c == 'S' || c == 'E' || 'a' <= c <= 'z'
    ensures r.Some? ==> 'a' <= r.value.elevation <= 'z'
    ensures r.Some? ==> (r.value.isStart <==> c == 'S') && (r.value.isGoal <==> c == 'E')
    ensures r.Some? && 'a' <= c <= 'z' ==> r.value.elevation == c
    ensures c == 'S' ==> r.value.elevation == 'a'
    ensures c == 'E' ==> r.value.elevation == 'z'
  {
    if c == 'S' then Some(Square('a', true, false))
    else if c == 'E' then Some(Square('z', false, true))
    else if 'a' <= c <= 'z' then Some(Square(c, false, false))
    else None
  }

  /** Climbing up (first part) allows a step at most one higher; climbing
      down from the goal (second part) allows a step at most one lower. */
  datatype Climb = Up | Down

  function CanMove(mode: Climb, current: Square, destination: Square): bool
  {
    match mode
    case Up => destination.elevation as int - current.elevation as int <= 1
    case Down => current.elevation as int - destination.elevation as int <= 1
  }

  /** Descending is climbing the same step the other way. */
  lemma CanMoveDownIsReversedUp(a: Square, b: Square)
    ensures CanMove(Down, a, b) == CanMove(Up, b, a)
    ensures CanMove(Up, a, b) <==> b.elevation as int <= a.elevation as int + 1
  {
  }

  datatype Direction = North | South | East | West

  /** The order in which neighbours are tried. */
  const Directions: seq<Direction> := [North, South, East, West]

  predicate Adjacent(p: Position, q: Position)
  {
    (p.row == q.row && (p.col + 1 == q.col || q.col + 1 == p.col))
    || (p.col == q.col && (p.row + 1 == q.row || q.row + 1 == p.row))
  }

  /** The adjacent position in direction d, or `None` when that would leave
      the rows 0..maxRow or the columns 0..maxCol. */
  function MovePos(d: Direction, p: Position, maxRow: nat, maxCol: nat): (r: Option<Position>)
    ensures r.None? <==> ((d == North && p.row == 0) || (d == South && p.row == maxRow)
                       || (d == East && p.col == maxCol) || (d == West && p.col == 0))
    ensures r.Some? ==> Adjacent(p, r.value)
    ensures r.Some? && p.row <= maxRow && p.col <= maxCol ==> r.value.row <= maxRow && r.value.col <= maxCol
  {
    match d
    case North => if p.row == 0 then None else Some(Position(p.row - 1, p.col))
    case South => if p.row == maxRow then None else Some(Position(p.row + 1, p.col))
    case East => if p.col == maxCol then None else Some(Position(p.row, p.col + 1))
    case West => if p.col == 0 then None else Some(Position(p.row, p.col - 1))
  }

  type Grid = seq<seq<Square>>

  predicate Rectangular(grid: Grid)
  {
    forall r :: 0 <= r < |grid| ==> |grid[r]| == |grid[0]|
  }

  predicate InGrid(grid: Grid, p: Position)
  {
    p.row < |grid| && p.col < |grid[p.row]|
  }

  function Cell(grid: Grid, p: Position): Square
    requires InGrid(grid, p)
  {
    grid[p.row][p.col]
  }

  /** The neighbour in direction d if the climber may step there. */
  function Step(grid: Grid, mode: Climb, p: Position, d: Direction): (r: seq<Position>)
    requires Rectangular(grid) && InGrid(grid, p)
    ensures |r| <= 1
    ensures forall q :: q in r ==> InGrid(grid, q) && Adjacent(p, q) && CanMove(mode, Cell(grid, p), Cell(grid, q))
  {
    match MovePos(d, p, |grid| - 1, |grid[p.row]| - 1)
    case None => []
    case Some(q) => if CanMove(mode, Cell(grid, p), Cell(grid, q)) then [q] else []
  }

  function StepsUpTo(grid: Grid, mode: Climb, p: Position, k: nat): seq<Position>
    requires Rectangular(grid) && InGrid(grid, p) && k <= 4
  {
    if k == 0 then [] else StepsUpTo(grid, mode, p, k - 1) + Step(grid, mode, p, Directions[k - 1])
  }

  /** The neighbours of p in the graph, tried north, south, east, west. */
  function NeighborsOf(grid: Grid, mode: Climb, p: Position): seq<Position>
    requires Rectangular(grid) && InGrid(grid, p)
  {
    Step(grid, mode, p, North) + Step(grid, mode, p, South) + Step(grid, mode, p, East) + Step(grid, mode, p, West)
  }

  lemma StepsUpToAll(grid: Grid, mode: Climb, p: Position)
    requires Rectangular(grid) && InGrid(grid, p)
    ensures StepsUpTo(grid, mode, p, 4) == NeighborsOf(grid, mode, p)
  {
    assert Directions[0] == North && Directions[1] == South && Directions[2] == East && Directions[3] == West;
    assert StepsUpTo(grid, mode, p, 1) == Step(grid, mode, p, North);
    assert StepsUpTo(grid, mode, p, 2) == StepsUpTo(grid, mode, p, 1) + Step(grid, mode, p, South);
    assert StepsUpTo(grid, mode, p, 3) == StepsUpTo(grid, mode, p, 2) + Step(grid, mode, p, East);
  }

  /** q is a neighbour of p exactly when it is an adjacent square of the
      map the climber may step to; there are at most four. */
  lemma NeighborsOfSpec(grid: Grid, mode: Climb, p: Position, q: Position)
    requires Rectangular(grid) && InGrid(grid, p)
    ensures |NeighborsOf(grid, mode, p)| <= 4
    ensures q in NeighborsOf(grid, mode, p) <==>
      InGrid(grid, q) && Adjacent(p, q) && CanMove(mode, Cell(grid, p), Cell(grid, q))
  {
    if InGrid(grid, q) && Adjacent(p, q) && CanMove(mode, Cell(grid, p), Cell(grid, q)) {
      if q.row + 1 == p.row {
        assert q in Step(grid, mode, p, North);
      } else if p.row + 1 == q.row {
        assert q in Step(grid, mode, p, South);
      } else if p.col + 1 == q.col {
        assert q in Step(grid, mode, p, East);
      } else {
        assert q in Step(grid, mode, p, West);
      }
    }
  }

  datatype Dist = Inf | Fin(n: nat)

  /** A node of the graph: search state, the square it stands for and its
      neighbours. */
  datatype GraphNode = GraphNode(visited: bool, dist: Dist, position: Position,
                                 elevation: char, isGoal: bool, isStart: bool,
                                 neighbors: seq<Position>)

  function FreshNode(grid: Grid, p: Position, neighbors: seq<Position>): GraphNode
    requires InGrid(grid, p)
  {
    var s := Cell(grid, p);
    GraphNode(false, Inf, p, s.elevation, s.isGoal, s.isStart, neighbors)
  }

  /** The neighbour list of p once cells up to `cur` (and the first k
      directions of `cur`) have been processed. */
  function Expected(grid: Grid, mode: Climb, p: Position, cur: Position, k: nat): seq<Position>
    requires Rectangular(grid) && InGrid(grid, p) && k <= 4
  {
    if PosLess(p, cur) then NeighborsOf(grid, mode, p)
    else if p == cur then StepsUpTo(grid, mode, p, k)
    else []
  }

  /** Node x of a partly built graph is as `CreateGraph` left it. */
  predicate NodeSoFar(grid: Grid, mode: Climb, nodes: map<Position, GraphNode>, x: Position, cur: Position, k: nat)
    requires Rectangular(grid) && k <= 4 && x in nodes
  {
    InGrid(grid, x) && nodes[x] == FreshNode(grid, x, Expected(grid, mode, x, cur, k))
  }

  ghost predicate GraphSoFar(grid: Grid, mode: Climb, nodes: map<Position, GraphNode>, cur: Position, k: nat)
    requires Rectangular(grid) && k <= 4
  {
    && (forall x {:trigger NodeSoFar(grid, mode, nodes, x, cur, k)} :: x in nodes ==> NodeSoFar(grid, mode, nodes, x, cur, k))
    && (forall x :: InGrid(grid, x) && PosLess(x, cur) ==> x in nodes)
  }

  /** Builds the graph: one node per square, and an edge from each square
      to each adjacent square the climber may step to. */
  method CreateGraph(grid: Grid, mode: Climb) returns (nodes: map<Position, GraphNode>)
    requires Rectangular(grid)
    ensures forall p :: p in nodes <==> InGrid(grid, p)
    ensures forall p :: p in nodes ==> nodes[p] == FreshNode(grid, p, NeighborsOf(grid, mode, p))
  {
    nodes := map[];
    var row := 0;
    while row < |grid|
      invariant 0 <= row <= |grid|
      invariant GraphSoFar(grid, mode, nodes, Position(row, 0), 0)
    {
      nodes := LinkRow(grid, mode, nodes, row);
      NextRow(grid, mode, nodes, row);
      row := row + 1;
    }
    forall x | x in nodes
      ensures InGrid(grid, x) && nodes[x] == FreshNode(grid, x, NeighborsOf(grid, mode, x))
    {
      assert NodeSoFar(grid, mode, nodes, x, Position(|grid|, 0), 0);
    }
  }

  /** The middle loop of `CreateGraph`: every square of one row in turn. */
  method LinkRow(grid: Grid, mode: Climb, nodes: map<Position, GraphNode>, row: nat)
    returns (nodes': map<Position, GraphNode>)
    requires Rectangular(grid) && row < |grid|
    requires GraphSoFar(grid, mode, nodes, Position(row, 0), 0)
    ensures GraphSoFar(grid, mode, nodes', Position(row, |grid[row]|), 0)
  {
    nodes' := nodes;
    var col := 0;
    while col < |grid[row]|
      invariant 0 <= col <= |grid[row]|
      invariant GraphSoFar(grid, mode, nodes', Position(row, col), 0)
    {
      var p := Position(row, col);
      nodes' := LinkSquare(grid, mode, nodes', p);
      NextCell(grid, mode, nodes', p);
      col := col + 1;
    }
  }

  /** The inner loop of `CreateGraph`: the four directions from p. */
  method LinkSquare(grid: Grid, mode: Climb, nodes: map<Position, GraphNode>, p: Position)
    returns (nodes': map<Position, GraphNode>)
    requires Rectangular(grid) && InGrid(grid, p)
    requires GraphSoFar(grid, mode, nodes, p, 0)
    ensures GraphSoFar(grid, mode, nodes', p, 4) && p in nodes'
  {
    nodes' := nodes;
    if p !in nodes' {
      AddFresh(grid, mode, nodes', p, p, 0);
      nodes' := nodes'[p := FreshNode(grid, p, [])];
    }
    var k := 0;
    while k < 4
      invariant 0 <= k <= 4 && p in nodes'
      invariant GraphSoFar(grid, mode, nodes', p, k)
    {
      nodes' := LinkDirection(grid, mode, nodes', p, k);
      k := k + 1;
    }
  }

  /** One direction of the inner loop of `CreateGraph`: if the climber may
      step from p in direction k, the square there becomes a neighbour of p
      (its node is created first when it is new). */
  method LinkDirection(grid: Grid, mode: Climb, nodes: map<Position, GraphNode>, p: Position, k: nat)
    returns (nodes': map<Position, GraphNode>)
    requires Rectangular(grid) && InGrid(grid, p) && k < 4 && p in nodes
    requires GraphSoFar(grid, mode, nodes, p, k)
    ensures GraphSoFar(grid, mode, nodes', p, k + 1) && p in nodes'
  {
    var np := MovePos(Directions[k], p, |grid| - 1, |grid[p.row]| - 1);
    if np.Some? && CanMove(mode, Cell(grid, p), Cell(grid, np.value)) {
      var q := np.value;
      nodes' := nodes;
      if q !in nodes' {
        AddFresh(grid, mode, nodes', q, p, k);
        nodes' := nodes'[q := FreshNode(grid, q, [])];
      }
      AddEdge(grid, mode, nodes', p, k, q);
      nodes' := nodes'[p := nodes'[p].(neighbors := nodes'[p].neighbors + [q])];
    } else {
      assert Step(grid, mode, p, Directions[k]) == [];
      NoEdge(grid, mode, nodes, p, k);
      nodes' := nodes;
    }
  }

  /** A node not yet reached from any processed square starts out with no
      neighbours. */
  lemma AddFresh(grid: Grid, mode: Climb, nodes: map<Position, GraphNode>, q: Position, p: Position, k: nat)
    requires Rectangular(grid) && InGrid(grid, q) && k <= 4 && q !in nodes
    requires !PosLess(q, p) && (q == p ==> k == 0)
    requires GraphSoFar(grid, mode, nodes, p, k)
    ensures GraphSoFar(grid, mode, nodes[q := FreshNode(grid, q, [])], p, k)
  {
    var n1 := nodes[q := FreshNode(grid, q, [])];
    forall x | x in n1
      ensures NodeSoFar(grid, mode, n1, x, p, k)
    {
      if x != q {
        assert NodeSoFar(grid, mode, nodes, x, p, k);
      }
    }
  }

  /** Adding the edge found in direction k extends the neighbour list of p. */
  lemma AddEdge(grid: Grid, mode: Climb, nodes: map<Position, GraphNode>, p: Position, k: nat, q: Position)
    requires Rectangular(grid) && InGrid(grid, p) && k < 4
    requires GraphSoFar(grid, mode, nodes, p, k) && p in nodes
    requires MovePos(Directions[k], p, |grid| - 1, |grid[p.row]| - 1) == Some(q)
    requires CanMove(mode, Cell(grid, p), Cell(grid, q))
    ensures GraphSoFar(grid, mode, nodes[p := nodes[p].(neighbors := nodes[p].neighbors + [q])], p, k + 1)
  {
    assert Step(grid, mode, p, Directions[k]) == [q];
    var n2 := nodes[p := nodes[p].(neighbors := nodes[p].neighbors + [q])];
    assert NodeSoFar(grid, mode, nodes, p, p, k);
    forall x | x in n2
      ensures NodeSoFar(grid, mode, n2, x, p, k + 1)
    {
      if x != p {
        assert NodeSoFar(grid, mode, nodes, x, p, k);
      }
    }
  }

  lemma NoEdge(grid: Grid, mode: Climb, nodes: map<Position, GraphNode>, p: Position, k: nat)
    requires Rectangular(grid) && InGrid(grid, p) && k < 4
    requires GraphSoFar(grid, mode, nodes, p, k) && p in nodes
    requires Step(grid, mode, p, Directions[k]) == []
    ensures GraphSoFar(grid, mode, nodes, p, k + 1)
  {
    assert StepsUpTo(grid, mode, p, k + 1) == StepsUpTo(grid, mode, p, k) + [];
    forall x | x in nodes
      ensures NodeSoFar(grid, mode, nodes, x, p, k + 1)
    {
      assert NodeSoFar(grid, mode, nodes, x, p, k);
    }
  }

  lemma NextCell(grid: Grid, mode: Climb, nodes: map<Position, GraphNode>, p: Position)
    requires Rectangular(grid) && InGrid(grid, p)
    requires GraphSoFar(grid, mode, nodes, p, 4) && p in nodes
    ensures GraphSoFar(grid, mode, nodes, Position(p.row, p.col + 1), 0)
  {
    StepsUpToAll(grid, mode, p);
    var next := Position(p.row, p.col + 1);
    forall q | q in nodes
      ensures NodeSoFar(grid, mode, nodes, q, next, 0)
    {
      assert NodeSoFar(grid, mode, nodes, q, p, 4);
      assert PosLess(q, next) <==> PosLess(q, p) || q == p;
    }
    forall q | InGrid(grid, q) && PosLess(q, next)
      ensures q in nodes
    {
      assert PosLess(q, p) || q == p;
    }
  }

  lemma NextRow(grid: Grid, mode: Climb, nodes: map<Position, GraphNode>, row: nat)
    requires Rectangular(grid) && row < |grid|
    requires GraphSoFar(grid, mode, nodes, Position(row, |grid[row]|), 0)
    ensures GraphSoFar(grid, mode, nodes, Position(row + 1, 0), 0)
  {
    var cur := Position(row, |grid[row]|);
    var next := Position(row + 1, 0);
    forall q | q in nodes
      ensures NodeSoFar(grid, mode, nodes, q, next, 0)
    {
      assert NodeSoFar(grid, mode, nodes, q, cur, 0);
      assert PosLess(q, cur) <==> PosLess(q, next);
    }
    forall q | InGrid(grid, q) && PosLess(q, next)
      ensures q in nodes
    {
      assert PosLess(q, cur);
    }
  }

  /** The squares of one line of the map whose characters are all valid. */
  function SquaresOf(line: string): (r: seq<Square>)
    requires forall j :: 0 <= j < |line| ==> SquareFromChar(line[j]).Some?
    ensures |r| == |line| && forall j :: 0 <= j < |line| ==> SquareFromChar(line[j]) == Some(r[j])
  {
    seq(|line|, j requires 0 <= j < |line| => SquareFromChar(line[j]).value)
  }

  /** The sample map. */
  function SampleGrid(): (grid: Grid)
    ensures |grid| == 5 && forall r :: 0 <= r < 5 ==> |grid[r]| == 8
  {
    [SquaresOf("Sabqponm"), SquaresOf("abcryxxl"), SquaresOf("accszExk"),
     SquaresOf("acctuvwj"), SquaresOf("abdefghi")]
  }

  /** In the sample map the start square has two neighbours when climbing
      up, and the goal square four. */
  lemma SampleNeighbors()
    ensures Rectangular(SampleGrid())
    ensures Cell(SampleGrid(), Position(0, 0)).isStart && Cell(SampleGrid(), Position(2, 5)).isGoal
    ensures |NeighborsOf(SampleGrid(), Up, Position(0, 0))| == 2
    ensures |NeighborsOf(SampleGrid(), Up, Position(2, 5))| == 4
  {
    var grid := SampleGrid();
    assert grid[0][0] == Square('a', true, false) && grid[0][1] == Square('a', false, false);
    assert grid[1][0] == Square('a', false, false);
    assert grid[2][5] == Square('z', false, true);
    assert Step(grid, Up, Position(0, 0), North) == [] && Step(grid, Up, Position(0, 0), West) == [];
    assert Step(grid, Up, Position(0, 0), South) == [Position(1, 0)];
    assert Step(grid, Up, Position(0, 0), East) == [Position(0, 1)];
    assert grid[1][5] == Square('x', false, false) && grid[3][5] == Square('v', false, false);
    assert grid[2][4] == Square('z', false, false) && grid[2][6] == Square('x', false, false);
    assert Step(grid, Up, Position(2, 5), North) == [Position(1, 5)];
    assert Step(grid, Up, Position(2, 5), South) == [Position(3, 5)];
    assert Step(grid, Up, Position(2, 5), East) == [Position(2, 6)];
    assert Step(grid, Up, Position(2, 5), West) == [Position(2, 4)];
  }

  /** g is the grid's graph as `CreateGraph` builds it. */
  ghost predicate IsGridGraph(grid: Grid, mode: Climb, g: map<Position, GraphNode>)
    requires Rectangular(grid)
  {
    && (forall p :: p in g <==> InGrid(grid, p))
    && (forall p :: p in g ==> g[p] == FreshNode(grid, p, NeighborsOf(grid, mode, p)))
  }

  /** Every node is filed under its own position and its neighbours are
      other nodes of the graph. */
  predicate Structured(g: map<Position, GraphNode>)
  {
    forall p :: p in g ==> (g[p].position == p && forall q :: q in g[p].neighbors ==> q in g && q != p)
  }

  lemma GridGraphStructured(grid: Grid, mode: Climb, g: map<Position, GraphNode>)
    requires Rectangular(grid) && IsGridGraph(grid, mode, g)
    ensures Structured(g)
  {
    forall p, q | p in g && q in g[p].neighbors
      ensures q in g && q != p
    {
      NeighborsOfSpec(grid, mode, p, q);
    }
  }

  /** What a start or goal check looks at in a node. */
  datatype NodeTest = StartFlag | GoalFlag | LowestElevation

  predicate Test(t: NodeTest, n: GraphNode)
  {
    match t
    case StartFlag => n.isStart
    case GoalFlag => n.isGoal
    case LowestElevation => n.elevation == 'a'
  }

  /** The part of a node the search does not change. */
  function Skeleton(n: GraphNode): GraphNode
  {
    n.(visited := false, dist := Inf)
  }

  predicate SameShape(a: map<Position, GraphNode>, b: map<Position, GraphNode>)
  {
    a.Keys == b.Keys && forall p :: p in a ==> Skeleton(a[p]) == Skeleton(b[p])
  }

  /** Changing the search state of one node keeps the shape. */
  lemma ShapeUpdate(g: map<Position, GraphNode>, nodes: map<Position, GraphNode>, n: Position, node: GraphNode)
    requires SameShape(g, nodes) && n in nodes && Skeleton(node) == Skeleton(nodes[n])
    ensures SameShape(g, nodes[n := node])
  {
  }

  /** Before a search: nothing visited, start nodes at distance 0, all
      others at infinity. */
  predicate Prepared(g: map<Position, GraphNode>)
  {
    forall p :: p in g ==> !g[p].visited && (g[p].dist == Fin(0) || g[p].dist == Inf)
  }

  /** A node reset for a search from the nodes passing check t. */
  function PrepNode(t: NodeTest, n: GraphNode): GraphNode
  {
    n.(visited := false, dist := if Test(t, n) then Fin(0) else Inf)
  }

  /** The graph with the nodes filed under `keys` reset. */
  function PreppedOn(g: map<Position, GraphNode>, t: NodeTest, keys: set<Position>): map<Position, GraphNode>
  {
    map p | p in g :: if p in keys then PrepNode(t, g[p]) else g[p]
  }

  function Prepped(g: map<Position, GraphNode>, t: NodeTest): map<Position, GraphNode>
  {
    PreppedOn(g, t, g.Keys)
  }

  lemma PreppedOnStep(g: map<Position, GraphNode>, t: NodeTest, keys: set<Position>, p: Position)
    requires p in g
    ensures PreppedOn(g, t, keys + {p}) == PreppedOn(g, t, keys)[p := PrepNode(t, g[p])]
  {
  }

  /** Resetting keeps the shape of the graph and leaves it prepared: the
      nodes passing t are exactly the start nodes. */
  lemma PreppedSpec(g: map<Position, GraphNode>, t: NodeTest)
    ensures SameShape(g, Prepped(g, t)) && Prepared(Prepped(g, t))
    ensures Structured(g) ==> Structured(Prepped(g, t))
    ensures forall p :: IsStart(Prepped(g, t), p) <==> p in g && Test(t, g[p])
  {
    var g' := Prepped(g, t);
    assert forall p :: p in g ==> Skeleton(g'[p]) == Skeleton(g[p]);
  }

  /** An entry of the set of unvisited nodes, ordered by distance, then by
      position. */
  datatype PosAndDist = PosAndDist(position: Position, dist: Dist)

  predicate DistLess(a: Dist, b: Dist)
  {
    a.Fin? && (b.Inf? || a.n < b.n)
  }

  predicate Before(a: PosAndDist, b: PosAndDist)
  {
    DistLess(a.dist, b.dist) || (a.dist == b.dist && PosLess(a.position, b.position))
  }

  lemma BeforeTotal(a: PosAndDist, b: PosAndDist)
    ensures a == b || Before(a, b) || Before(b, a)
    ensures !(Before(a, b) && Before(b, a))
  {
  }

  lemma BeforeTrans(a: PosAndDist, b: PosAndDist, c: PosAndDist)
    requires Before(a, b) && Before(b, c)
    ensures Before(a, c)
  {
  }

  /** m is the entry `pop_first` takes out of s. */
  predicate IsFirst(m: PosAndDist, s: set<PosAndDist>)
  {
    m in s && forall x :: x in s && x != m ==> Before(m, x)
  }

  /** Every non-empty set of entries has a first one. */
  lemma {:induction false} FirstExists(s: set<PosAndDist>) returns (m: PosAndDist)
    requires s != {}
    ensures IsFirst(m, s)
    decreases |s|
  {
    var x :| x in s;
    if s == {x} {
      m := x;
    } else {
      var m' := FirstExists(s - {x});
      BeforeTotal(x, m');
      if Before(x, m') {
        m := x;
        forall y | y in s && y != x
          ensures Before(x, y)
        {
          if y != m' {
            BeforeTrans(x, m', y);
          }
        }
      } else {
        m := m';
      }
    }
  }

  /** The first entry is unique. */
  lemma FirstUnique(m: PosAndDist, m': PosAndDist, s: set<PosAndDist>)
    requires IsFirst(m, s) && IsFirst(m', s)
    ensures m == m'
  {
    if m != m' {
      BeforeTotal(m, m');
    }
  }

  /** The unvisited nodes other than those in `except`, as entries. */
  function FrontierOf(nodes: map<Position, GraphNode>, except: set<Position>): set<PosAndDist>
  {
    set p | p in nodes && !nodes[p].visited && p !in except :: PosAndDist(p, nodes[p].dist)
  }

  lemma FrontierMember(nodes: map<Position, GraphNode>, except: set<Position>, x: PosAndDist)
    ensures x in FrontierOf(nodes, except) <==>
      (x.position in nodes && !nodes[x.position].visited && x.position !in except && x.dist == nodes[x.position].dist)
  {
    if x.position in nodes && !nodes[x.position].visited && x.position !in except && x.dist == nodes[x.position].dist {
      assert x == PosAndDist(x.position, nodes[x.position].dist);
    }
  }

  /** The entries of the nodes filed under `keys`. */
  function Entries(nodes: map<Position, GraphNode>, keys: set<Position>): set<PosAndDist>
  {
    set p | p in keys && p in nodes :: PosAndDist(p, nodes[p].dist)
  }

  lemma EntriesAdd(nodes: map<Position, GraphNode>, keys: set<Position>, p: Position)
    requires p in nodes && p !in keys
    ensures PosAndDist(p, nodes[p].dist) !in Entries(nodes, keys)
    ensures Entries(nodes, keys + {p}) == Entries(nodes, keys) + {PosAndDist(p, nodes[p].dist)}
  {
  }

  /** Positions are unique, so there are as many entries as keys. */
  lemma {:induction false} EntriesCard(nodes: map<Position, GraphNode>, keys: set<Position>)
    requires keys <= nodes.Keys
    ensures |Entries(nodes, keys)| == |keys|
    decreases |keys|
  {
    if keys != {} {
      var p :| p in keys;
      EntriesCard(nodes, keys - {p});
      EntriesAdd(nodes, keys - {p}, p);
      assert keys - {p} + {p} == keys;
    }
  }

  /** Before the search every node is unvisited, so every entry is in the
      frontier. */
  lemma EntriesAreFrontier(nodes: map<Position, GraphNode>)
    requires Prepared(nodes)
    ensures Entries(nodes, nodes.Keys) == FrontierOf(nodes, {})
  {
  }

  /** `retain`: the entries whose position is not n. */
  function Retain(s: set<PosAndDist>, n: Position): (r: set<PosAndDist>)
    ensures forall x :: x in r <==> x in s && x.position != n
  {
    set x | x in s && x.position != n
  }

  /** `usize::min` on tentative distances, infinity being the largest. */
  function MinDist(a: Dist, b: Dist): (r: Dist)
    ensures r == a || r == b
    ensures !DistLess(a, r) && !DistLess(b, r)
  {
    if DistLess(b, a) then b else a
  }

  /** Walking the graph from node to neighbour. */
  predicate IsPath(g: map<Position, GraphNode>, path: seq<Position>)
  {
    && |path| >= 1
    && (forall i :: 0 <= i < |path| ==> path[i] in g)
    && (forall i :: 0 <= i < |path| - 1 ==> path[i] in g && path[i + 1] in g[path[i]].neighbors)
  }

  predicate IsStart(g: map<Position, GraphNode>, p: Position)
  {
    p in g && g[p].dist == Fin(0)
  }

  /** A path from a start node to v. */
  predicate PathTo(g: map<Position, GraphNode>, path: seq<Position>, v: Position)
  {
    IsPath(g, path) && IsStart(g, path[0]) && path[|path| - 1] == v
  }

  /** A path from a start node to a node passing the goal check. */
  predicate RouteFrom(g: map<Position, GraphNode>, goal: NodeTest, path: seq<Position>)
  {
    IsPath(g, path) && IsStart(g, path[0]) && Test(goal, g[path[|path| - 1]])
  }

  /** Every path from a start node to v takes at least d steps. */
  ghost predicate LowerBound(g: map<Position, GraphNode>, v: Position, d: nat)
  {
    forall path :: PathTo(g, path, v) ==> |path| - 1 >= d
  }

  /** What `min_route` promises about the prepared graph g. */
  ghost predicate RouteSpec(g: map<Position, GraphNode>, goal: NodeTest, r: Route)
  {
    match r
    case Found(steps) =>
      (exists path :: RouteFrom(g, goal, path) && |path| == steps + 1)
      && (forall path :: RouteFrom(g, goal, path) ==> |path| >= steps + 1)
    case NoRoute => forall path :: !RouteFrom(g, goal, path)
    case Exhausted => forall p :: p in g ==> !Test(goal, g[p])
  }

  /** A walk on the map: squares of the grid, each adjacent to the one
      before and reachable from it. */
  predicate IsWalk(grid: Grid, mode: Climb, path: seq<Position>)
  {
    && |path| >= 1
    && (forall i :: 0 <= i < |path| ==> InGrid(grid, path[i]))
    && (forall i :: 0 <= i < |path| - 1 ==> WalkStep(grid, mode, path[i], path[i + 1]))
  }

  predicate WalkStep(grid: Grid, mode: Climb, p: Position, q: Position)
  {
    InGrid(grid, p) && InGrid(grid, q) && Adjacent(p, q) && CanMove(mode, Cell(grid, p), Cell(grid, q))
  }

  /** The paths of the prepared graph of a map are exactly the walks on the
      map, so a route found by the search is a shortest walk. */
  lemma GraphPathIsWalk(grid: Grid, mode: Climb, g: map<Position, GraphNode>, t: NodeTest, path: seq<Position>)
    requires Rectangular(grid) && IsGridGraph(grid, mode, g)
    ensures IsPath(Prepped(g, t), path) <==> IsWalk(grid, mode, path)
  {
    var g' := Prepped(g, t);
    forall i | 0 <= i < |path| - 1 && InGrid(grid, path[i])
      ensures path[i + 1] in g'[path[i]].neighbors <==> WalkStep(grid, mode, path[i], path[i + 1])
    {
      NeighborsOfSpec(grid, mode, path[i], path[i + 1]);
    }
  }

  /** The outcome of a search; `Exhausted` is the point the program marks
      unreachable: every node was visited and none passed the goal check. */
  datatype Route = Found(steps: nat) | NoRoute | Exhausted

  predicate Relaxed(nodes: map<Position, GraphNode>, q: Position, d: nat)
    requires q in nodes
  {
    nodes[q].dist.Fin? && nodes[q].dist.n <= d + 1
  }

  /** The search invariant at one node. */
  ghost predicate NodeOk(g: map<Position, GraphNode>, nodes: map<Position, GraphNode>,
                         paths: map<Position, seq<Position>>, goal: NodeTest, p: Position)
    requires p in nodes
  {
    && (IsStart(g, p) ==> nodes[p].dist == Fin(0))
    && (nodes[p].dist.Fin? ==> p in paths && PathTo(g, paths[p], p) && |paths[p]| == nodes[p].dist.n + 1)
    && (nodes[p].visited ==>
         && nodes[p].dist.Fin? && LowerBound(g, p, nodes[p].dist.n) && !Test(goal, nodes[p])
         && forall q :: q in nodes[p].neighbors && q in nodes && !nodes[q].visited ==> Relaxed(nodes, q, nodes[p].dist.n))
  }

  ghost predicate Search(g: map<Position, GraphNode>, nodes: map<Position, GraphNode>,
                         paths: map<Position, seq<Position>>, goal: NodeTest)
  {
    Structured(g) && SameShape(g, nodes) && forall p {:trigger NodeOk(g, nodes, paths, goal, p)} :: p in nodes ==> NodeOk(g, nodes, paths, goal, p)
  }

  /** The first node of a path that is not yet visited, given the last is
      not. */
  lemma {:induction false} FirstOff(nodes: map<Position, GraphNode>, path: seq<Position>, i: nat) returns (j: nat)
    requires forall k :: 0 <= k < |path| ==> path[k] in nodes
    requires i < |path| && !nodes[path[|path| - 1]].visited
    requires forall k :: 0 <= k < i ==> nodes[path[k]].visited
    ensures i <= j < |path| && !nodes[path[j]].visited
    ensures forall k :: 0 <= k < j ==> nodes[path[k]].visited
    decreases |path| - i
  {
    if nodes[path[i]].visited {
      j := FirstOff(nodes, path, i + 1);
    } else {
      j := i;
    }
  }

  /** Walking a path from a start node, the first node not yet visited has
      a tentative distance no larger than its index on the path. */
  lemma FirstUnvisited(g: map<Position, GraphNode>, nodes: map<Position, GraphNode>,
                       paths: map<Position, seq<Position>>, goal: NodeTest,
                       path: seq<Position>) returns (j: nat)
    requires Search(g, nodes, paths, goal)
    requires IsPath(g, path) && IsStart(g, path[0]) && !nodes[path[|path| - 1]].visited
    ensures j < |path| && !nodes[path[j]].visited
    ensures nodes[path[j]].dist.Fin? && nodes[path[j]].dist.n <= j
  {
    j := FirstOff(nodes, path, 0);
    assert NodeOk(g, nodes, paths, goal, path[j]);
    if j > 0 {
      var z := path[j - 1];
      assert nodes[z].visited;
      assert NodeOk(g, nodes, paths, goal, z);
      assert Skeleton(g[z]) == Skeleton(nodes[z]);
      assert PathTo(g, path[..j], z);
      assert path[j] in nodes[z].neighbors;
    }
  }

  /** The entry taken first bounds the length of every path from a start
      node to a node not yet visited. */
  lemma PopBound(g: map<Position, GraphNode>, nodes: map<Position, GraphNode>,
                 paths: map<Position, seq<Position>>, goal: NodeTest, cur: PosAndDist, path: seq<Position>)
    requires Search(g, nodes, paths, goal) && IsFirst(cur, FrontierOf(nodes, {}))
    requires IsPath(g, path) && IsStart(g, path[0]) && !nodes[path[|path| - 1]].visited
    ensures cur.dist.Fin? && cur.dist.n <= |path| - 1
  {
    var j := FirstUnvisited(g, nodes, paths, goal, path);
    var y := PosAndDist(path[j], nodes[path[j]].dist);
    FrontierMember(nodes, {}, y);
  }

  /** Taking the first entry either settles its node, or shows that no
      route exists. */
  lemma Pop(g: map<Position, GraphNode>, nodes: map<Position, GraphNode>,
            paths: map<Position, seq<Position>>, goal: NodeTest, cur: PosAndDist)
    requires Search(g, nodes, paths, goal) && IsFirst(cur, FrontierOf(nodes, {}))
    ensures cur.position in nodes && !nodes[cur.position].visited && cur.dist == nodes[cur.position].dist
    ensures FrontierOf(nodes, {}) - {cur} == FrontierOf(nodes, {cur.position})
    ensures cur.dist.Inf? ==> RouteSpec(g, goal, NoRoute)
    ensures cur.dist.Fin? && Test(goal, nodes[cur.position]) ==> RouteSpec(g, goal, Found(cur.dist.n))
    ensures cur.dist.Fin? ==> LowerBound(g, cur.position, cur.dist.n)
  {
    FrontierMember(nodes, {}, cur);
    forall x ensures x in FrontierOf(nodes, {}) - {cur} <==> x in FrontierOf(nodes, {cur.position})
    {
      FrontierMember(nodes, {}, x);
      FrontierMember(nodes, {cur.position}, x);
    }
    var c := cur.position;
    forall path | RouteFrom(g, goal, path)
      ensures cur.dist.Fin? && |path| >= cur.dist.n + 1
    {
      var last := path[|path| - 1];
      assert NodeOk(g, nodes, paths, goal, last);
      assert Skeleton(g[last]) == Skeleton(nodes[last]);
      PopBound(g, nodes, paths, goal, cur, path);
    }
    forall path | PathTo(g, path, c)
      ensures cur.dist.Fin? && |path| - 1 >= cur.dist.n
    {
      PopBound(g, nodes, paths, goal, cur, path);
    }
    if cur.dist.Fin? && Test(goal, nodes[c]) {
      assert NodeOk(g, nodes, paths, goal, c);
      assert Skeleton(g[c]) == Skeleton(nodes[c]);
      assert RouteFrom(g, goal, paths[c]);
    }
  }

  /** The state while the neighbours of c are relaxed: c is settled at
      distance d but not yet marked, and its first i neighbours are done. */
  ghost predicate Relaxing(g: map<Position, GraphNode>, nodes: map<Position, GraphNode>,
                           paths: map<Position, seq<Position>>, goal: NodeTest, c: Position, d: nat, i: nat)
  {
    && Search(g, nodes, paths, goal) && c in nodes && !nodes[c].visited && nodes[c].dist == Fin(d)
    && LowerBound(g, c, d) && !Test(goal, nodes[c]) && i <= |nodes[c].neighbors|
    && RelaxedUpTo(nodes, c, d, i)
  }

  /** The first i neighbours of c are visited or relaxed from distance d. */
  ghost predicate RelaxedUpTo(nodes: map<Position, GraphNode>, c: Position, d: nat, i: nat)
    requires c in nodes && i <= |nodes[c].neighbors|
  {
    forall j :: 0 <= j < i ==> (nodes[c].neighbors[j] in nodes
      && (nodes[nodes[c].neighbors[j]].visited || Relaxed(nodes, nodes[c].neighbors[j], d)))
  }

  /** Relaxing the i-th neighbour n of c extends the relaxed prefix. */
  lemma RelaxPrefix(nodes: map<Position, GraphNode>, c: Position, d: nat, i: nat, n: Position, nd: Dist)
    requires c in nodes && i < |nodes[c].neighbors| && RelaxedUpTo(nodes, c, d, i)
    requires n == nodes[c].neighbors[i] && n in nodes && n != c
    requires nd == MinDist(nodes[n].dist, Fin(d + 1))
    ensures RelaxedUpTo(nodes[n := nodes[n].(dist := nd)], c, d, i + 1)
  {
    var nodes' := nodes[n := nodes[n].(dist := nd)];
    var ns := nodes[c].neighbors;
    assert nodes'[c] == nodes[c];
    forall j | 0 <= j < i + 1
      ensures ns[j] in nodes' && (nodes'[ns[j]].visited || Relaxed(nodes', ns[j], d))
    {
      if j < i && ns[j] != n {
        assert nodes'[ns[j]] == nodes[ns[j]];
      }
    }
  }

  /** The paths paths after relaxing n from c. */
  ghost function NewWitness(nodes: map<Position, GraphNode>, paths: map<Position, seq<Position>>,
                            c: Position, n: Position, nd: Dist): map<Position, seq<Position>>
    requires n in nodes
  {
    if nd != nodes[n].dist && c in paths then paths[n := paths[c] + [n]] else paths
  }

  /** A path extended by a neighbour of its last node is a path. */
  lemma PathExtend(g: map<Position, GraphNode>, w: seq<Position>, n: Position)
    requires IsPath(g, w) && w[|w| - 1] in g && n in g && n in g[w[|w| - 1]].neighbors
    ensures IsPath(g, w + [n]) && (w + [n])[0] == w[0] && (w + [n])[|w|] == n
  {
  }

  /** Relaxing n from c keeps the invariant at each node p. */
  lemma RelaxNode(g: map<Position, GraphNode>, nodes: map<Position, GraphNode>,
                  paths: map<Position, seq<Position>>, goal: NodeTest, c: Position, d: nat,
                  n: Position, nd: Dist, p: Position)
    requires Search(g, nodes, paths, goal) && c in nodes && nodes[c].dist == Fin(d)
    requires n in nodes[c].neighbors && n in nodes && !nodes[n].visited
    requires nd == MinDist(nodes[n].dist, Fin(d + 1)) && p in nodes
    ensures NodeOk(g, nodes[n := nodes[n].(dist := nd)], NewWitness(nodes, paths, c, n, nd), goal, p)
  {
    var nodes' := nodes[n := nodes[n].(dist := nd)];
    var paths' := NewWitness(nodes, paths, c, n, nd);
    assert NodeOk(g, nodes, paths, goal, p);
    if p == n {
      if nd != nodes[n].dist {
        assert NodeOk(g, nodes, paths, goal, c);
        assert Skeleton(g[c]) == Skeleton(nodes[c]);
        PathExtend(g, paths[c], n);
        assert PathTo(g, paths'[n], n);
      }
    } else if nodes'[p].visited {
      forall q | q in nodes'[p].neighbors && q in nodes' && !nodes'[q].visited
        ensures Relaxed(nodes', q, nodes'[p].dist.n)
      {
        assert Relaxed(nodes, q, nodes[p].dist.n);
      }
    }
  }

  /** Relaxing n from c keeps the search invariant. */
  lemma RelaxSearch(g: map<Position, GraphNode>, nodes: map<Position, GraphNode>,
                    paths: map<Position, seq<Position>>, goal: NodeTest, c: Position, d: nat,
                    n: Position, nd: Dist)
    requires Search(g, nodes, paths, goal) && c in nodes && nodes[c].dist == Fin(d)
    requires n in nodes[c].neighbors && n in nodes && !nodes[n].visited
    requires nd == MinDist(nodes[n].dist, Fin(d + 1))
    ensures Search(g, nodes[n := nodes[n].(dist := nd)], NewWitness(nodes, paths, c, n, nd), goal)
  {
    var nodes' := nodes[n := nodes[n].(dist := nd)];
    var paths' := NewWitness(nodes, paths, c, n, nd);
    forall p | p in nodes'
      ensures NodeOk(g, nodes', paths', goal, p)
    {
      RelaxNode(g, nodes, paths, goal, c, d, n, nd, p);
    }
    ShapeUpdate(g, nodes, n, nodes[n].(dist := nd));
  }

  /** Relaxing the i-th neighbour keeps the search invariant. */
  lemma RelaxStep(g: map<Position, GraphNode>, nodes: map<Position, GraphNode>,
                  paths: map<Position, seq<Position>>, goal: NodeTest, c: Position, d: nat, i: nat,
                  n: Position, nd: Dist)
    requires Relaxing(g, nodes, paths, goal, c, d, i) && i < |nodes[c].neighbors|
    requires n == nodes[c].neighbors[i] && n in nodes && !nodes[n].visited
    requires nd == MinDist(nodes[n].dist, Fin(d + 1))
    ensures Relaxing(g, nodes[n := nodes[n].(dist := nd)], NewWitness(nodes, paths, c, n, nd), goal, c, d, i + 1)
  {
    var nodes' := nodes[n := nodes[n].(dist := nd)];
    RelaxSearch(g, nodes, paths, goal, c, d, n, nd);
    assert Skeleton(g[c]) == Skeleton(nodes[c]);
    assert n != c;
    assert nodes'[c] == nodes[c];
    RelaxPrefix(nodes, c, d, i, n, nd);
  }

  /** Relaxing n replaces its entry among the unvisited ones, which keeps
      their number. */
  lemma RelaxFrontier(nodes: map<Position, GraphNode>, c: Position, n: Position, nd: Dist, frontier: set<PosAndDist>)
    requires frontier == FrontierOf(nodes, {c})
    requires n in nodes && !nodes[n].visited && n != c
    ensures Retain(frontier, n) + {PosAndDist(n, nd)} == FrontierOf(nodes[n := nodes[n].(dist := nd)], {c})
    ensures |Retain(frontier, n) + {PosAndDist(n, nd)}| == |frontier|
  {
    var nodes' := nodes[n := nodes[n].(dist := nd)];
    var f' := Retain(frontier, n) + {PosAndDist(n, nd)};
    forall x ensures x in f' <==> x in FrontierOf(nodes', {c})
    {
      FrontierMember(nodes, {c}, x);
      FrontierMember(nodes', {c}, x);
    }
    var oldEntry := PosAndDist(n, nodes[n].dist);
    FrontierMember(nodes, {c}, oldEntry);
    assert Retain(frontier, n) == frontier - {oldEntry} by {
      forall x | x in frontier
        ensures x.position == n <==> x == oldEntry
      {
        FrontierMember(nodes, {c}, x);
      }
    }
  }

  /** A neighbour already visited needs no relaxing. */
  lemma RelaxSkip(g: map<Position, GraphNode>, nodes: map<Position, GraphNode>,
                  paths: map<Position, seq<Position>>, goal: NodeTest, c: Position, d: nat, i: nat)
    requires Relaxing(g, nodes, paths, goal, c, d, i) && i < |nodes[c].neighbors|
    requires nodes[c].neighbors[i] in nodes && nodes[nodes[c].neighbors[i]].visited
    ensures Relaxing(g, nodes, paths, goal, c, d, i + 1)
  {
  }

  lemma ShapeStructured(g: map<Position, GraphNode>, nodes: map<Position, GraphNode>)
    requires Structured(g) && SameShape(g, nodes)
    ensures Structured(nodes)
  {
    forall p | p in nodes
      ensures nodes[p].position == p && forall q :: q in nodes[p].neighbors ==> q in nodes && q != p
    {
      assert Skeleton(g[p]) == Skeleton(nodes[p]);
    }
  }

  /** Marking c visited once its neighbours are relaxed keeps the
      invariant at each node p. */
  lemma VisitNode(g: map<Position, GraphNode>, nodes: map<Position, GraphNode>,
                  paths: map<Position, seq<Position>>, goal: NodeTest, c: Position, d: nat, p: Position)
    requires c in nodes && Relaxing(g, nodes, paths, goal, c, d, |nodes[c].neighbors|) && p in nodes
    ensures NodeOk(g, nodes[c := nodes[c].(visited := true)], paths, goal, p)
  {
    var nodes' := nodes[c := nodes[c].(visited := true)];
    assert NodeOk(g, nodes, paths, goal, p);
    if p == c {
      assert RelaxedUpTo(nodes, c, d, |nodes[c].neighbors|);
      forall q | q in nodes'[c].neighbors && q in nodes' && !nodes'[q].visited
        ensures Relaxed(nodes', q, d)
      {
        var j :| 0 <= j < |nodes[c].neighbors| && nodes[c].neighbors[j] == q;
      }
    }
  }

  /** Once every neighbour is relaxed, marking c visited restores the
      search invariant. */
  lemma Visit(g: map<Position, GraphNode>, nodes: map<Position, GraphNode>,
              paths: map<Position, seq<Position>>, goal: NodeTest, c: Position, d: nat)
    requires c in nodes && Relaxing(g, nodes, paths, goal, c, d, |nodes[c].neighbors|)
    ensures Search(g, nodes[c := nodes[c].(visited := true)], paths, goal)
    ensures FrontierOf(nodes[c := nodes[c].(visited := true)], {}) == FrontierOf(nodes, {c})
  {
    var nodes' := nodes[c := nodes[c].(visited := true)];
    forall p | p in nodes'
      ensures NodeOk(g, nodes', paths, goal, p)
    {
      VisitNode(g, nodes, paths, goal, c, d, p);
    }
    ShapeUpdate(g, nodes, c, nodes[c].(visited := true));
    forall x ensures x in FrontierOf(nodes', {}) <==> x in FrontierOf(nodes, {c})
    {
      FrontierMember(nodes, {c}, x);
      FrontierMember(nodes', {}, x);
    }
  }

  /** At the start of a search on a prepared graph the invariant holds,
      with the one-node path as paths for each start node. */
  lemma SearchInit(g: map<Position, GraphNode>, goal: NodeTest)
    requires Structured(g) && Prepared(g)
    ensures Search(g, g, map p | p in g && g[p].dist == Fin(0) :: [p], goal)
  {
    var paths := map p | p in g && g[p].dist == Fin(0) :: [p];
    forall p | p in g
      ensures NodeOk(g, g, paths, goal, p)
    {
      if g[p].dist.Fin? {
        assert PathTo(g, [p], p);
      }
    }
  }

  /** When every node has been visited, none passes the goal check. */
  lemma AllVisited(g: map<Position, GraphNode>, nodes: map<Position, GraphNode>,
                   paths: map<Position, seq<Position>>, goal: NodeTest)
    requires Search(g, nodes, paths, goal) && FrontierOf(nodes, {}) == {}
    ensures RouteSpec(g, goal, Exhausted)
  {
    forall p | p in g
      ensures !Test(goal, g[p])
    {
      FrontierMember(nodes, {}, PosAndDist(p, nodes[p].dist));
      assert NodeOk(g, nodes, paths, goal, p);
      assert Skeleton(g[p]) == Skeleton(nodes[p]);
    }
  }

  /** The graph of a height map, with the search state of every node. */
  class Graph {
    var nodes: map<Position, GraphNode>

    ghost predicate Valid()
      reads this
    {
      Structured(nodes)
    }

    constructor (grid: Grid, mode: Climb)
      requires Rectangular(grid)
      ensures Valid() && Prepared(nodes)
      ensures IsGridGraph(grid, mode, nodes)
    {
      var g := CreateGraph(grid, mode);
      GridGraphStructured(grid, mode, g);
      nodes := g;
      new;
    }

    /** Resets every node: distance 0 where the start check passes, infinity
        elsewhere, nothing visited. */
    method Prep(start: NodeTest)
      modifies this
      requires Valid()
      ensures Valid() && Prepared(nodes)
      ensures nodes == Prepped(old(nodes), start)
    {
      ghost var n0 := nodes;
      var todo := nodes.Keys;
      while todo != {}
        invariant todo <= n0.Keys
        invariant nodes == PreppedOn(n0, start, n0.Keys - todo)
        decreases |todo|
      {
        var p :| p in todo;
        var n := nodes[p];
        assert n == n0[p];
        PreppedOnStep(n0, start, n0.Keys - todo, p);
        assert n0.Keys - (todo - {p}) == (n0.Keys - todo) + {p};
        nodes := nodes[p := n.(visited := false, dist := if Test(start, n) then Fin(0) else Inf)];
        todo := todo - {p};
      }
      assert n0.Keys - todo == n0.Keys;
      PreppedSpec(n0, start);
    }

    /** One entry per node, holding its position and tentative distance. */
    method CreateUnvisitedSet() returns (s: set<PosAndDist>)
      requires Valid()
      ensures s == Entries(nodes, nodes.Keys)
      ensures |s| == |nodes|
    {
      var g := nodes;
      s := {};
      var todo := g.Keys;
      ghost var done: set<Position> := {};
      while todo != {}
        invariant done <= g.Keys && todo == g.Keys - done
        invariant s == Entries(g, done)
        decreases |todo|
      {
        var p :| p in todo;
        var n := g[p];
        EntriesAdd(g, done, p);
        s := s + {PosAndDist(n.position, n.dist)};
        todo := todo - {p};
        done := done + {p};
      }
      EntriesCard(g, g.Keys);
    }

    /** Dijkstra's search with unit edges from the prepared start nodes to
        the nearest node passing the goal check. */
    method MinRoute(goal: NodeTest) returns (r: Route)
      modifies this
      requires Valid() && Prepared(nodes)
      ensures Valid() && SameShape(old(nodes), nodes)
      ensures RouteSpec(old(nodes), goal, r)
    {
      var frontier := CreateUnvisitedSet();
      ghost var g := nodes;
      ghost var paths := map p | p in g && g[p].dist == Fin(0) :: [p];
      SearchInit(g, goal);
      EntriesAreFrontier(nodes);
      while frontier != {}
        invariant Search(g, nodes, paths, goal) && frontier == FrontierOf(nodes, {})
        decreases |frontier|
      {
        ghost var size := |frontier|;
        ghost var _ := FirstExists(frontier);
        var cur :| IsFirst(cur, frontier);
        Pop(g, nodes, paths, goal, cur);
        frontier := frontier - {cur};
        assert |frontier| == size - 1;
        var node := nodes[cur.position];
        if node.dist.Inf? {
          ShapeStructured(g, nodes);
          return NoRoute;
        }
        if Test(goal, node) {
          ShapeStructured(g, nodes);
          return Found(node.dist.n);
        }
        frontier, paths := Settle(g, paths, goal, cur.position, node.dist.n, frontier);
      }
      AllVisited(g, nodes, paths, goal);
      ShapeStructured(g, nodes);
      return Exhausted;
    }

    /** Settles c at distance d: relaxes its neighbours, then marks it
        visited. */
    method Settle(ghost g: map<Position, GraphNode>, ghost paths: map<Position, seq<Position>>,
                  goal: NodeTest, c: Position, d: nat, frontier: set<PosAndDist>)
      returns (frontier': set<PosAndDist>, ghost paths': map<Position, seq<Position>>)
      modifies this
      requires Search(g, nodes, paths, goal) && c in nodes && !nodes[c].visited && nodes[c].dist == Fin(d)
      requires LowerBound(g, c, d) && !Test(goal, nodes[c])
      requires frontier == FrontierOf(nodes, {c})
      ensures Search(g, nodes, paths', goal) && frontier' == FrontierOf(nodes, {}) && |frontier'| == |frontier|
    {
      frontier', paths' := RelaxNeighbors(g, paths, goal, c, d, frontier);
      Visit(g, nodes, paths', goal, c, d);
      nodes := nodes[c := nodes[c].(visited := true)];
    }

    /** The inner loop of `MinRoute`: lowers the tentative distance of each
        neighbour of c not yet visited to at most d + 1, replacing its
        entry in the frontier. */
    method RelaxNeighbors(ghost g: map<Position, GraphNode>, ghost paths: map<Position, seq<Position>>,
                          goal: NodeTest, c: Position, d: nat, frontier: set<PosAndDist>)
      returns (frontier': set<PosAndDist>, ghost paths': map<Position, seq<Position>>)
      modifies this
      requires Search(g, nodes, paths, goal) && c in nodes && !nodes[c].visited && nodes[c].dist == Fin(d)
      requires LowerBound(g, c, d) && !Test(goal, nodes[c])
      requires frontier == FrontierOf(nodes, {c})
      ensures c in nodes && Relaxing(g, nodes, paths', goal, c, d, |nodes[c].neighbors|)
      ensures frontier' == FrontierOf(nodes, {c}) && |frontier'| == |frontier|
    {
      frontier', paths' := frontier, paths;
      var neighbors := nodes[c].neighbors;
      var i := 0;
      while i < |neighbors|
        invariant Relaxing(g, nodes, paths', goal, c, d, i) && frontier' == FrontierOf(nodes, {c})
        invariant i <= |neighbors| && neighbors == nodes[c].neighbors && |frontier'| == |frontier|
      {
        var n := neighbors[i];
        if !nodes[n].visited {
          var nd := MinDist(nodes[n].dist, Fin(1 + d));
          RelaxStep(g, nodes, paths', goal, c, d, i, n, nd);
          RelaxFrontier(nodes, c, n, nd, frontier');
          frontier' := Retain(frontier', n);
          paths' := NewWitness(nodes, paths', c, n, nd);
          nodes := nodes[n := nodes[n].(dist := nd)];
          frontier' := frontier' + {PosAndDist(n, nd)};
        } else {
          RelaxSkip(g, nodes, paths', goal, c, d, i);
        }
        i := i + 1;
      }
    }
  }
}
