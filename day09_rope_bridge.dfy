/** Day 9: rope bridge. The head of a rope follows a series of moves one
    unit step at a time; every other knot follows the knot before it. The
    number of distinct cells the last knot visits is counted. */
module RopeBridge {

  datatype Position = Position(x: int, y: int)

  const Origin := Position(0, 0)

  /** A move of the head: a direction and a distance. */
  datatype Move = Up(d: nat) | Down(d: nat) | Left(d: nat) | Right(d: nat)

  /** A unit step of the head. */
  datatype Step = StepUp | StepDown | StepLeft | StepRight

  function Apply(op: Step, p: Position): Position
  {
    match op
    case StepUp => Position(p.x, p.y + 1)
    case StepDown => Position(p.x, p.y - 1)
    case StepLeft => Position(p.x - 1, p.y)
    case StepRight => Position(p.x + 1, p.y)
  }

  function UnitStep(m: Move): Step
  {
    match m
    case Up(_) => StepUp
    case Down(_) => StepDown
    case Left(_) => StepLeft
    case Right(_) => StepRight
  }

  /** A move of distance d is d unit steps in its direction. */
  function ToOpSequence(m: Move): (ops: seq<Step>)
    ensures |ops| == m.d
    ensures forall k :: 0 <= k < |ops| ==> ops[k] == UnitStep(m)
  {
    seq(m.d, _ => UnitStep(m))
  }

  function Abs(n: int): nat
  {
    if n < 0 then -n else n
  }

  function Sign(n: int): int
  {
    if n > 0 then 1 else if n < 0 then -1 else 0
  }

  /** Two knots touch when they are at most one cell apart on each axis,
      diagonals and overlap included. */
  predicate Touching(a: Position, b: Position)
  {
    Abs(a.x - b.x) <= 1 && Abs(a.y - b.y) <= 1
  }

  /** Chebyshev distance: the larger of the two axis distances. */
  function Chebyshev(a: Position, b: Position): nat
  {
    if Abs(a.x - b.x) >= Abs(a.y - b.y) then Abs(a.x - b.x) else Abs(a.y - b.y)
  }

  /** How a knot follows the knot before it: it stays when they touch,
      otherwise it steps one cell toward it on each axis where they differ.
      It never moves more than one cell per axis, and from at most two cells
      away on each axis it ends touching its leader. */
  function MoveNext(pos: Position, prev: Position): (r: Position)
    ensures Touching(pos, prev) ==> r == pos
    ensures !Touching(pos, prev) ==> r == Position(pos.x + Sign(prev.x - pos.x), pos.y + Sign(prev.y - pos.y))
    ensures Touching(r, pos)
    ensures Chebyshev(pos, prev) <= 2 ==> Touching(r, prev)
  {
    var dx := prev.x - pos.x;
    var dy := prev.y - pos.y;
    if Abs(dx) + Abs(dy) <= 1 then pos
    else if Abs(dx) == 1 && Abs(dy) == 1 then pos
    else Position(pos.x + 1 * Sign(dx), pos.y + 1 * Sign(dy))
  }

  /** The first n knots after one step: the head moves, then each knot
      follows its already moved predecessor. */
  function Pulled(knots: seq<Position>, op: Step, n: nat): (r: seq<Position>)
    requires 1 <= n <= |knots|
    ensures |r| == n
    ensures r[0] == Apply(op, knots[0])
    ensures forall i :: 1 <= i < n ==> r[i] == MoveNext(knots[i], r[i - 1])
  {
    if n == 1 then [Apply(op, knots[0])]
    else var front := Pulled(knots, op, n - 1); front + [MoveNext(knots[n - 1], front[n - 2])]
  }

  /** The whole rope after one step of the head. */
  function ChainStep(knots: seq<Position>, op: Step): (r: seq<Position>)
    requires |knots| >= 1
    ensures |r| == |knots|
  {
    Pulled(knots, op, |knots|)
  }

  predicate AllTouching(knots: seq<Position>)
  {
    forall i :: 0 <= i < |knots| - 1 ==> Touching(knots[i], knots[i + 1])
  }

  /** A rope whose neighbouring knots touch still has that property after a
      step, whatever the length of the rope: each knot moves at most one
      cell per axis, so its follower is at most two cells away and catches
      up. */
  lemma {:induction false} PulledKeepsTouching(knots: seq<Position>, op: Step, n: nat)
    requires 1 <= n <= |knots| && AllTouching(knots)
    ensures AllTouching(Pulled(knots, op, n))
    ensures forall i :: 0 <= i < n ==> Touching(Pulled(knots, op, n)[i], knots[i])
  {
    if n > 1 {
      PulledKeepsTouching(knots, op, n - 1);
      var front := Pulled(knots, op, n - 1);
      var r := Pulled(knots, op, n);
      assert r == front + [MoveNext(knots[n - 1], front[n - 2])];
      FollowerTouches(knots[n - 1], front[n - 2], knots[n - 2]);
      forall i | 0 <= i < n - 1
        ensures r[i] == front[i] && Touching(r[i], knots[i]) && Touching(r[i], r[i + 1])
      {
        if i < n - 2 {
          assert r[i + 1] == front[i + 1];
        }
      }
    }
  }

  /** A knot touching the old position of its leader, which moved at most
      one cell per axis, ends touching both its own old cell and the
      leader. */
  lemma FollowerTouches(pos: Position, lead: Position, oldLead: Position)
    requires Touching(lead, oldLead) && Touching(oldLead, pos)
    ensures Touching(MoveNext(pos, lead), lead) && Touching(MoveNext(pos, lead), pos)
  {
    assert Chebyshev(pos, lead) <= 2;
  }

  lemma ChainStepKeepsTouching(knots: seq<Position>, op: Step)
    requires |knots| >= 1 && AllTouching(knots)
    ensures AllTouching(ChainStep(knots, op))
  {
    PulledKeepsTouching(knots, op, |knots|);
  }

  /** The rope with ten knots, all at the origin at the start. */
  class Chain {
    var positions: array<Position>

    predicate Valid()
      reads this, positions
    {
      positions.Length == 10 && AllTouching(positions[..])
    }

    constructor()
      ensures Valid() && fresh(positions)
      ensures forall i :: 0 <= i < 10 ==> positions[i] == Origin
    {
      positions := new Position[10](_ => Origin);
    }

    function Tail(): Position
      reads this, positions
      requires positions.Length >= 1
    {
      positions[positions.Length - 1]
    }

    /** Moves the head one step, then each knot from the head's side on
      follows its predecessor's new position. */
    method MoveChain(op: Step)
      requires Valid()
      modifies positions
      ensures Valid()
      ensures positions[..] == ChainStep(old(positions[..]), op)
    {
      ghost var before := positions[..];
      positions[0] := Apply(op, positions[0]);
      Follow(positions, before, op);
      ChainStepKeepsTouching(before, op);
    }
  }

  /** Moves every knot after the already moved head of `a` toward its
      predecessor's new position, from the head's side on. */
  method Follow(a: array<Position>, ghost before: seq<Position>, op: Step)
    requires a.Length == |before| >= 1
    requires a[0] == Apply(op, before[0]) && a[1..] == before[1..]
    modifies a
    ensures a[..] == ChainStep(before, op)
  {
    assert a[..1] == Pulled(before, op, 1);
    var i := 1;
    while i < a.Length
      invariant 1 <= i <= a.Length
      invariant a[..i] == Pulled(before, op, i)
      invariant a[i..] == before[i..]
    {
      ghost var done := a[..i];
      assert a[i] == before[i];
      a[i] := MoveNext(a[i], a[i - 1]);
      assert a[..i + 1] == done + [a[i]];
      assert a[i + 1..] == before[i + 1..];
      i := i + 1;
    }
    assert a[..] == a[..i];
  }

  /** The unit steps of a list of moves, in order. */
  function Ops(moves: seq<Move>): seq<Step>
  {
    if moves == [] then [] else Ops(moves[..|moves| - 1]) + ToOpSequence(moves[|moves| - 1])
  }

  /** The rope after a sequence of steps. */
  function Run(knots: seq<Position>, ops: seq<Step>): (r: seq<Position>)
    requires |knots| >= 1
    ensures |r| == |knots|
  {
    if ops == [] then knots else ChainStep(Run(knots, ops[..|ops| - 1]), ops[|ops| - 1])
  }

  /** The cells the last knot occupies along the way, the start included. */
  function Visited(knots: seq<Position>, ops: seq<Step>): set<Position>
    requires |knots| >= 1
  {
    if ops == [] then {knots[|knots| - 1]}
    else var r := Run(knots, ops); Visited(knots, ops[..|ops| - 1]) + {r[|r| - 1]}
  }

  /** The start is visited, and each step adds at most one new cell. */
  lemma {:induction false} VisitedBounds(knots: seq<Position>, ops: seq<Step>)
    requires |knots| >= 1
    ensures knots[|knots| - 1] in Visited(knots, ops)
    ensures 1 <= |Visited(knots, ops)| <= |ops| + 1
  {
    if ops != [] {
      VisitedBounds(knots, ops[..|ops| - 1]);
    }
  }

  /** Every rope state along a run keeps its knots touching. */
  lemma {:induction false} RunKeepsTouching(knots: seq<Position>, ops: seq<Step>)
    requires |knots| >= 1 && AllTouching(knots)
    ensures AllTouching(Run(knots, ops))
  {
    if ops != [] {
      RunKeepsTouching(knots, ops[..|ops| - 1]);
      ChainStepKeepsTouching(Run(knots, ops[..|ops| - 1]), ops[|ops| - 1]);
    }
  }

  lemma RunAppend(knots: seq<Position>, ops: seq<Step>, op: Step)
    requires |knots| >= 1
    ensures Run(knots, ops + [op]) == ChainStep(Run(knots, ops), op)
    ensures Visited(knots, ops + [op]) == Visited(knots, ops) + {Run(knots, ops + [op])[|knots| - 1]}
  {
    assert (ops + [op])[..|ops|] == ops;
  }

  lemma OpsAppend(moves: seq<Move>, i: nat)
    requires i < |moves|
    ensures Ops(moves[..i + 1]) == Ops(moves[..i]) + ToOpSequence(moves[i])
  {
    assert moves[..i + 1][..i] == moves[..i];
  }

  /** One more step of the current move extends both the run and the set
      of visited cells. */
  lemma Extend(knots: seq<Position>, done: seq<Step>, ops: seq<Step>, j: nat)
    requires |knots| >= 1 && j < |ops|
    ensures Run(knots, done + ops[..j + 1]) == ChainStep(Run(knots, done + ops[..j]), ops[j])
    ensures Visited(knots, done + ops[..j + 1])
         == Visited(knots, done + ops[..j]) + {Run(knots, done + ops[..j + 1])[|knots| - 1]}
  {
    assert done + ops[..j + 1] == (done + ops[..j]) + [ops[j]];
    RunAppend(knots, done + ops[..j], ops[j]);
  }

  /** For a rope of two knots a step moves the head, then the tail follows. */
  lemma TwoKnotStep(head: Position, tail: Position, op: Step)
    ensures ChainStep([head, tail], op) == [Apply(op, head), MoveNext(tail, Apply(op, head))]
  {
  }

  /** Number of cells the tail of a two-knot rope visits. */
  method TailPositions(moves: seq<Move>) returns (count: nat)
    ensures count == |Visited([Origin, Origin], Ops(moves))|
    ensures 1 <= count <= |Ops(moves)| + 1
  {
    var head := Origin;
    var tail := Origin;
    var tailPositions: set<Position> := {tail};
    var i := 0;
    while i < |moves|
      invariant 0 <= i <= |moves|
      invariant [head, tail] == Run([Origin, Origin], Ops(moves[..i]))
      invariant tailPositions == Visited([Origin, Origin], Ops(moves[..i]))
    {
      var ops := ToOpSequence(moves[i]);
      ghost var done := Ops(moves[..i]);
      assert done + ops[..0] == done;
      var j := 0;
      while j < |ops|
        invariant 0 <= j <= |ops|
        invariant [head, tail] == Run([Origin, Origin], done + ops[..j])
        invariant tailPositions == Visited([Origin, Origin], done + ops[..j])
      {
        Extend([Origin, Origin], done, ops, j);
        TwoKnotStep(head, tail, ops[j]);
        head := Apply(ops[j], head);
        tail := MoveNext(tail, head);
        tailPositions := tailPositions + {tail};
        j := j + 1;
      }
      OpsAppend(moves, i);
      assert ops[..j] == ops;
      i := i + 1;
    }
    assert moves[..i] == moves;
    count := |tailPositions|;
    VisitedBounds([Origin, Origin], Ops(moves));
  }

  /** Number of cells the tail of the ten-knot rope visits. */
  method TailPositionsChain(moves: seq<Move>) returns (count: nat)
    ensures count == |Visited(seq(10, _ => Origin), Ops(moves))|
    ensures 1 <= count <= |Ops(moves)| + 1
  {
    var chain := new Chain();
    ghost var start := chain.positions[..];
    assert start == seq(10, _ => Origin);
    var tailPositions: set<Position> := {chain.Tail()};
    var i := 0;
    while i < |moves|
      invariant 0 <= i <= |moves|
      invariant chain.Valid()
      invariant chain.positions[..] == Run(start, Ops(moves[..i]))
      invariant tailPositions == Visited(start, Ops(moves[..i]))
      modifies chain.positions
    {
      var ops := ToOpSequence(moves[i]);
      ghost var done := Ops(moves[..i]);
      assert done + ops[..0] == done;
      var j := 0;
      while j < |ops|
        invariant 0 <= j <= |ops|
        invariant chain.Valid()
        invariant chain.positions[..] == Run(start, done + ops[..j])
        invariant tailPositions == Visited(start, done + ops[..j])
        modifies chain.positions
      {
        Extend(start, done, ops, j);
        chain.MoveChain(ops[j]);
        tailPositions := tailPositions + {chain.Tail()};
        j := j + 1;
      }
      OpsAppend(moves, i);
      assert ops[..j] == ops;
      i := i + 1;
    }
    assert moves[..i] == moves;
    count := |tailPositions|;
    VisitedBounds(start, Ops(moves));
  }

  /** One more unit step of a two-knot rope run from the origin moves the
      head, then drags the tail towards the new head with `MoveNext`. */
  lemma RunTwoKnots(ops: seq<Step>, op: Step, head: Position, tail: Position)
    requires Run([Origin, Origin], ops) == [head, tail]
    ensures Run([Origin, Origin], ops + [op]) == [Apply(op, head), MoveNext(tail, Apply(op, head))]
  {
    RunAppend([Origin, Origin], ops, op);
    TwoKnotStep(head, tail, op);
  }

  /** Moving a two-knot rope straight right from the origin leaves the tail
      one cell behind the head. */
  lemma {:induction false} StraightRun(n: nat)
    requires n >= 1
    ensures Run([Origin, Origin], ToOpSequence(Right(n))) == [Position(n, 0), Position(n - 1, 0)]
  {
    var ops := ToOpSequence(Right(n));
    if n == 1 {
      assert ops == [] + [StepRight];
      assert Run([Origin, Origin], []) == [Origin, Origin];
      RunTwoKnots([], StepRight, Origin, Origin);
    } else {
      StraightRun(n - 1);
      assert ops == ToOpSequence(Right(n - 1)) + [StepRight];
      RunTwoKnots(ToOpSequence(Right(n - 1)), StepRight, Position(n - 1, 0), Position(n - 2, 0));
    }
  }

  lemma SampleSteps()
    ensures Run([Origin, Origin], Ops([Right(4)])) == [Position(4, 0), Position(3, 0)]
  {
    assert [Right(4)][..0] == [];
    assert Ops([Right(4)]) == ToOpSequence(Right(4));
    StraightRun(4);
  }
}
