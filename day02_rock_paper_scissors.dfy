/** Day 2: rock-paper-scissors scoring. Part 1 reads both columns as shapes;
    part 2 reads the second column as the wanted outcome and picks a shape. */
module RockPaperScissors {
  import opened Wrappers

  datatype Shape = Rock | Paper | Scissors

  datatype Outcome = Win | Lose | Draw

  /** Letter decoding of a shape: A or X is Rock, B or Y Paper, C or Z
      Scissors; any other text is unreachable in the source (a panic). */
  function DecodeShape(s: string): (r: Option<Shape>)
    ensures r == Some(Rock) <==> s == "A" || s == "X"
    ensures r == Some(Paper) <==> s == "B" || s == "Y"
    ensures r == Some(Scissors) <==> s == "C" || s == "Z"
  {
    if s == "A" || s == "X" then Some(Rock)
    else if s == "B" || s == "Y" then Some(Paper)
    else if s == "C" || s == "Z" then Some(Scissors)
    else None
  }

  /** Letter decoding of an outcome: X is Lose, Y Draw, Z Win. */
  function DecodeOutcome(s: string): (r: Option<Outcome>)
    ensures r == Some(Lose) <==> s == "X"
    ensures r == Some(Draw) <==> s == "Y"
    ensures r == Some(Win) <==> s == "Z"
  {
    if s == "X" then Some(Lose)
    else if s == "Y" then Some(Draw)
    else if s == "Z" then Some(Win)
    else None
  }

  /** The shape this one defeats. */
  function Beats(s: Shape): Shape
  {
    match s
    case Rock => Scissors
    case Paper => Rock
    case Scissors => Paper
  }

  /** The shape that defeats this one. */
  function IsBeatBy(s: Shape): Shape
  {
    match s
    case Rock => Paper
    case Paper => Scissors
    case Scissors => Rock
  }

  /** The outcome for `me` against `other`: the beats test comes first, then
      equality, and everything else loses. */
  function Fight(me: Shape, other: Shape): (r: Outcome)
    ensures r == Win <==> Beats(me) == other
    ensures r == Draw <==> me == other
    ensures r == Lose <==> IsBeatBy(me) == other
  {
    if Beats(me) == other then Win
    else if me == other then Draw
    else Lose
  }

  function ShapeScore(s: Shape): (n: nat)
    ensures 1 <= n <= 3
  {
    match s
    case Rock => 1
    case Paper => 2
    case Scissors => 3
  }

  function OutcomeScore(o: Outcome): (n: nat)
    ensures n % 3 == 0 && n <= 6
  {
    match o
    case Win => 6
    case Draw => 3
    case Lose => 0
  }

  /** Score of one round: shape score plus outcome score. */
  function Play(me: Shape, other: Shape): (n: nat)
    ensures 1 <= n <= 9
    ensures n % 3 == ShapeScore(me) % 3
  {
    ShapeScore(me) + OutcomeScore(Fight(me, other))
  }

  /** The shape that yields `outcome` against `other`. */
  function Strategy(other: Shape, outcome: Outcome): (r: Shape)
    ensures Fight(r, other) == outcome
  {
    match outcome
    case Draw => other
    case Lose => Beats(other)
    case Win => IsBeatBy(other)
  }

  /** Beats and IsBeatBy undo each other, and neither returns its argument. */
  lemma BeatsInverse(s: Shape)
    ensures IsBeatBy(Beats(s)) == s && Beats(IsBeatBy(s)) == s
    ensures Beats(s) != s && IsBeatBy(s) != s
  {
  }

  /** Exactly one shape gives each outcome, so `Strategy` is the only answer. */
  lemma StrategyUnique(other: Shape, outcome: Outcome, me: Shape)
    ensures Fight(me, other) == outcome <==> me == Strategy(other, outcome)
  {
  }

  /** The table of round scores, me in Rock, Paper, Scissors order against
      other in the same order: 4, 1, 7, 8, 5, 2, 3, 9, 6. */
  lemma PlayTable()
    ensures [Play(Rock, Rock), Play(Rock, Paper), Play(Rock, Scissors),
             Play(Paper, Rock), Play(Paper, Paper), Play(Paper, Scissors),
             Play(Scissors, Rock), Play(Scissors, Paper), Play(Scissors, Scissors)]
         == [4, 1, 7, 8, 5, 2, 3, 9, 6]
  {
  }

  /** The strategy table for Win, Draw, Lose against Rock, Paper, Scissors. */
  lemma StrategyTable()
    ensures [Strategy(Rock, Win), Strategy(Paper, Win), Strategy(Scissors, Win),
             Strategy(Rock, Draw), Strategy(Paper, Draw), Strategy(Scissors, Draw),
             Strategy(Rock, Lose), Strategy(Paper, Lose), Strategy(Scissors, Lose)]
         == [Paper, Scissors, Rock, Rock, Paper, Scissors, Scissors, Rock, Paper]
  {
  }
}
