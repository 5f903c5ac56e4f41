/** Day 8: treetop tree house. A rectangular grid of tree heights; a tree
    is visible from outside when every tree between it and some edge is
    shorter, and its scenic score multiplies how far it sees in the four
    directions. */
module TreetopTreeHouse {
  import opened Wrappers

  /** Smallest 32-bit height: the "maximum" beyond an edge tree. */
  const MinHeight: int := -0x8000_0000

  datatype Direction = North | South | West | East

  /** The height map: `rows` rows of `cols` digits. */
  datatype Forest = Forest(heights: seq<seq<int>>, rows: nat, cols: nat)
  {
    predicate Valid()
    {
      && |heights| == rows
      && (forall r :: 0 <= r < rows ==> |heights[r]| == cols)
      && (forall r, c :: 0 <= r < rows && 0 <= c < cols ==> 0 <= heights[r][c] <= 9)
    }

    function Height(r: nat, c: nat): int
      requires Valid() && r < rows && c < cols
    {
      heights[r][c]
    }
  }

  /** The boundary check of each direction: the tree is on that edge. */
  predicate OnEdge(f: Forest, dir: Direction, r: nat, c: nat)
  {
    match dir
    case North => r == 0
    case South => r == f.rows - 1
    case West => c == 0
    case East => c == f.cols - 1
  }

  /** Number of trees between a cell and the edge in a direction. */
  function DistToEdge(f: Forest, dir: Direction, r: nat, c: nat): (d: nat)
    requires r < f.rows && c < f.cols
    ensures d == 0 <==> OnEdge(f, dir, r, c)
  {
    match dir
    case North => r
    case South => f.rows - 1 - r
    case West => c
    case East => f.cols - 1 - c
  }

  /** One step in a direction; the source subtracts from unsigned
      coordinates, so going north or west needs a nonzero coordinate. */
  function MoveCoordinates(dir: Direction, r: nat, c: nat): (nat, nat)
    requires dir == North ==> r > 0
    requires dir == West ==> c > 0
  {
    match dir
    case North => (r - 1, c)
    case South => (r + 1, c)
    case East => (r, c + 1)
    case West => (r, c - 1)
  }

  /** The neighbour of a cell that is not on the edge. */
  function Next(f: Forest, dir: Direction, r: nat, c: nat): (p: (nat, nat))
    requires r < f.rows && c < f.cols && !OnEdge(f, dir, r, c)
    ensures p.0 < f.rows && p.1 < f.cols
    ensures DistToEdge(f, dir, p.0, p.1) + 1 == DistToEdge(f, dir, r, c)
  {
    MoveCoordinates(dir, r, c)
  }

  /** The cell `k` steps from (r, c) in a direction. */
  function At(f: Forest, dir: Direction, r: nat, c: nat, k: nat): (p: (nat, nat))
    requires r < f.rows && c < f.cols && k <= DistToEdge(f, dir, r, c)
    ensures p.0 < f.rows && p.1 < f.cols
  {
    match dir
    case North => (r - k, c)
    case South => (r + k, c)
    case West => (r, c - k)
    case East => (r, c + k)
  }

  function Max(a: int, b: int): int
  {
    if a >= b then a else b
  }

  /** The tallest tree strictly beyond a cell in a direction, or MinHeight on
      that edge. */
  function MaxBeyond(f: Forest, r: nat, c: nat, dir: Direction): int
    requires f.Valid() && r < f.rows && c < f.cols
    decreases DistToEdge(f, dir, r, c)
  {
    if OnEdge(f, dir, r, c) then MinHeight
    else
      var (tr, tc) := Next(f, dir, r, c);
      Max(f.Height(tr, tc), MaxBeyond(f, tr, tc, dir))
  }

  /** MaxBeyond is the maximum of the trees between the cell and the edge:
      no tree there is taller, and unless the cell is on the edge one of them
      reaches it. */
  lemma {:induction false} MaxBeyondIsMax(f: Forest, r: nat, c: nat, dir: Direction)
    requires f.Valid() && r < f.rows && c < f.cols
    ensures forall k :: 1 <= k <= DistToEdge(f, dir, r, c) ==>
      f.Height(At(f, dir, r, c, k).0, At(f, dir, r, c, k).1) <= MaxBeyond(f, r, c, dir)
    ensures OnEdge(f, dir, r, c) <==> MaxBeyond(f, r, c, dir) == MinHeight
    ensures !OnEdge(f, dir, r, c) ==>
      exists k :: 1 <= k <= DistToEdge(f, dir, r, c) && f.Height(At(f, dir, r, c, k).0, At(f, dir, r, c, k).1) == MaxBeyond(f, r, c, dir)
    decreases DistToEdge(f, dir, r, c)
  {
    if !OnEdge(f, dir, r, c) {
      var (tr, tc) := Next(f, dir, r, c);
      MaxBeyondIsMax(f, tr, tc, dir);
      AtNext(f, dir, r, c);
      forall k | 1 <= k <= DistToEdge(f, dir, r, c)
        ensures f.Height(At(f, dir, r, c, k).0, At(f, dir, r, c, k).1) <= MaxBeyond(f, r, c, dir)
      {
        if k > 1 {
          assert At(f, dir, r, c, k) == At(f, dir, tr, tc, k - 1);
        }
      }
      if MaxBeyond(f, r, c, dir) == f.Height(tr, tc) {
        assert At(f, dir, r, c, 1) == (tr, tc);
      } else {
        var k :| 1 <= k <= DistToEdge(f, dir, tr, tc) &&
          f.Height(At(f, dir, tr, tc, k).0, At(f, dir, tr, tc, k).1) == MaxBeyond(f, tr, tc, dir);
        assert At(f, dir, r, c, k + 1) == At(f, dir, tr, tc, k);
      }
    }
  }

  /** Walking k+1 steps is one step then k steps. */
  lemma AtNext(f: Forest, dir: Direction, r: nat, c: nat)
    requires r < f.rows && c < f.cols && !OnEdge(f, dir, r, c)
    ensures At(f, dir, r, c, 1) == Next(f, dir, r, c)
    ensures var (tr, tc) := Next(f, dir, r, c);
      forall k :: 0 <= k <= DistToEdge(f, dir, tr, tc) ==> At(f, dir, r, c, k + 1) == At(f, dir, tr, tc, k)
  {
  }

  /** The four running maxima stored for one cell. */
  datatype MaxByDirection = MaxByDirection(north: Option<int>, south: Option<int>, west: Option<int>, east: Option<int>)
  {
    function Get(dir: Direction): Option<int>
    {
      match dir
      case North => north
      case South => south
      case West => west
      case East => east
    }

    function Update(dir: Direction, value: int): (m: MaxByDirection)
      ensures m.Get(dir) == Some(value)
      ensures forall d :: d != dir ==> m.Get(d) == Get(d)
    {
      match dir
      case North => this.(north := Some(value))
      case South => this.(south := Some(value))
      case West => this.(west := Some(value))
      case East => this.(east := Some(value))
    }

    /** A tree is visible when it is taller than the maximum of some
        direction; all four maxima must be present. */
    function CheckVisible(height: int): bool
      requires north.Some? && south.Some? && west.Some? && east.Some?
    {
      height > north.value || height > south.value || height > west.value || height > east.value
    }
  }

  const Unknown := MaxByDirection(None, None, None, None)

  /** Fills the maximum of one direction at one cell, from the neighbour's
      already known maximum, unless it is known already. */
  method Update(m: array2<MaxByDirection>, f: Forest, row: nat, col: nat, dir: Direction)
    requires f.Valid() && m.Length0 == f.rows && m.Length1 == f.cols && row < f.rows && col < f.cols
    requires !OnEdge(f, dir, row, col) ==>
      var (tr, tc) := Next(f, dir, row, col);
      m[tr, tc].Get(dir) == Some(MaxBeyond(f, tr, tc, dir))
    modifies m
    ensures m[row, col] == if old(m[row, col].Get(dir)).None? then old(m[row, col]).Update(dir, MaxBeyond(f, row, col, dir)) else old(m[row, col])
    ensures forall r, c :: 0 <= r < f.rows && 0 <= c < f.cols && (r != row || c != col) ==> m[r, c] == old(m[r, c])
  {
    if m[row, col].Get(dir).None? {
      var updated: int;
      if OnEdge(f, dir, row, col) {
        updated := MinHeight;
      } else {
        var (tr, tc) := Next(f, dir, row, col);
        var previous := m[tr, tc].Get(dir);
        assert previous.Some?;
        updated := Max(f.heights[tr][tc], previous.value);
      }
      m[row, col] := m[row, col].Update(dir, updated);
    }
  }

  predicate Before(r: int, c: int, row: int, col: int)
  {
    r < row || (r == row && c < col)
  }

  /** Whether the maximum of direction `d` at (r, c) is known once the scan
      has done `phase` of the four updates of position (row, col): north and
      west are known for the cells before (row, col) in reading order, south
      and east for the cells before it in reverse reading order. */
  predicate Known(f: Forest, r: nat, c: nat, d: Direction, row: nat, col: nat, phase: nat)
  {
    match d
    case North => Before(r, c, row, col) || (phase > 0 && r == row && c == col)
    case West => Before(r, c, row, col) || (phase > 1 && r == row && c == col)
    case South => Before(f.rows - 1 - r, f.cols - 1 - c, row, col) || (phase > 2 && r == f.rows - 1 - row && c == f.cols - 1 - col)
    case East => Before(f.rows - 1 - r, f.cols - 1 - c, row, col) || (phase > 3 && r == f.rows - 1 - row && c == f.cols - 1 - col)
  }

  /** The maximum of direction d at (r, c) if it is known at that point of
      the scan. */
  function KnownMax(f: Forest, r: nat, c: nat, d: Direction, row: nat, col: nat, phase: nat): Option<int>
    requires f.Valid() && r < f.rows && c < f.cols
  {
    if Known(f, r, c, d, row, col, phase) then Some(MaxBeyond(f, r, c, d)) else None
  }

  /** The entry of (r, c) at that point of the scan. */
  function ScanCell(f: Forest, r: nat, c: nat, row: nat, col: nat, phase: nat): MaxByDirection
    requires f.Valid() && r < f.rows && c < f.cols
  {
    MaxByDirection(KnownMax(f, r, c, North, row, col, phase), KnownMax(f, r, c, South, row, col, phase),
                   KnownMax(f, r, c, West, row, col, phase), KnownMax(f, r, c, East, row, col, phase))
  }

  predicate ScanState(m: array2<MaxByDirection>, f: Forest, row: nat, col: nat, phase: nat)
    requires f.Valid() && m.Length0 == f.rows && m.Length1 == f.cols
    reads m
  {
    forall r, c :: 0 <= r < f.rows && 0 <= c < f.cols ==> m[r, c] == ScanCell(f, r, c, row, col, phase)
  }

  /** Builds the map of the four maxima of every cell, scanning forward for
      north and west and backward for south and east, so that a neighbour's
      maximum is always known before it is used. */
  method MakeMaxMap(f: Forest) returns (m: array2<MaxByDirection>)
    requires f.Valid()
    ensures m.Length0 == f.rows && m.Length1 == f.cols
    ensures forall r, c, d :: 0 <= r < f.rows && 0 <= c < f.cols ==> m[r, c].Get(d) == Some(MaxBeyond(f, r, c, d))
    ensures fresh(m)
  {
    m := new MaxByDirection[f.rows, f.cols]((_, _) => Unknown);
    var row := 0;
    while row < f.rows
      invariant 0 <= row <= f.rows
      invariant ScanState(m, f, row, 0, 0)
    {
      ScanRow(m, f, row);
      NextRow(m, f, row);
      row := row + 1;
    }
    forall r, c, d | 0 <= r < f.rows && 0 <= c < f.cols
      ensures m[r, c].Get(d) == Some(MaxBeyond(f, r, c, d))
    {
      assert m[r, c] == ScanCell(f, r, c, f.rows, 0, 0);
      assert Known(f, r, c, d, f.rows, 0, 0);
    }
  }

  /** The inner loop of `MakeMaxMap`: the four updates of each position of
      one row of the scan. */
  method ScanRow(m: array2<MaxByDirection>, f: Forest, row: nat)
    requires f.Valid() && m.Length0 == f.rows && m.Length1 == f.cols && row < f.rows
    requires ScanState(m, f, row, 0, 0)
    modifies m
    ensures ScanState(m, f, row, f.cols, 0)
  {
    var col := 0;
    while col < f.cols
      invariant 0 <= col <= f.cols
      invariant ScanState(m, f, row, col, 0)
    {
      var rr := f.rows - 1 - row;
      var rc := f.cols - 1 - col;
      UpdatePhase(m, f, row, col, 0, row, col, North);
      UpdatePhase(m, f, row, col, 1, row, col, West);
      UpdatePhase(m, f, row, col, 2, rr, rc, South);
      UpdatePhase(m, f, row, col, 3, rr, rc, East);
      NextPosition(m, f, row, col);
      col := col + 1;
    }
  }

  /** One of the four updates of a scan position: the neighbour it reads
      is already known and the entry it fills is not. */
  method UpdatePhase(m: array2<MaxByDirection>, f: Forest, row: nat, col: nat, phase: nat, r: nat, c: nat, dir: Direction)
    requires f.Valid() && m.Length0 == f.rows && m.Length1 == f.cols && row < f.rows && col < f.cols
    requires phase < 4
    requires dir == [North, West, South, East][phase]
    requires phase < 2 ==> r == row && c == col
    requires phase >= 2 ==> r == f.rows - 1 - row && c == f.cols - 1 - col
    requires ScanState(m, f, row, col, phase)
    modifies m
    ensures ScanState(m, f, row, col, phase + 1)
  {
    PhaseKnown(f, row, col, phase, r, c, dir);
    assert m[r, c] == ScanCell(f, r, c, row, col, phase);
    Update(m, f, r, c, dir);
    forall r', c' | 0 <= r' < f.rows && 0 <= c' < f.cols
      ensures m[r', c'] == ScanCell(f, r', c', row, col, phase + 1)
    {
      if r' != r || c' != c {
        PhaseKeeps(f, row, col, phase, r, c, r', c');
        assert m[r', c'] == old(m[r', c']);
      }
    }
  }

  /** The update of a phase reads a known entry, fills an unknown one, and
      makes exactly that entry known. */
  lemma PhaseKnown(f: Forest, row: nat, col: nat, phase: nat, r: nat, c: nat, dir: Direction)
    requires f.Valid() && row < f.rows && col < f.cols
    requires phase < 4
    requires dir == [North, West, South, East][phase]
    requires phase < 2 ==> r == row && c == col
    requires phase >= 2 ==> r == f.rows - 1 - row && c == f.cols - 1 - col
    ensures r < f.rows && c < f.cols
    ensures ScanCell(f, r, c, row, col, phase).Get(dir).None?
    ensures ScanCell(f, r, c, row, col, phase + 1) == ScanCell(f, r, c, row, col, phase).Update(dir, MaxBeyond(f, r, c, dir))
    ensures !OnEdge(f, dir, r, c) ==> Known(f, Next(f, dir, r, c).0, Next(f, dir, r, c).1, dir, row, col, phase)
  {
  }

  /** The update of a phase leaves what is known at every other cell. */
  lemma PhaseKeeps(f: Forest, row: nat, col: nat, phase: nat, r: nat, c: nat, r': nat, c': nat)
    requires f.Valid() && row < f.rows && col < f.cols && phase < 4
    requires phase < 2 ==> r == row && c == col
    requires phase >= 2 ==> r == f.rows - 1 - row && c == f.cols - 1 - col
    requires r' < f.rows && c' < f.cols && (r' != r || c' != c)
    ensures ScanCell(f, r', c', row, col, phase + 1) == ScanCell(f, r', c', row, col, phase)
  {
  }

  lemma NextPosition(m: array2<MaxByDirection>, f: Forest, row: nat, col: nat)
    requires f.Valid() && m.Length0 == f.rows && m.Length1 == f.cols && row < f.rows && col < f.cols
    requires ScanState(m, f, row, col, 4)
    ensures ScanState(m, f, row, col + 1, 0)
  {
    forall r, c | 0 <= r < f.rows && 0 <= c < f.cols
      ensures ScanCell(f, r, c, row, col, 4) == ScanCell(f, r, c, row, col + 1, 0)
    {
      forall d ensures Known(f, r, c, d, row, col, 4) == Known(f, r, c, d, row, col + 1, 0) {}
    }
  }

  lemma NextRow(m: array2<MaxByDirection>, f: Forest, row: nat)
    requires f.Valid() && m.Length0 == f.rows && m.Length1 == f.cols && row < f.rows
    requires ScanState(m, f, row, f.cols, 0)
    ensures ScanState(m, f, row + 1, 0, 0)
  {
    forall r, c | 0 <= r < f.rows && 0 <= c < f.cols
      ensures ScanCell(f, r, c, row, f.cols, 0) == ScanCell(f, r, c, row + 1, 0, 0)
    {
      forall d ensures Known(f, r, c, d, row, f.cols, 0) == Known(f, r, c, d, row + 1, 0, 0) {}
    }
  }

  // ------------------------------------------------------------ visibility

  /** A tree is visible when it is taller than the tallest tree beyond it in
      at least one direction. */
  predicate IsVisible(f: Forest, r: nat, c: nat)
    requires f.Valid() && r < f.rows && c < f.cols
  {
    var h := f.Height(r, c);
    h > MaxBeyond(f, r, c, North) || h > MaxBeyond(f, r, c, South)
    || h > MaxBeyond(f, r, c, West) || h > MaxBeyond(f, r, c, East)
  }

  /** Every tree between (r, c) and the edge in `dir` is shorter than it. */
  predicate ClearView(f: Forest, r: nat, c: nat, dir: Direction)
    requires f.Valid() && r < f.rows && c < f.cols
  {
    forall k :: 1 <= k <= DistToEdge(f, dir, r, c) ==>
      f.Height(At(f, dir, r, c, k).0, At(f, dir, r, c, k).1) < f.Height(r, c)
  }

  /** Visibility as the puzzle states it: some direction where all trees up
      to the edge are shorter. In particular every edge tree is visible. */
  lemma VisibleIff(f: Forest, r: nat, c: nat)
    requires f.Valid() && r < f.rows && c < f.cols
    ensures IsVisible(f, r, c) <==> exists d :: ClearView(f, r, c, d)
    ensures (exists d :: OnEdge(f, d, r, c)) ==> IsVisible(f, r, c)
  {
    forall d ensures ClearView(f, r, c, d) <==> f.Height(r, c) > MaxBeyond(f, r, c, d) {
      MaxBeyondIsMax(f, r, c, d);
    }
    if exists d :: OnEdge(f, d, r, c) {
      var d :| OnEdge(f, d, r, c);
      MaxBeyondIsMax(f, r, c, d);
    }
  }

  /** Number of visible trees among the first `n` of row `r`. */
  function VisibleInRow(f: Forest, r: nat, n: nat): (k: nat)
    requires f.Valid() && r < f.rows && n <= f.cols
    ensures k <= n
  {
    if n == 0 then 0 else VisibleInRow(f, r, n - 1) + (if IsVisible(f, r, n - 1) then 1 else 0)
  }

  /** Number of visible trees in the first `n` rows. */
  function VisibleCount(f: Forest, n: nat): nat
    requires f.Valid() && n <= f.rows
  {
    if n == 0 then 0 else VisibleCount(f, n - 1) + VisibleInRow(f, n - 1, f.cols)
  }

  /** At most every tree of the first n rows is visible. */
  lemma {:induction false} VisibleCountBound(f: Forest, n: nat)
    requires f.Valid() && n <= f.rows
    ensures VisibleCount(f, n) <= n * f.cols
  {
    if n > 0 {
      VisibleCountBound(f, n - 1);
      assert n * f.cols == (n - 1) * f.cols + f.cols;
    }
  }

  /** Counts the visible trees, reading each cell's four maxima from the max
      map. */
  method CountVisible(f: Forest) returns (count: nat)
    requires f.Valid()
    ensures count == VisibleCount(f, f.rows)
  {
    var maxMap := MakeMaxMap(f);
    assert MaxMapOk(f, maxMap);
    count := 0;
    var r := 0;
    while r < f.rows
      modifies {}
      invariant 0 <= r <= f.rows && MaxMapOk(f, maxMap)
      invariant count == VisibleCount(f, r)
    {
      var inRow := CountRow(f, maxMap, r);
      count := count + inRow;
      r := r + 1;
    }
  }

  /** Every cell of the max map holds the four maxima beyond it. */
  ghost predicate MaxMapOk(f: Forest, maxMap: array2<MaxByDirection>)
    requires f.Valid()
    reads maxMap
  {
    && maxMap.Length0 == f.rows && maxMap.Length1 == f.cols
    && forall r, c, d :: 0 <= r < f.rows && 0 <= c < f.cols ==> maxMap[r, c].Get(d) == Some(MaxBeyond(f, r, c, d))
  }

  /** The visible trees of row r, read from a complete max map. */
  method CountRow(f: Forest, maxMap: array2<MaxByDirection>, r: nat) returns (inRow: nat)
    requires f.Valid() && r < f.rows
    requires MaxMapOk(f, maxMap)
    ensures inRow == VisibleInRow(f, r, f.cols)
  {
    var c := 0;
    inRow := 0;
    while c < f.cols
      invariant 0 <= c <= f.cols
      invariant inRow == VisibleInRow(f, r, c)
    {
      assert maxMap[r, c].Get(North) == Some(MaxBeyond(f, r, c, North));
      assert maxMap[r, c].Get(South) == Some(MaxBeyond(f, r, c, South));
      assert maxMap[r, c].Get(West) == Some(MaxBeyond(f, r, c, West));
      assert maxMap[r, c].Get(East) == Some(MaxBeyond(f, r, c, East));
      if maxMap[r, c].CheckVisible(f.heights[r][c]) {
        inRow := inRow + 1;
      }
      c := c + 1;
    }
  }

  // --------------------------------------------------------- scenic score

  /** How many trees a tree of height `h` sees from the tree at (r, c) on:
      that one, and further on while the trees are shorter than `h` and the
      edge is not reached. */
  function Seen(f: Forest, h: int, dir: Direction, r: nat, c: nat): nat
    requires f.Valid() && r < f.rows && c < f.cols
    decreases DistToEdge(f, dir, r, c)
  {
    if OnEdge(f, dir, r, c) || h <= f.Height(r, c) then 1
    else var (tr, tc) := Next(f, dir, r, c); 1 + Seen(f, h, dir, tr, tc)
  }

  /** Viewing distance: 0 on the edge in that direction, otherwise the trees
      seen starting from the neighbour. */
  function ScenicDistance(f: Forest, r: nat, c: nat, dir: Direction): nat
    requires f.Valid() && r < f.rows && c < f.cols
  {
    if OnEdge(f, dir, r, c) then 0
    else var (tr, tc) := Next(f, dir, r, c); Seen(f, f.Height(r, c), dir, tr, tc)
  }

  lemma {:induction false} SeenSpec(f: Forest, h: int, dir: Direction, r: nat, c: nat)
    requires f.Valid() && r < f.rows && c < f.cols
    ensures 1 <= Seen(f, h, dir, r, c) <= DistToEdge(f, dir, r, c) + 1
    ensures forall k :: 0 <= k < Seen(f, h, dir, r, c) - 1 ==>
      f.Height(At(f, dir, r, c, k).0, At(f, dir, r, c, k).1) < h
    decreases DistToEdge(f, dir, r, c)
  {
    if !(OnEdge(f, dir, r, c) || h <= f.Height(r, c)) {
      var (tr, tc) := Next(f, dir, r, c);
      SeenSpec(f, h, dir, tr, tc);
      AtNext(f, dir, r, c);
      forall k | 0 <= k < Seen(f, h, dir, r, c) - 1
        ensures f.Height(At(f, dir, r, c, k).0, At(f, dir, r, c, k).1) < h
      {
        if k > 0 {
          assert At(f, dir, r, c, k) == At(f, dir, tr, tc, k - 1);
        }
      }
    }
  }

  /** When the view stops before the edge, the last tree seen is at least
      as tall as `h`. */
  lemma {:induction false} SeenBlocked(f: Forest, h: int, dir: Direction, r: nat, c: nat)
    requires f.Valid() && r < f.rows && c < f.cols
    requires Seen(f, h, dir, r, c) <= DistToEdge(f, dir, r, c)
    ensures var last := At(f, dir, r, c, Seen(f, h, dir, r, c) - 1);
      f.Height(last.0, last.1) >= h
    decreases DistToEdge(f, dir, r, c)
  {
    if !(OnEdge(f, dir, r, c) || h <= f.Height(r, c)) {
      var (tr, tc) := Next(f, dir, r, c);
      var rest := Seen(f, h, dir, tr, tc);
      assert Seen(f, h, dir, r, c) == 1 + rest;
      SeenBlocked(f, h, dir, tr, tc);
      AtNext(f, dir, r, c);
      assert At(f, dir, r, c, rest) == At(f, dir, tr, tc, rest - 1);
    }
  }

  /** The viewing distance counts the trees up to and including the first
      one at least as tall, or up to the edge; it is 0 exactly on the edge. */
  lemma ScenicDistanceSpec(f: Forest, r: nat, c: nat, dir: Direction)
    requires f.Valid() && r < f.rows && c < f.cols
    ensures var d := ScenicDistance(f, r, c, dir);
      && d <= DistToEdge(f, dir, r, c)
      && (d == 0 <==> OnEdge(f, dir, r, c))
      && (forall k :: 1 <= k < d ==> f.Height(At(f, dir, r, c, k).0, At(f, dir, r, c, k).1) < f.Height(r, c))
      && (0 < d < DistToEdge(f, dir, r, c) ==> f.Height(At(f, dir, r, c, d).0, At(f, dir, r, c, d).1) >= f.Height(r, c))
  {
    if !OnEdge(f, dir, r, c) {
      var (tr, tc) := Next(f, dir, r, c);
      SeenSpec(f, f.Height(r, c), dir, tr, tc);
      if ScenicDistance(f, r, c, dir) < DistToEdge(f, dir, r, c) {
        SeenBlocked(f, f.Height(r, c), dir, tr, tc);
      }
      AtNext(f, dir, r, c);
      forall k | 1 <= k < ScenicDistance(f, r, c, dir)
        ensures f.Height(At(f, dir, r, c, k).0, At(f, dir, r, c, k).1) < f.Height(r, c)
      {
        assert At(f, dir, r, c, k) == At(f, dir, tr, tc, k - 1);
      }
    }
  }

  /** Walks away from the tree until the edge or a tree at least as tall. */
  method CalculateScenicDistance(f: Forest, r: nat, c: nat, dir: Direction) returns (dist: nat)
    requires f.Valid() && r < f.rows && c < f.cols
    ensures dist == ScenicDistance(f, r, c, dir)
  {
    var height := f.heights[r][c];
    if OnEdge(f, dir, r, c) {
      return 0;
    }
    dist := 1;
    var (tr, tc) := Next(f, dir, r, c);
    while !OnEdge(f, dir, tr, tc) && height > f.Height(tr, tc)
      invariant tr < f.rows && tc < f.cols
      invariant dist + Seen(f, height, dir, tr, tc) == ScenicDistance(f, r, c, dir) + 1
      decreases DistToEdge(f, dir, tr, tc)
    {
      dist := dist + 1;
      tr, tc := Next(f, dir, tr, tc).0, Next(f, dir, tr, tc).1;
    }
  }

  /** The scenic score: the product of the four viewing distances. */
  function ScenicScore(f: Forest, r: nat, c: nat): nat
    requires f.Valid() && r < f.rows && c < f.cols
  {
    Product(Product(Product(ScenicDistance(f, r, c, North), ScenicDistance(f, r, c, South)),
                    ScenicDistance(f, r, c, East)), ScenicDistance(f, r, c, West))
  }

  function Product(a: nat, b: nat): nat
  {
    a * b
  }

  /** A tree on the border sees nothing in one direction, so it scores 0. */
  lemma EdgeScoresZero(f: Forest, r: nat, c: nat, dir: Direction)
    requires f.Valid() && r < f.rows && c < f.cols && OnEdge(f, dir, r, c)
    ensures ScenicScore(f, r, c) == 0
  {
    assert ScenicDistance(f, r, c, dir) == 0;
  }

  method CalculateScenicScore(f: Forest, r: nat, c: nat) returns (score: nat)
    requires f.Valid() && r < f.rows && c < f.cols
    ensures score == ScenicScore(f, r, c)
  {
    var n := CalculateScenicDistance(f, r, c, North);
    var s := CalculateScenicDistance(f, r, c, South);
    var e := CalculateScenicDistance(f, r, c, East);
    var w := CalculateScenicDistance(f, r, c, West);
    score := 1;
    score := score * n;
    score := score * s;
    score := score * e;
    score := score * w;
  }

  /** The highest scenic score of the grid, 0 for an empty grid. */
  method MaxScenicScore(f: Forest) returns (best: nat)
    requires f.Valid()
    ensures forall r, c :: 0 <= r < f.rows && 0 <= c < f.cols ==> ScenicScore(f, r, c) <= best
    ensures f.rows > 0 && f.cols > 0 ==> exists r, c :: 0 <= r < f.rows && 0 <= c < f.cols && ScenicScore(f, r, c) == best
    ensures f.rows == 0 || f.cols == 0 ==> best == 0
  {
    best := 0;
    var i := 0;
    while i < f.rows
      invariant 0 <= i <= f.rows
      invariant forall r, c :: 0 <= r < i && 0 <= c < f.cols ==> ScenicScore(f, r, c) <= best
      invariant best == 0 || exists r, c :: 0 <= r < f.rows && 0 <= c < f.cols && ScenicScore(f, r, c) == best
    {
      var j := 0;
      while j < f.cols
        invariant 0 <= j <= f.cols
        invariant forall r, c :: (0 <= r < i && 0 <= c < f.cols) || (r == i && 0 <= c < j) ==> ScenicScore(f, r, c) <= best
        invariant best == 0 || exists r, c :: 0 <= r < f.rows && 0 <= c < f.cols && ScenicScore(f, r, c) == best
      {
        var score := CalculateScenicScore(f, i, j);
        if score > best {
          best := score;
        }
        j := j + 1;
      }
      i := i + 1;
    }
    if f.rows > 0 && f.cols > 0 && best == 0 {
      assert ScenicScore(f, 0, 0) == 0 by {
        EdgeScoresZero(f, 0, 0, North);
      }
    }
  }

  /** The sample grid. */
  function Sample(): Forest
  {
    Forest([[3, 0, 3, 7, 3], [2, 5, 5, 1, 2], [6, 5, 3, 3, 2], [3, 3, 5, 4, 9], [3, 5, 3, 9, 0]], 5, 5)
  }

  /** On the sample, the tree at row 1, column 2 scores 4 and the one at row
      3, column 2 scores 8. */
  lemma SampleScores()
    ensures Sample().Valid()
    ensures ScenicScore(Sample(), 1, 2) == 4 && ScenicScore(Sample(), 3, 2) == 8
  {
  }

  /** On the sample, the maxima of the cell at row 1, column 1 are 0, 5, 2
      and 5 to the north, south, west and east. */
  lemma SampleMaxima()
    ensures Sample().Valid()
    ensures MaxBeyond(Sample(), 1, 1, North) == 0 && MaxBeyond(Sample(), 1, 1, South) == 5
    ensures MaxBeyond(Sample(), 1, 1, West) == 2 && MaxBeyond(Sample(), 1, 1, East) == 5
  {
  }

  /** Every tree of a border row is visible. */
  lemma EdgeRowVisible(f: Forest, r: nat, dir: Direction)
    requires f.Valid() && r < f.rows && (dir == North || dir == South) && OnEdge(f, dir, r, 0)
    ensures VisibleInRow(f, r, f.cols) == f.cols
  {
    var n := 0;
    while n < f.cols
      invariant n <= f.cols && VisibleInRow(f, r, n) == n
    {
      VisibleIff(f, r, n);
      n := n + 1;
    }
  }
}
