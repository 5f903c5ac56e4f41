/** Day 5: supply stacks. The drawing of crate piles is parsed column by
    column, then a crane moves crates between piles, either one at a time
    (reversing their order) or as a whole stack (keeping it). */
module SupplyStacks {
  import opened Wrappers

  /** A pile lists its crates bottom first; its last element is the top. */
  type Pile = seq<char>

  /** `move nb from from to to`, with 1-based pile numbers. */
  datatype Move = Move(nb: nat, from: nat, to: nat)

  /** The two cranes of the puzzle: one crate at a time, or the whole stack. */
  datatype Crane = OneByOne | ByStack

  predicate IsDigit(c: char) { '0' <= c <= '9' }

  /** The 3-character chunk of column `k` (0-based) of a drawing line, shorter
      at the end of the line. */
  function Chunk(line: string, k: nat): string
    requires 4 * k < |line|
  {
    line[4 * k .. if 4 * k + 3 <= |line| then 4 * k + 3 else |line|]
  }

  /** Number of 4-character columns a drawing line is read in. */
  function ColumnCount(line: string): nat
  {
    (|line| + 3) / 4
  }

  /** The crate named by a chunk: `[X]` with X an upper-case letter. */
  function CrateIn(chunk: string): Option<char>
  {
    if |chunk| == 3 && chunk[0] == '[' && chunk[2] == ']' && 'A' <= chunk[1] <= 'Z' then Some(chunk[1]) else None
  }

  /** The crate of column `k` in a line, if any. */
  function CrateAt(line: string, k: nat): Option<char>
  {
    if 4 * k < |line| then CrateIn(Chunk(line, k)) else None
  }

  /** Pile `k` as read from drawing lines top to bottom: each line's crate is
      pushed to the front, so the last line read is the bottom. */
  function PileOf(rows: seq<string>, k: nat): Pile
  {
    if rows == [] then []
    else
      var below := PileOf(rows[..|rows| - 1], k);
      match CrateAt(rows[|rows| - 1], k)
      case Some(c) => [c] + below
      case None => below
  }

  /** Number of piles a set of drawing lines creates: its widest line's columns. */
  function PileCount(rows: seq<string>): nat
  {
    if rows == [] then 0
    else
      var before := PileCount(rows[..|rows| - 1]);
      var here := ColumnCount(rows[|rows| - 1]);
      if here > before then here else before
  }

  /** Index of the first line holding a digit (the pile numbers), or |lines|. */
  function HeaderEnd(lines: seq<string>): (n: nat)
    ensures n <= |lines|
    ensures forall i :: 0 <= i < n ==> forall c :: c in lines[i] ==> !IsDigit(c)
    ensures n < |lines| ==> exists c :: c in lines[n] && IsDigit(c)
  {
    if lines == [] then 0
    else if exists c :: c in lines[0] && IsDigit(c) then 0
    else 1 + HeaderEnd(lines[1..])
  }

  method ContainsDigit(line: string) returns (b: bool)
    ensures b <==> exists c :: c in line && IsDigit(c)
  {
    b := false;
    var j := 0;
    while j < |line|
      invariant 0 <= j <= |line|
      invariant b <==> exists c :: c in line[..j] && IsDigit(c)
    {
      assert line[..j + 1] == line[..j] + [line[j]];
      b := b || IsDigit(line[j]);
      j := j + 1;
    }
    assert line[..j] == line;
  }

  /** Reads one drawing line into the piles: every 3-character chunk, then one
      skipped separator; a new pile is opened for each column not seen yet. */
  method ReadDrawingLine(piles: seq<Pile>, line: string) returns (r: seq<Pile>)
    ensures |r| == if ColumnCount(line) > |piles| then ColumnCount(line) else |piles|
    ensures forall k :: 0 <= k < |r| ==> r[k] == CrateList(line, k) + (if k < |piles| then piles[k] else [])
  {
    r := piles;
    var j := 0;
    var col := 1;
    while j < |line|
      invariant 0 <= j <= |line| && (j == 4 * (col - 1) || (j == |line| && |line| <= 4 * (col - 1)))
      invariant col >= 1 && 4 * (col - 1) <= |line| + 3
      invariant j == |line| ==> col - 1 == ColumnCount(line)
      invariant j < |line| ==> col - 1 < ColumnCount(line)
      invariant |r| == if col - 1 > |piles| then col - 1 else |piles|
      invariant ReadUpTo(r, piles, line, col - 1)
      decreases |line| - j
    {
      var next := if j + 3 <= |line| then j + 3 else |line|;
      var chunk := line[j..next];
      assert chunk == Chunk(line, col - 1);
      ghost var before := r;
      if col > |r| {
        r := r + [[]];
      }
      var crate := CrateIn(chunk);
      if crate.Some? {
        r := r[col - 1 := [crate.value] + r[col - 1]];
      }
      assert crate == CrateAt(line, col - 1);
      forall k | 0 <= k < |r|
        ensures r[k] == (if k < col then CrateList(line, k) else []) + (if k < |piles| then piles[k] else [])
      {
        if k != col - 1 {
          assert r[k] == before[k];
        }
      }
      col := col + 1;
      j := next;
      if j < |line| {
        j := j + 1;
      }
    }
  }

  /** The first n columns of a line have been pushed onto the piles. */
  ghost predicate ReadUpTo(r: seq<Pile>, piles: seq<Pile>, line: string, n: nat)
  {
    forall k :: 0 <= k < |r| ==> r[k] == (if k < n then CrateList(line, k) else []) + (if k < |piles| then piles[k] else [])
  }

  /** Reads the drawing up to the line of pile numbers, and returns the piles
      with the index of the first move line (the blank line after the numbers
      is skipped). */
  method ParseCrates(lines: seq<string>) returns (piles: seq<Pile>, next: nat)
    ensures |piles| == PileCount(lines[..HeaderEnd(lines)])
    ensures forall k :: 0 <= k < |piles| ==> piles[k] == PileOf(lines[..HeaderEnd(lines)], k)
    ensures next == if HeaderEnd(lines) + 2 <= |lines| then HeaderEnd(lines) + 2 else |lines|
  {
    piles := [];
    var i := 0;
    var stop := false;
    while i < |lines| && !stop
      invariant 0 <= i <= |lines|
      invariant !stop ==> i <= HeaderEnd(lines)
      invariant stop ==> i == HeaderEnd(lines) + 1
      invariant |piles| == PileCount(lines[..if stop then i - 1 else i])
      invariant forall k :: 0 <= k < |piles| ==> piles[k] == PileOf(lines[..if stop then i - 1 else i], k)
      decreases |lines| - i, if stop then 0 else 1
    {
      HeaderEndFirst(lines, i);
      var line := lines[i];
      i := i + 1;
      var hasDigit := ContainsDigit(line);
      if hasDigit {
        stop := true;
      } else {
        ghost var rows := lines[..i];
        assert rows[..|rows| - 1] == lines[..i - 1];
        PileOfBeyond(lines[..i - 1]);
        piles := ReadDrawingLine(piles, line);
      }
    }
    if !stop {
      HeaderEndFirst(lines, i);
    } else if i < |lines| {
      i := i + 1;
    }
    next := i;
  }

  /** Columns beyond the widest line hold no crate. */
  lemma {:induction false} PileOfBeyond(rows: seq<string>)
    ensures forall k: nat :: k >= PileCount(rows) ==> PileOf(rows, k) == []
  {
    if rows != [] {
      PileOfBeyond(rows[..|rows| - 1]);
    }
  }

  /** `HeaderEnd` is the first digit line at or after any line before it. */
  lemma {:induction false} HeaderEndFirst(lines: seq<string>, i: nat)
    requires i <= HeaderEnd(lines)
    ensures i < |lines| ==> ((exists c :: c in lines[i] && IsDigit(c)) <==> i == HeaderEnd(lines))
    ensures i == |lines| ==> HeaderEnd(lines) == |lines|
  {
    if i > 0 && lines != [] {
      HeaderEndFirst(lines[1..], i - 1);
      assert lines[1..][i - 1..] == lines[i..];
    }
  }

  function Reverse(s: seq<char>): (r: seq<char>)
    ensures |r| == |s|
    ensures forall k :: 0 <= k < |s| ==> r[k] == s[|s| - 1 - k]
  {
    if s == [] then [] else Reverse(s[1..]) + [s[0]]
  }

  function TotalCrates(piles: seq<Pile>): nat
  {
    if piles == [] then 0 else |piles[0]| + TotalCrates(piles[1..])
  }

  /** Changing one pile changes the total by the change in its size. */
  lemma {:induction false} TotalCratesUpdate(piles: seq<Pile>, k: nat, p: Pile)
    requires k < |piles|
    ensures TotalCrates(piles[k := p]) + |piles[k]| == TotalCrates(piles) + |p|
  {
    if k > 0 {
      TotalCratesUpdate(piles[1..], k - 1, p);
      assert piles[k := p][1..] == piles[1..][k - 1 := p];
    }
  }

  /** One move: the top `nb` crates of pile `from` are drained, reversed for
      the one-by-one crane, and pushed onto pile `to`. A pile number out of
      range or a too-short pile is a panic in the source. */
  function Moved(piles: seq<Pile>, m: Move, crane: Crane): Option<seq<Pile>>
  {
    if !(1 <= m.from <= |piles|) || m.nb > |piles[m.from - 1]| || !(1 <= m.to <= |piles|) then None
    else
      var src := piles[m.from - 1];
      var taken := src[|src| - m.nb..];
      var drained := piles[m.from - 1 := src[..|src| - m.nb]];
      Some(drained[m.to - 1 := drained[m.to - 1] + (if crane == OneByOne then Reverse(taken) else taken)])
  }

  /** What a move does: it fails exactly on a bad pile number or a short pile;
      otherwise only the two named piles change, the top `nb` crates of the
      source end up on the target (reversed one by one, in order as a stack),
      and no crate is lost or created. */
  lemma MovedSpec(piles: seq<Pile>, m: Move, crane: Crane)
    ensures Moved(piles, m, crane).Some? <==> 1 <= m.from <= |piles| && 1 <= m.to <= |piles| && m.nb <= |piles[m.from - 1]|
    ensures Moved(piles, m, crane).Some? ==>
      var r := Moved(piles, m, crane).value;
      var src := piles[m.from - 1];
      var taken := src[|src| - m.nb..];
      var moved := if crane == OneByOne then Reverse(taken) else taken;
      && |r| == |piles|
      && (forall k :: 0 <= k < |piles| && k != m.from - 1 && k != m.to - 1 ==> r[k] == piles[k])
      && (m.from != m.to ==> r[m.from - 1] == src[..|src| - m.nb] && r[m.to - 1] == piles[m.to - 1] + moved)
      && (m.from == m.to ==> r[m.to - 1] == src[..|src| - m.nb] + moved)
      && TotalCrates(r) == TotalCrates(piles)
  {
    if Moved(piles, m, crane).Some? {
      var src := piles[m.from - 1];
      var drained := piles[m.from - 1 := src[..|src| - m.nb]];
      var taken := src[|src| - m.nb..];
      var moved := if crane == OneByOne then Reverse(taken) else taken;
      TotalCratesUpdate(piles, m.from - 1, src[..|src| - m.nb]);
      TotalCratesUpdate(drained, m.to - 1, drained[m.to - 1] + moved);
    }
  }

  /** Applies one move, pushing the drained crates onto the target one at a
      time. */
  method DoMove(piles: seq<Pile>, m: Move, crane: Crane) returns (r: Option<seq<Pile>>)
    ensures r == Moved(piles, m, crane)
  {
    if !(1 <= m.from <= |piles|) || m.nb > |piles[m.from - 1]| || !(1 <= m.to <= |piles|) {
      return None;
    }
    var src := piles[m.from - 1];
    var taken := src[|src| - m.nb..];
    var toMove := if crane == OneByOne then Reverse(taken) else taken;
    var drained := piles[m.from - 1 := src[..|src| - m.nb]];
    var result := PushAll(drained, m.to - 1, toMove);
    r := Some(result);
  }

  /** Pushes crates onto pile t one at a time, first one first. */
  method PushAll(piles: seq<Pile>, t: nat, crates: seq<char>) returns (r: seq<Pile>)
    requires t < |piles|
    ensures r == piles[t := piles[t] + crates]
  {
    r := piles;
    var i := 0;
    while i < |crates|
      invariant 0 <= i <= |crates| && |r| == |piles|
      invariant r[t] == piles[t] + crates[..i]
      invariant forall k :: 0 <= k < |r| && k != t ==> r[k] == piles[k]
    {
      assert crates[..i + 1] == crates[..i] + [crates[i]];
      r := r[t := r[t] + [crates[i]]];
      i := i + 1;
    }
    assert crates[..i] == crates;
  }

  /** The message: the top crate of each pile in pile order, nothing for an
      empty pile. */
  function TopCode(piles: seq<Pile>): (code: string)
    ensures |code| <= |piles|
    ensures (forall k :: 0 <= k < |piles| ==> piles[k] != []) ==>
      |code| == |piles| && forall k :: 0 <= k < |piles| ==> code[k] == piles[k][|piles[k]| - 1]
  {
    if piles == [] then ""
    else (if piles[0] == [] then "" else [piles[0][|piles[0]| - 1]]) + TopCode(piles[1..])
  }

  /** The moves applied in order with one crane; None as soon as a move
      would panic. */
  function MovedAll(piles: seq<Pile>, moves: seq<Move>, crane: Crane): Option<seq<Pile>>
    decreases |moves|
  {
    if moves == [] then Some(piles)
    else
      match Moved(piles, moves[0], crane)
      case None => None
      case Some(next) => MovedAll(next, moves[1..], crane)
  }

  /** A sequence of moves that does not panic keeps the number of piles and
      the number of crates. */
  lemma {:induction false} MovedAllKeepsCrates(piles: seq<Pile>, moves: seq<Move>, crane: Crane)
    ensures MovedAll(piles, moves, crane).Some? ==>
      |MovedAll(piles, moves, crane).value| == |piles|
      && TotalCrates(MovedAll(piles, moves, crane).value) == TotalCrates(piles)
    decreases |moves|
  {
    if moves != [] {
      MovedSpec(piles, moves[0], crane);
      if Moved(piles, moves[0], crane).Some? {
        MovedAllKeepsCrates(Moved(piles, moves[0], crane).value, moves[1..], crane);
      }
    }
  }

  /** Applies the moves in order with one crane; None as soon as a move
      would panic. */
  method ApplyMoves(piles: seq<Pile>, moves: seq<Move>, crane: Crane) returns (r: Option<seq<Pile>>)
    ensures r == MovedAll(piles, moves, crane)
  {
    var current := piles;
    var i := 0;
    while i < |moves|
      invariant 0 <= i <= |moves|
      invariant MovedAll(current, moves[i..], crane) == MovedAll(piles, moves, crane)
    {
      var step := DoMove(current, moves[i], crane);
      if step.None? {
        return None;
      }
      current := step.value;
      i := i + 1;
    }
    r := Some(current);
  }

  /** The second move of the sample, `move 3 from 1 to 3` on piles ZND, MC
      and P: the one-by-one crane stacks PDNZ, the stack crane PZND. */
  lemma ExampleMove()
    ensures Moved([['Z', 'N', 'D'], ['M', 'C'], ['P']], Move(3, 1, 3), OneByOne) == Some([[], ['M', 'C'], ['P', 'D', 'N', 'Z']])
    ensures Moved([['Z', 'N', 'D'], ['M', 'C'], ['P']], Move(3, 1, 3), ByStack) == Some([[], ['M', 'C'], ['P', 'Z', 'N', 'D']])
  {
    var p: seq<Pile> := [['Z', 'N', 'D'], ['M', 'C'], ['P']];
    assert p[0][..0] == [] && p[0][0..] == ['Z', 'N', 'D'];
    assert Reverse(['Z', 'N', 'D']) == ['D', 'N', 'Z'] by {
      assert ['Z', 'N', 'D'][1..] == ['N', 'D'] && ['N', 'D'][1..] == ['D'];
    }
    var drained := p[0 := []];
    assert drained == [[], ['M', 'C'], ['P']];
    assert ['P'] + ['D', 'N', 'Z'] == ['P', 'D', 'N', 'Z'] && ['P'] + ['Z', 'N', 'D'] == ['P', 'Z', 'N', 'D'];
    assert drained[2 := ['P'] + ['D', 'N', 'Z']] == [[], ['M', 'C'], ['P', 'D', 'N', 'Z']];
    assert drained[2 := ['P'] + ['Z', 'N', 'D']] == [[], ['M', 'C'], ['P', 'Z', 'N', 'D']];
  }

  /** The final codes of the sample: CMZ for one by one, MCD for the stack. */
  lemma ExampleCodes()
    ensures TopCode([['C'], ['M'], ['P', 'D', 'N', 'Z']]) == "CMZ"
    ensures TopCode([['M'], ['C'], ['P', 'Z', 'N', 'D']]) == "MCD"
  {
  }

  /** The test drawing is read as piles [Z, N], [M, C, D] and [P]. */
  lemma ExampleDrawing()
    ensures var rows := ["    [D]    ", "[N] [C]    ", "[Z] [M] [P]"];
      PileCount(rows) == 3 && PileOf(rows, 0) == ['Z', 'N'] && PileOf(rows, 1) == ['M', 'C', 'D'] && PileOf(rows, 2) == ['P']
  {
    var rows := ["    [D]    ", "[N] [C]    ", "[Z] [M] [P]"];
    var r0, r1, r2 := rows[0], rows[1], rows[2];
    ExampleLine0();
    ExampleLine1();
    ExampleLine2();
    assert [r0] == [] + [r0] && [r0, r1] == [r0] + [r1] && rows == [r0, r1] + [r2];
    forall k | k < 3
      ensures PileOf(rows, k) == CrateList(r2, k) + CrateList(r1, k) + CrateList(r0, k)
    {
      PileOfSnoc([], r0, k);
      PileOfSnoc([r0], r1, k);
      PileOfSnoc([r0, r1], r2, k);
    }
    assert PileCount([r0]) == 3 && PileCount([r0, r1]) == 3;
  }

  /** The crate of column k of a line, as a pile of at most one crate. */
  function CrateList(line: string, k: nat): Pile
  {
    match CrateAt(line, k)
    case Some(c) => [c]
    case None => []
  }

  /** Reading one more line puts its crate under the ones read before. */
  lemma PileOfSnoc(rows: seq<string>, line: string, k: nat)
    ensures PileOf(rows + [line], k) == CrateList(line, k) + PileOf(rows, k)
  {
    assert (rows + [line])[..|rows|] == rows;
  }

  lemma ExampleLine0()
    ensures CrateAt("    [D]    ", 0) == None && CrateAt("    [D]    ", 1) == Some('D') && CrateAt("    [D]    ", 2) == None
    ensures ColumnCount("    [D]    ") == 3
  {
    var line := "    [D]    ";
    assert Chunk(line, 0) == line[0..3] && line[0] == ' ';
    assert Chunk(line, 1) == line[4..7] == "[D]";
    assert Chunk(line, 2) == line[8..11] && line[8] == ' ';
  }

  lemma ExampleLine1()
    ensures CrateAt("[N] [C]    ", 0) == Some('N') && CrateAt("[N] [C]    ", 1) == Some('C') && CrateAt("[N] [C]    ", 2) == None
    ensures ColumnCount("[N] [C]    ") == 3
  {
    var line := "[N] [C]    ";
    assert Chunk(line, 0) == line[0..3] == "[N]";
    assert Chunk(line, 1) == line[4..7] == "[C]";
    assert Chunk(line, 2) == line[8..11] && line[8] == ' ';
  }

  lemma ExampleLine2()
    ensures CrateAt("[Z] [M] [P]", 0) == Some('Z') && CrateAt("[Z] [M] [P]", 1) == Some('M') && CrateAt("[Z] [M] [P]", 2) == Some('P')
    ensures ColumnCount("[Z] [M] [P]") == 3
  {
    var line := "[Z] [M] [P]";
    assert Chunk(line, 0) == line[0..3] == "[Z]";
    assert Chunk(line, 1) == line[4..7] == "[M]";
    assert Chunk(line, 2) == line[8..11] == "[P]";
  }
}
