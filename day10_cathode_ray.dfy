/** Day 10: cathode-ray tube. A program of `noop` and `addx v` commands is
    expanded into one instruction per clock cycle; the X register is read
    at chosen cycles and drives a 40-column screen. */
module CathodeRayTube {
  import opened Wrappers

  /** One command of the program text, already split into fields. */
  datatype Command = NoopCommand | AddxCommand(v: int)

  /** One instruction per cycle. */
  datatype Instruction = Noop | Add(v: int)

  function UpdateRegister(instr: Instruction, register: int): (r: int)
    ensures instr.Noop? ==> r == register
    ensures instr.Add? ==> r - register == instr.v
  {
    match instr
    case Noop => register
    case Add(add) => register + add
  }

  /** The cycle-by-cycle expansion of a program: `addx` takes two cycles,
      the add happening at the end of the second. */
  function Expand(commands: seq<Command>): seq<Instruction>
  {
    if commands == [] then []
    else Expand(commands[..|commands| - 1]) + ExpandOne(commands[|commands| - 1])
  }

  function ExpandOne(c: Command): seq<Instruction>
  {
    match c
    case NoopCommand => [Noop]
    case AddxCommand(v) => [Noop, Add(v)]
  }

  function AddxCount(commands: seq<Command>): nat
  {
    if commands == [] then 0
    else AddxCount(commands[..|commands| - 1]) + (if commands[|commands| - 1].AddxCommand? then 1 else 0)
  }

  function SumAdded(commands: seq<Command>): int
  {
    if commands == [] then 0
    else SumAdded(commands[..|commands| - 1]) + (match commands[|commands| - 1] case NoopCommand => 0 case AddxCommand(v) => v)
  }

  /** The register after running a sequence of instructions in order. */
  function Execute(instrs: seq<Instruction>, register: int): int
  {
    if instrs == [] then register
    else UpdateRegister(instrs[|instrs| - 1], Execute(instrs[..|instrs| - 1], register))
  }

  /** Running two pieces one after the other is running their
      concatenation. */
  lemma {:induction false} ExecuteAppend(a: seq<Instruction>, b: seq<Instruction>, register: int)
    ensures Execute(a + b, register) == Execute(b, Execute(a, register))
  {
    if b != [] {
      assert (a + b)[..|a + b| - 1] == a + b[..|b| - 1];
      ExecuteAppend(a, b[..|b| - 1], register);
    } else {
      assert a + b == a;
    }
  }

  /** The expansion has one cycle per `noop` and two per `addx`, and once
      it has run the register has moved by the sum of the `addx` values. */
  lemma {:induction false} ExpandSpec(commands: seq<Command>, register: int)
    ensures |Expand(commands)| == |commands| + AddxCount(commands)
    ensures Execute(Expand(commands), register) == register + SumAdded(commands)
  {
    if commands != [] {
      var front := commands[..|commands| - 1];
      ExpandSpec(front, register);
      ExecuteAppend(Expand(front), ExpandOne(commands[|commands| - 1]), register);
      match commands[|commands| - 1]
      case NoopCommand =>
      case AddxCommand(v) =>
        assert [Noop, Add(v)][..1] == [Noop];
        assert [Noop][..0] == [];
        var x := Execute(Expand(front), register);
        assert Execute([Noop], x) == x;
        assert Execute([Noop, Add(v)], x) == x + v;
        assert SumAdded(commands) == SumAdded(front) + v;
    }
  }

  /** Builds the instruction queue from the program, one command at a time. */
  method FromCommands(commands: seq<Command>) returns (stack: seq<Instruction>)
    ensures stack == Expand(commands)
    ensures |stack| == |commands| + AddxCount(commands)
  {
    stack := [];
    var i := 0;
    while i < |commands|
      invariant 0 <= i <= |commands|
      invariant stack == Expand(commands[..i])
    {
      assert commands[..i + 1][..i] == commands[..i];
      if commands[i].NoopCommand? {
        stack := stack + [Noop];
      } else {
        stack := stack + [Noop];
        stack := stack + [Add(commands[i].v)];
      }
      i := i + 1;
    }
    assert commands[..i] == commands;
    ExpandSpec(commands, 0);
  }

  /** The queue of pending instructions, consumed from the front. */
  class Stack {
    var stack: seq<Instruction>

    constructor(commands: seq<Command>)
      ensures stack == Expand(commands)
    {
      var expanded := FromCommands(commands);
      stack := expanded;
    }

    /** Executes the next instruction. An empty queue is the fatal error of
        the program, here `None`, and leaves the queue as it was. */
    method UpdateRegisterFromStack(register: int) returns (r: Option<int>)
      modifies this
      ensures old(stack) == [] ==> r == None && stack == old(stack)
      ensures old(stack) != [] ==> r == Some(UpdateRegister(old(stack)[0], register)) && stack == old(stack)[1..]
    {
      if stack == [] {
        r := None;
      } else {
        var instr := stack[0];
        stack := stack[1..];
        r := Some(UpdateRegister(instr, register));
      }
    }

    /** Executes the next n instructions; fails when fewer are pending. */
    method AfterNInstructions(register: int, n: nat) returns (r: Option<int>)
      modifies this
      ensures n <= |old(stack)| ==> r == Some(Execute(old(stack)[..n], register)) && stack == old(stack)[n..]
      ensures n > |old(stack)| ==> r == None && stack == []
    {
      ghost var start := stack;
      var updated := register;
      var i := 0;
      r := Some(register);
      while i < n && r.Some?
        invariant 0 <= i <= n
        invariant r.Some? ==> i <= |start| && stack == start[i..] && updated == Execute(start[..i], register)
        invariant r.None? ==> i <= |start| && stack == [] && |start| < n
        invariant r.Some? ==> r.value == updated
        decreases n - i, if r.Some? then 1 else 0
      {
        var next := UpdateRegisterFromStack(updated);
        if next.None? {
          r := None;
        } else {
          assert start[..i + 1][..i] == start[..i];
          updated := next.value;
          r := next;
          i := i + 1;
        }
      }
    }
  }

  /** The two-instruction program `noop`, `addx 3`, `addx -5` leaves 1, 1,
      4, 4 and -1 in the register after each of its five cycles. */
  lemma SampleRegister()
    ensures var p := Expand([NoopCommand, AddxCommand(3), AddxCommand(-5)]);
      |p| == 5 && Execute(p[..1], 1) == 1 && Execute(p[..2], 1) == 1 && Execute(p[..3], 1) == 4
      && Execute(p[..4], 1) == 4 && Execute(p[..5], 1) == -1
  {
    var p := Expand([NoopCommand, AddxCommand(3), AddxCommand(-5)]);
    assert [NoopCommand, AddxCommand(3), AddxCommand(-5)][..2] == [NoopCommand, AddxCommand(3)];
    assert [NoopCommand, AddxCommand(3)][..1] == [NoopCommand];
    assert [NoopCommand][..0] == [];
    assert Expand([NoopCommand]) == [Noop];
    assert Expand([NoopCommand, AddxCommand(3)]) == [Noop, Noop, Add(3)];
    assert p == [Noop, Noop, Add(3), Noop, Add(-5)];
    assert p[..5][..4] == p[..4];
    assert p[..4][..3] == p[..3];
    assert p[..3][..2] == p[..2];
    assert p[..2][..1] == p[..1];
    assert p[..1][..0] == [];
  }

  datatype ScreenState = Lit | Dark

  function Abs(n: int): nat
  {
    if n < 0 then -n else n
  }

  /** The pixel drawn during cycle i: lit when the three-wide sprite around
      the register covers the beam's column i mod 40. */
  function PixelAt(instrs: seq<Instruction>, i: nat): ScreenState
    requires i <= |instrs|
  {
    if Abs(i % 40 - Execute(instrs[..i], 1)) <= 1 then Lit else Dark
  }

  /** Draws one pixel per instruction, the register starting at 1. */
  method RunInstructions(instrs: seq<Instruction>) returns (states: seq<ScreenState>)
    ensures |states| == |instrs|
    ensures forall i :: 0 <= i < |instrs| ==> states[i] == PixelAt(instrs, i)
  {
    states := [];
    var register := 1;
    var crtPosition := 0;
    var i := 0;
    while i < |instrs|
      invariant 0 <= i <= |instrs|
      invariant |states| == i
      invariant forall k :: 0 <= k < i ==> states[k] == PixelAt(instrs, k)
      invariant register == Execute(instrs[..i], 1)
      invariant crtPosition % 40 == i % 40
    {
      crtPosition := crtPosition % 40;
      ghost var column := crtPosition;
      assert column == i % 40;
      if crtPosition == register || crtPosition == register - 1 || crtPosition == register + 1 {
        states := states + [Lit];
      } else {
        states := states + [Dark];
      }
      assert states[i] == PixelAt(instrs, i);
      assert instrs[..i + 1][..i] == instrs[..i];
      register := UpdateRegister(instrs[i], register);
      crtPosition := crtPosition + 1;
      NextColumn(column, i);
      i := i + 1;
    }
  }

  /** The beam's column advances with the cycle count, modulo 40. */
  lemma NextColumn(column: int, i: nat)
    requires column == i % 40
    ensures (column + 1) % 40 == (i + 1) % 40
  {
  }

  function Symbol(s: ScreenState): char
  {
    match s
    case Lit => '#'
    case Dark => '.'
  }

  /** Number of line breaks in the picture of n pixels. */
  function Breaks(n: nat): nat
  {
    if n == 0 then 0 else (n - 1) / 40
  }

  /** Renders the screen in rows of 40: pixel i is printed at offset
      i + i / 40, after i / 40 line breaks, and a line break precedes every
      pixel whose index is a positive multiple of 40. */
  method Render(states: seq<ScreenState>) returns (text: string)
    ensures |text| == |states| + Breaks(|states|)
    ensures forall i :: 0 <= i < |states| ==> text[i + i / 40] == Symbol(states[i])
    ensures forall k :: 1 <= k && 40 * k < |states| ==> text[41 * k - 1] == '\n'
  {
    text := [];
    var i := 0;
    while i < |states|
      invariant 0 <= i <= |states|
      invariant |text| == i + Breaks(i)
      invariant forall j :: 0 <= j < i ==> text[j + j / 40] == Symbol(states[j])
      invariant forall k :: 1 <= k && 40 * k < i ==> text[41 * k - 1] == '\n'
    {
      if i > 0 && i % 40 == 0 {
        text := text + ['\n'];
      }
      text := text + [Symbol(states[i])];
      i := i + 1;
    }
  }
}
