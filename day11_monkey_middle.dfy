/** Day 11: monkey in the middle. Each monkey holds a queue of worry
    levels; inspecting an item updates its worry level, dampens it and
    throws it to one of two other monkeys depending on a divisibility
    test. The answer is the product of the two largest inspection counts. */
module MonkeyMiddle {
  import opened Wrappers

  /** An operand of the update operation: the old worry level or a
      literal. */
  datatype Operand = Old | Lit(n: nat)

  datatype Operator = Times | Plus | Minus | Divide

  /** The update `new = v1 op v2`. */
  datatype Operation = Operation(v1: Operand, op: Operator, v2: Operand)

  /** What one monkey does with an item: its update, its divisor and the
      two monkeys it throws to. */
  datatype Rules = Rules(operation: Operation, divideTest: nat, onSucc: nat, onFail: nat)

  /** How worry levels calm down after an inspection: divided by three in
      the first part, reduced modulo a common multiple in the second. */
  datatype Dampen = DivideBy3 | ModuloBy(coeff: nat)

  datatype Throw = Throw(target: nat, worry: nat)

  /** The result of one inspection: nothing to inspect, an item thrown, or
      an arithmetic failure (unsigned underflow or division by zero). */
  datatype Outcome = Empty | Thrown(target: nat, worry: nat) | Failed

  function Value(v: Operand, x: nat): nat
  {
    match v
    case Old => x
    case Lit(n) => n
  }

  /** Applies the update to a worry level; subtraction below zero and
      division by zero have no unsigned result. */
  function Eval(o: Operation, x: nat): (r: Option<nat>)
    ensures r.None? <==> (o.op.Minus? && Value(o.v1, x) < Value(o.v2, x)) || (o.op.Divide? && Value(o.v2, x) == 0)
    ensures o.op.Times? ==> r == Some(Value(o.v1, x) * Value(o.v2, x))
    ensures o.op.Plus? ==> r == Some(Value(o.v1, x) + Value(o.v2, x))
  {
    var a := Value(o.v1, x);
    var b := Value(o.v2, x);
    match o.op
    case Times => Some(a * b)
    case Plus => Some(a + b)
    case Minus => if a < b then None else Some(a - b)
    case Divide => if b == 0 then None else Some(a / b)
  }

  predicate DampenOk(d: Dampen)
  {
    d.ModuloBy? ==> d.coeff > 0
  }

  function ApplyDampen(d: Dampen, y: nat): nat
    requires DampenOk(d)
  {
    match d
    case DivideBy3 => y / 3
    case ModuloBy(c) => y % c
  }

  /** What inspecting one item with worry level x produces. */
  function InspectItem(rule: Rules, d: Dampen, x: nat): (r: Outcome)
    requires rule.divideTest > 0 && DampenOk(d)
    ensures r != Empty
    ensures r.Failed? <==> Eval(rule.operation, x).None?
    ensures r.Thrown? ==> r.target in {rule.onSucc, rule.onFail}
  {
    match Eval(rule.operation, x)
    case None => Failed
    case Some(y) =>
      var worry := ApplyDampen(d, y);
      Thrown(if worry % rule.divideTest == 0 then rule.onSucc else rule.onFail, worry)
  }

  /** Every monkey of the troop can play: its divisor is positive and it
      throws to two other monkeys of the troop. */
  predicate AllWellFormed(rules: seq<Rules>)
  {
    forall i :: 0 <= i < |rules| ==>
      && rules[i].divideTest > 0
      && rules[i].onSucc < |rules| && rules[i].onFail < |rules|
      && rules[i].onSucc != i && rules[i].onFail != i
  }

  /** The throws produced by inspecting a queue front to back, or `None`
      when one of the inspections fails. */
  function Throws(rule: Rules, d: Dampen, items: seq<nat>): (r: Option<seq<Throw>>)
    requires rule.divideTest > 0 && DampenOk(d)
    ensures r.Some? ==> |r.value| == |items|
    ensures r.Some? ==> forall k :: 0 <= k < |r.value| ==> r.value[k].target in {rule.onSucc, rule.onFail}
  {
    if items == [] then Some([])
    else
      match Throws(rule, d, items[..|items| - 1])
      case None => None
      case Some(ts) =>
        match InspectItem(rule, d, items[|items| - 1])
        case Thrown(t, w) => Some(ts + [Throw(t, w)])
        case _ => None
  }

  /** Appends each thrown item to the back of its receiver's queue. */
  function ThrowAll(qs: seq<seq<nat>>, ts: seq<Throw>): (r: seq<seq<nat>>)
    requires forall k :: 0 <= k < |ts| ==> ts[k].target < |qs|
    ensures |r| == |qs|
  {
    if ts == [] then qs
    else
      var prev := ThrowAll(qs, ts[..|ts| - 1]);
      var t := ts[|ts| - 1];
      prev[t.target := prev[t.target] + [t.worry]]
  }

  /** The queues after monkey m has inspected and thrown all its items. */
  function AfterProcess(qs: seq<seq<nat>>, rules: seq<Rules>, d: Dampen, m: nat): (r: Option<seq<seq<nat>>>)
    requires |qs| == |rules| && AllWellFormed(rules) && DampenOk(d) && m < |rules|
    ensures r.Some? ==> |r.value| == |qs|
  {
    match Throws(rules[m], d, qs[m])
    case None => None
    case Some(ts) => Some(ThrowAll(qs[m := []], ts))
  }

  function TotalItems(qs: seq<seq<nat>>): nat
  {
    if qs == [] then 0 else TotalItems(qs[..|qs| - 1]) + |qs[|qs| - 1]|
  }

  lemma {:induction false} TotalItemsUpdate(qs: seq<seq<nat>>, i: nat, s: seq<nat>)
    requires i < |qs|
    ensures TotalItems(qs[i := s]) + |qs[i]| == TotalItems(qs) + |s|
  {
    var n := |qs| - 1;
    if i < n {
      assert qs[i := s][..n] == qs[..n][i := s];
      TotalItemsUpdate(qs[..n], i, s);
    } else {
      assert qs[i := s][..n] == qs[..n];
    }
  }

  /** Throwing moves items between queues, never creating or losing one. */
  lemma {:induction false} ThrowAllTotal(qs: seq<seq<nat>>, ts: seq<Throw>)
    requires forall k :: 0 <= k < |ts| ==> ts[k].target < |qs|
    ensures TotalItems(ThrowAll(qs, ts)) == TotalItems(qs) + |ts|
  {
    if ts != [] {
      ThrowAllTotal(qs, ts[..|ts| - 1]);
      var prev := ThrowAll(qs, ts[..|ts| - 1]);
      var t := ts[|ts| - 1];
      TotalItemsUpdate(prev, t.target, prev[t.target] + [t.worry]);
    }
  }

  /** Every item thrown by monkey m is appended to the back of its
      receiver's queue, in the order thrown, and m's own queue stays as it
      was since no monkey throws to itself. */
  lemma {:induction false} ThrowAllSpec(qs: seq<seq<nat>>, ts: seq<Throw>, i: nat)
    requires forall k :: 0 <= k < |ts| ==> ts[k].target < |qs|
    requires i < |qs|
    ensures ThrowAll(qs, ts)[i] == qs[i] + ReceivedBy(ts, i)
  {
    if ts != [] {
      ThrowAllSpec(qs, ts[..|ts| - 1], i);
    }
  }

  /** The worry levels thrown to monkey i, in order. */
  function ReceivedBy(ts: seq<Throw>, i: nat): seq<nat>
  {
    if ts == [] then []
    else ReceivedBy(ts[..|ts| - 1], i) + (if ts[|ts| - 1].target == i then [ts[|ts| - 1].worry] else [])
  }

  /** Monkey m's turn leaves the total number of items unchanged. */
  lemma ProcessKeepsTotal(qs: seq<seq<nat>>, rules: seq<Rules>, d: Dampen, m: nat)
    requires |qs| == |rules| && AllWellFormed(rules) && DampenOk(d) && m < |rules|
    ensures AfterProcess(qs, rules, d, m).Some? ==> TotalItems(AfterProcess(qs, rules, d, m).value) == TotalItems(qs)
  {
    var ts := Throws(rules[m], d, qs[m]);
    if ts.Some? {
      TotalItemsUpdate(qs, m, []);
      ThrowAllTotal(qs[m := []], ts.value);
    }
  }

  lemma {:induction false} ThrowAllOther(qs: seq<seq<nat>>, ts: seq<Throw>, m: nat, s: seq<nat>)
    requires forall k :: 0 <= k < |ts| ==> ts[k].target < |qs| && ts[k].target != m
    requires m < |qs|
    ensures ThrowAll(qs, ts)[m := s] == ThrowAll(qs[m := s], ts)
  {
    if ts != [] {
      ThrowAllOther(qs, ts[..|ts| - 1], m, s);
    }
  }

  /** State of a game: the queues and how many items each monkey has
      inspected so far. */
  datatype Game = Game(queues: seq<seq<nat>>, counts: seq<nat>)

  predicate GameOk(g: Game, rules: seq<Rules>)
  {
    |g.queues| == |rules| && |g.counts| == |rules|
  }

  /** Monkey m's turn, counting its inspections. */
  function ProcessStep(g: Game, rules: seq<Rules>, d: Dampen, m: nat): (r: Option<Game>)
    requires GameOk(g, rules) && AllWellFormed(rules) && DampenOk(d) && m < |rules|
    ensures r.Some? ==> GameOk(r.value, rules)
  {
    match AfterProcess(g.queues, rules, d, m)
    case None => None
    case Some(q) => Some(Game(q, g.counts[m := g.counts[m] + |g.queues[m]|]))
  }

  /** The first k turns of a round. */
  function RoundUpTo(g: Game, rules: seq<Rules>, d: Dampen, k: nat): (r: Option<Game>)
    requires GameOk(g, rules) && AllWellFormed(rules) && DampenOk(d) && k <= |rules|
    ensures r.Some? ==> GameOk(r.value, rules)
  {
    if k == 0 then Some(g)
    else
      match RoundUpTo(g, rules, d, k - 1)
      case None => None
      case Some(g1) => ProcessStep(g1, rules, d, k - 1)
  }

  /** n whole rounds, each monkey taking its turn in order. */
  function Rounds(g: Game, rules: seq<Rules>, d: Dampen, n: nat): (r: Option<Game>)
    requires GameOk(g, rules) && AllWellFormed(rules) && DampenOk(d)
    ensures r.Some? ==> GameOk(r.value, rules)
  {
    if n == 0 then Some(g)
    else
      match Rounds(g, rules, d, n - 1)
      case None => None
      case Some(g1) => RoundUpTo(g1, rules, d, |rules|)
  }

  /** However many rounds are played, no item appears or disappears. */
  lemma {:induction false} RoundsKeepTotal(g: Game, rules: seq<Rules>, d: Dampen, n: nat)
    requires GameOk(g, rules) && AllWellFormed(rules) && DampenOk(d)
    ensures Rounds(g, rules, d, n).Some? ==> TotalItems(Rounds(g, rules, d, n).value.queues) == TotalItems(g.queues)
  {
    if n > 0 {
      RoundsKeepTotal(g, rules, d, n - 1);
      var g1 := Rounds(g, rules, d, n - 1);
      if g1.Some? {
        RoundKeepsTotal(g1.value, rules, d, |rules|);
      }
    }
  }

  lemma {:induction false} RoundKeepsTotal(g: Game, rules: seq<Rules>, d: Dampen, k: nat)
    requires GameOk(g, rules) && AllWellFormed(rules) && DampenOk(d) && k <= |rules|
    ensures RoundUpTo(g, rules, d, k).Some? ==> TotalItems(RoundUpTo(g, rules, d, k).value.queues) == TotalItems(g.queues)
  {
    if k > 0 {
      RoundKeepsTotal(g, rules, d, k - 1);
      var g1 := RoundUpTo(g, rules, d, k - 1);
      if g1.Some? {
        var after := AfterProcess(g1.value.queues, rules, d, k - 1);
        ProcessKeepsTotal(g1.value.queues, rules, d, k - 1);
        assert RoundUpTo(g, rules, d, k) == ProcessStep(g1.value, rules, d, k - 1);
        assert after.Some? ==> RoundUpTo(g, rules, d, k).value.queues == after.value;
      }
    }
  }

  /** Index i holds the largest count and j the largest of the others. */
  predicate TopTwo(c: seq<nat>, i: int, j: int)
  {
    0 <= i < |c| && 0 <= j < |c| && i != j
    && (forall k :: 0 <= k < |c| ==> c[k] <= c[i])
    && (forall k :: 0 <= k < |c| && k != i ==> c[k] <= c[j])
  }

  /** p is the product of the two largest counts. */
  predicate IsTopTwoProduct(c: seq<nat>, p: nat)
  {
    exists i, j :: 0 <= i < |c| && 0 <= j < |c| && TopTwo(c, i, j) && p == c[i] * c[j]
  }

  /** Whichever of several equal counts are picked, the two picked values
      are the same, so the product is the one the sorted list gives. */
  lemma TopTwoValues(c: seq<nat>, i: int, j: int, i': int, j': int)
    requires TopTwo(c, i, j) && TopTwo(c, i', j')
    ensures c[i] == c[i'] && c[j] == c[j']
  {
    if i != i' {
      assert c[j] >= c[i'] && c[j'] >= c[i];
    }
  }

  lemma TopTwoUnique(c: seq<nat>, p: nat, q: nat)
    requires IsTopTwoProduct(c, p) && IsTopTwoProduct(c, q)
    ensures p == q
  {
    var i, j :| TopTwo(c, i, j) && p == c[i] * c[j];
    var i', j' :| TopTwo(c, i', j') && q == c[i'] * c[j'];
    TopTwoValues(c, i, j, i', j');
  }

  /** Finds the two largest counts in one pass and multiplies them. */
  method TopTwoProduct(c: seq<nat>) returns (p: nat)
    requires |c| >= 2
    ensures IsTopTwoProduct(c, p)
  {
    var i, j := 0, 1;
    if c[1] > c[0] {
      i, j := 1, 0;
    }
    var k := 2;
    while k < |c|
      invariant 2 <= k <= |c|
      invariant 0 <= i < k && 0 <= j < k && i != j
      invariant forall x :: 0 <= x < k ==> c[x] <= c[i]
      invariant forall x :: 0 <= x < k && x != i ==> c[x] <= c[j]
    {
      if c[k] > c[i] {
        i, j := k, i;
      } else if c[k] > c[j] {
        j := k;
      }
      k := k + 1;
    }
    assert TopTwo(c, i, j);
    p := c[i] * c[j];
  }

  function ProductOfTests(rules: seq<Rules>): nat
  {
    if rules == [] then 1 else ProductOfTests(rules[..|rules| - 1]) * rules[|rules| - 1].divideTest
  }

  lemma MulAtLeast(a: int, t: int)
    requires a >= 1 && t > 0
    ensures a * t >= t
  {
  }

  /** The remainder by t is determined by any decomposition x == t * q + b
      with 0 <= b < t. */
  lemma ModUnique(x: int, t: int, q: int, b: int)
    requires t > 0 && 0 <= b < t && x == t * q + b
    ensures x % t == b
  {
    var q0 := x / t;
    assert x == t * q0 + x % t;
    if q > q0 {
      MulAtLeast(q - q0, t);
      assert false;
    } else if q < q0 {
      MulAtLeast(q0 - q, t);
      assert false;
    }
  }

  /** Reducing modulo a multiple of t does not change the remainder by t. */
  lemma ModuloMultiple(x: nat, t: nat, a: nat)
    requires t > 0 && a > 0
    ensures (x % (t * a)) % t == x % t
  {
    var p := t * a;
    var r := x % p;
    assert x == p * (x / p) + r;
    assert r == t * (r / t) + r % t;
    assert p * (x / p) == t * (a * (x / p));
    assert x == t * (a * (x / p) + r / t) + r % t;
    ModUnique(x, t, a * (x / p) + r / t, r % t);
  }

  /** The product of all the divisors except the one of monkey i. */
  function ProductExcept(rules: seq<Rules>, i: nat): nat
    requires i < |rules|
  {
    if i == |rules| - 1 then ProductOfTests(rules[..i])
    else ProductExcept(rules[..|rules| - 1], i) * rules[|rules| - 1].divideTest
  }

  predicate PositiveTests(rules: seq<Rules>)
  {
    forall i :: 0 <= i < |rules| ==> rules[i].divideTest > 0
  }

  lemma {:induction false} ProductPositive(rules: seq<Rules>)
    requires PositiveTests(rules)
    ensures ProductOfTests(rules) > 0
  {
    if rules != [] {
      var front := rules[..|rules| - 1];
      assert PositiveTests(front) by {
        forall k | 0 <= k < |front| ensures front[k].divideTest > 0 {
          assert front[k] == rules[k];
        }
      }
      ProductPositive(front);
    }
  }

  /** The product of the divisors is a positive multiple of each divisor. */
  lemma {:induction false} ProductOfTestsSpec(rules: seq<Rules>, i: nat)
    requires PositiveTests(rules) && i < |rules|
    ensures ProductOfTests(rules) > 0
    ensures ProductOfTests(rules) == rules[i].divideTest * ProductExcept(rules, i)
    ensures ProductExcept(rules, i) > 0
  {
    ProductPositive(rules);
    var n := |rules| - 1;
    var front := rules[..n];
    assert PositiveTests(front) by {
      forall k | 0 <= k < n ensures front[k].divideTest > 0 {
        assert front[k] == rules[k];
      }
    }
    ProductPositive(front);
    if i < n {
      ProductOfTestsSpec(front, i);
      var e := ProductExcept(front, i);
      var last := rules[n].divideTest;
      assert ProductOfTests(rules) == (rules[i].divideTest * e) * last;
      assert (rules[i].divideTest * e) * last == rules[i].divideTest * (e * last);
      assert e * last > 0;
    }
  }

  /** Lemma for the second part: dampening modulo the product of all the
      divisors leaves every monkey's divisibility test, hence every route,
      as it would be without any dampening. */
  lemma ModuloDampenKeepsRoutes(rules: seq<Rules>, i: nat, x: nat)
    requires AllWellFormed(rules) && i < |rules|
    ensures ProductOfTests(rules) > 0
    ensures var y := Eval(rules[i].operation, x);
      y.Some? ==> (InspectItem(rules[i], ModuloBy(ProductOfTests(rules)), x)
        == Thrown(if y.value % rules[i].divideTest == 0 then rules[i].onSucc else rules[i].onFail, y.value % ProductOfTests(rules)))
  {
    ProductOfTestsSpec(rules, i);
    var y := Eval(rules[i].operation, x);
    if y.Some? {
      ModuloMultiple(y.value, rules[i].divideTest, ProductExcept(rules, i));
    }
  }

  /** The troop: the rules are fixed, the queues and the dampening change. */
  class Troop {
    const rules: seq<Rules>
    var queues: seq<seq<nat>>
    var dampen: Dampen

    predicate Valid()
      reads this
    {
      |queues| == |rules| && AllWellFormed(rules) && DampenOk(dampen)
    }

    constructor(rules: seq<Rules>, queues: seq<seq<nat>>)
      requires |queues| == |rules| && AllWellFormed(rules)
      ensures Valid()
      ensures this.rules == rules && this.queues == queues && dampen == DivideBy3
    {
      this.rules := rules;
      this.queues := queues;
      dampen := DivideBy3;
    }

    /** Monkey m inspects the item at the front of its queue, if any. */
    method Inspect(m: nat) returns (r: Outcome)
      requires Valid() && m < |rules|
      modifies this
      ensures Valid() && dampen == old(dampen)
      ensures old(queues[m]) == [] ==> r == Empty && queues == old(queues)
      ensures old(queues[m]) != [] ==> r == InspectItem(rules[m], dampen, old(queues[m][0]))
      ensures old(queues[m]) != [] ==> queues == old(queues)[m := old(queues[m])[1..]]
    {
      if queues[m] == [] {
        r := Empty;
      } else {
        var inspected := queues[m][0];
        queues := queues[m := queues[m][1..]];
        r := InspectItem(rules[m], dampen, inspected);
      }
    }

    /** Monkey m's turn: it inspects and throws items until its queue is
      empty, and returns how many it inspected. */
    method ProcessMonkey(m: nat) returns (r: Option<nat>)
      requires Valid() && m < |rules|
      modifies this
      ensures Valid() && dampen == old(dampen)
      ensures AfterProcess(old(queues), rules, dampen, m).None? ==> r.None?
      ensures AfterProcess(old(queues), rules, dampen, m).Some? ==>
        r == Some(|old(queues[m])|) && queues == AfterProcess(old(queues), rules, dampen, m).value
    {
      ghost var start := queues;
      ghost var items := queues[m];
      ghost var ts: seq<Throw> := [];
      var count := 0;
      var outcome := Inspect(m);
      while outcome.Thrown?
        invariant Valid() && dampen == old(dampen) && |queues| == |start|
        invariant TurnState(rules[m], dampen, m, start, items, ts, count, queues, outcome)
        decreases |queues[m]| + (if outcome.Thrown? then 1 else 0)
      {
        ts, count, outcome := ThrowAndInspect(m, start, items, ts, count, outcome);
      }
      TurnEnd(rules[m], dampen, m, start, items, ts, count, queues, outcome);
      if outcome.Failed? {
        r := None;
      } else {
        r := Some(count);
      }
    }

    /** Throws the inspected item to its target, then inspects the next
      one. */
    method ThrowAndInspect(m: nat, ghost start: seq<seq<nat>>, ghost items: seq<nat>, ghost ts: seq<Throw>,
                           count: nat, outcome: Outcome)
      returns (ghost ts': seq<Throw>, count': nat, outcome': Outcome)
      requires Valid() && m < |rules| && |queues| == |start| && outcome.Thrown?
      requires TurnState(rules[m], dampen, m, start, items, ts, count, queues, outcome)
      modifies this
      ensures Valid() && dampen == old(dampen) && |queues| == |start|
      ensures TurnState(rules[m], dampen, m, start, items, ts', count', queues, outcome')
      ensures |queues[m]| + (if outcome'.Thrown? then 1 else 0) < |old(queues[m])| + 1
    {
      ghost var qs0 := queues;
      ghost var thrown := queues[outcome.target := queues[outcome.target] + [outcome.worry]];
      ts' := ts + [Throw(outcome.target, outcome.worry)];
      queues := queues[outcome.target := queues[outcome.target] + [outcome.worry]];
      count' := count + 1;
      outcome' := Inspect(m);
      assert ts'[..|ts'| - 1] == ts;
      TurnStep(rules[m], dampen, m, start, items, ts, count, qs0, outcome, thrown, outcome');
    }

    /** Switches every monkey to dampening modulo the product of all the
      divisors. */
    method UpdateDampenFunc()
      requires Valid()
      modifies this
      ensures Valid() && queues == old(queues)
      ensures dampen == ModuloBy(ProductOfTests(rules))
    {
      ProductPositive(rules);
      var coeff := 1;
      var i := 0;
      while i < |rules|
        invariant 0 <= i <= |rules|
        invariant coeff == ProductOfTests(rules[..i])
      {
        assert rules[..i + 1][..i] == rules[..i];
        coeff := coeff * rules[i].divideTest;
        i := i + 1;
      }
      assert rules[..i] == rules;
      dampen := ModuloBy(coeff);
    }

    /** One round: each monkey in turn takes its turn, and its
      inspections are added to its count. */
    method PlayRound(counts: seq<nat>) returns (failed: bool, inspects: seq<nat>)
      requires Valid() && |counts| == |rules|
      modifies this
      ensures Valid() && dampen == old(dampen) && |inspects| == |rules|
      ensures var g := RoundUpTo(Game(old(queues), counts), rules, dampen, |rules|);
        && (failed <==> g.None?)
        && (!failed ==> g == Some(Game(queues, inspects)))
    {
      ghost var g1 := Game(queues, counts);
      inspects := counts;
      failed := false;
      var m := 0;
      while m < |rules| && !failed
        invariant 0 <= m <= |rules| && Valid() && dampen == old(dampen)
        invariant |inspects| == |rules|
        invariant !failed ==> RoundUpTo(g1, rules, dampen, m) == Some(Game(queues, inspects))
        invariant failed ==> RoundUpTo(g1, rules, dampen, m).None?
      {
        ghost var before := Game(queues, inspects);
        var nbInspected := ProcessMonkey(m);
        if nbInspected.None? {
          failed := true;
        } else {
          inspects := inspects[m := inspects[m] + nbInspected.value];
          assert ProcessStep(before, rules, dampen, m) == Some(Game(queues, inspects));
        }
        m := m + 1;
      }
      if failed {
        RoundFailed(g1, rules, dampen, m);
      }
    }

    /** Plays n rounds and returns the product of the two largest inspection
      counts; with fewer than two monkeys there is no such product. */
    method PlayNRounds(n: nat) returns (r: Option<nat>)
      requires Valid()
      modifies this
      ensures Valid() && dampen == old(dampen)
      ensures var g := Rounds(Game(old(queues), seq(|rules|, _ => 0)), rules, dampen, n);
        && (g.None? || |rules| < 2 ==> r.None?)
        && (g.Some? ==> queues == g.value.queues)
        && (g.Some? && |rules| >= 2 ==> r.Some? && IsTopTwoProduct(g.value.counts, r.value))
    {
      ghost var g0 := Game(queues, seq(|rules|, _ => 0));
      var inspects: seq<nat> := seq(|rules|, _ => 0);
      var failed := false;
      var round := 0;
      while round < n && !failed
        invariant 0 <= round <= n && Valid() && dampen == old(dampen)
        invariant |inspects| == |rules|
        invariant !failed ==> Rounds(g0, rules, dampen, round) == Some(Game(queues, inspects))
        invariant failed ==> Rounds(g0, rules, dampen, round).None?
      {
        failed, inspects := PlayRound(inspects);
        round := round + 1;
      }
      if failed {
        RoundsFailed(g0, rules, dampen, round, n);
        r := None;
      } else if |inspects| < 2 {
        r := None;
      } else {
        var p := TopTwoProduct(inspects);
        r := Some(p);
      }
    }
  }

  /** The state of monkey m's turn after `count` of its `items` have been
      thrown as `ts`, with `outcome` the inspection of the next one. */
  predicate TurnState(rule: Rules, d: Dampen, m: nat, start: seq<seq<nat>>, items: seq<nat>,
                      ts: seq<Throw>, count: nat, qs: seq<seq<nat>>, outcome: Outcome)
    requires rule.divideTest > 0 && DampenOk(d)
  {
    && count <= |items| && |ts| == count && m < |qs| && |qs| == |start|
    && Throws(rule, d, items[..count]) == Some(ts)
    && (forall k :: 0 <= k < |ts| ==> ts[k].target < |start| && ts[k].target != m)
    && qs == ThrowAll(start, ts)[m := qs[m]]
    && |qs[m]| <= |items|
    && qs[m] == items[|items| - |qs[m]|..]
    && (outcome.Empty? ==> count == |items| && qs[m] == [])
    && (!outcome.Empty? ==> |qs[m]| + count + 1 == |items| && outcome == InspectItem(rule, d, items[count]))
  }

  /** Throwing the inspected item and inspecting the next one keeps the
      turn's state. */
  lemma TurnStep(rule: Rules, d: Dampen, m: nat, start: seq<seq<nat>>, items: seq<nat>,
                 ts: seq<Throw>, count: nat, qs: seq<seq<nat>>, outcome: Outcome,
                 thrown: seq<seq<nat>>, next: Outcome)
    requires rule.divideTest > 0 && DampenOk(d)
    requires rule.onSucc < |start| && rule.onFail < |start| && rule.onSucc != m && rule.onFail != m
    requires TurnState(rule, d, m, start, items, ts, count, qs, outcome) && outcome.Thrown?
    requires thrown == qs[outcome.target := qs[outcome.target] + [outcome.worry]]
    requires thrown[m] == [] ==> next == Empty
    requires thrown[m] != [] ==> next == InspectItem(rule, d, thrown[m][0])
    ensures var after := if thrown[m] == [] then thrown else thrown[m := thrown[m][1..]];
      TurnState(rule, d, m, start, items, ts + [Throw(outcome.target, outcome.worry)], count + 1, after, next)
  {
    ThrowStep(start, ts, m, qs[m], outcome.target, outcome.worry);
    ThrowsStep(rule, d, items, count, ts);
  }

  /** At the end of the turn every item has been thrown, unless one
      inspection failed. */
  lemma TurnEnd(rule: Rules, d: Dampen, m: nat, start: seq<seq<nat>>, items: seq<nat>,
                ts: seq<Throw>, count: nat, qs: seq<seq<nat>>, outcome: Outcome)
    requires rule.divideTest > 0 && DampenOk(d)
    requires TurnState(rule, d, m, start, items, ts, count, qs, outcome) && !outcome.Thrown?
    ensures outcome.Failed? ==> Throws(rule, d, items).None?
    ensures outcome.Empty? ==> Throws(rule, d, items) == Some(ts) && count == |items|
    ensures outcome.Empty? ==> qs == ThrowAll(start[m := []], ts)
  {
    if outcome.Failed? {
      ThrowsStep(rule, d, items, count, ts);
      ThrowsFailed(rule, d, items, count + 1);
    } else {
      assert items[..count] == items;
      ThrowAllOther(start, ts, m, []);
    }
  }

  /** Throwing one more item commutes with replacing monkey m's own queue. */
  lemma ThrowStep(start: seq<seq<nat>>, ts: seq<Throw>, m: nat, rest: seq<nat>, t: nat, w: nat)
    requires forall k :: 0 <= k < |ts| ==> ts[k].target < |start|
    requires m < |start| && t < |start| && t != m
    ensures var x := ThrowAll(start, ts);
      x[m := rest][t := x[t] + [w]] == ThrowAll(start, ts + [Throw(t, w)])[m := rest]
  {
    assert (ts + [Throw(t, w)])[..|ts|] == ts;
  }

  lemma ThrowsStep(rule: Rules, d: Dampen, items: seq<nat>, count: nat, ts: seq<Throw>)
    requires rule.divideTest > 0 && DampenOk(d) && count < |items|
    requires Throws(rule, d, items[..count]) == Some(ts)
    ensures InspectItem(rule, d, items[count]).Thrown? ==>
      Throws(rule, d, items[..count + 1])
        == Some(ts + [Throw(InspectItem(rule, d, items[count]).target, InspectItem(rule, d, items[count]).worry)])
    ensures InspectItem(rule, d, items[count]).Failed? ==> Throws(rule, d, items[..count + 1]).None?
  {
    assert items[..count + 1][..count] == items[..count];
  }

  lemma {:induction false} ThrowsFailed(rule: Rules, d: Dampen, items: seq<nat>, k: nat)
    requires rule.divideTest > 0 && DampenOk(d) && k <= |items|
    requires Throws(rule, d, items[..k]).None?
    ensures Throws(rule, d, items).None?
    decreases |items| - k
  {
    if k < |items| {
      assert items[..k + 1][..k] == items[..k];
      ThrowsFailed(rule, d, items, k + 1);
    } else {
      assert items[..k] == items;
    }
  }

  lemma {:induction false} RoundFailed(g: Game, rules: seq<Rules>, d: Dampen, k: nat)
    requires GameOk(g, rules) && AllWellFormed(rules) && DampenOk(d) && k <= |rules|
    requires RoundUpTo(g, rules, d, k).None?
    ensures RoundUpTo(g, rules, d, |rules|).None?
    decreases |rules| - k
  {
    if k < |rules| {
      RoundFailed(g, rules, d, k + 1);
    }
  }

  lemma {:induction false} RoundsFailed(g: Game, rules: seq<Rules>, d: Dampen, k: nat, n: nat)
    requires GameOk(g, rules) && AllWellFormed(rules) && DampenOk(d) && k <= n
    requires Rounds(g, rules, d, k).None?
    ensures Rounds(g, rules, d, n).None?
    decreases n - k
  {
    if k < n {
      RoundsFailed(g, rules, d, k + 1, n);
    }
  }

  /** The four sample operations applied to worry level 2, and the routing
      of the sample's first item: 79 * 19 / 3 = 500 is not divisible by 23,
      so monkey 0 throws it to monkey 3. */
  lemma SampleOperations()
    ensures Eval(Operation(Old, Times, Lit(19)), 2) == Some(38)
    ensures Eval(Operation(Old, Plus, Lit(6)), 2) == Some(8)
    ensures Eval(Operation(Old, Times, Old), 2) == Some(4)
    ensures Eval(Operation(Old, Plus, Lit(3)), 2) == Some(5)
    ensures InspectItem(Rules(Operation(Old, Times, Lit(19)), 23, 2, 3), DivideBy3, 79) == Thrown(3, 500)
  {
  }
}
