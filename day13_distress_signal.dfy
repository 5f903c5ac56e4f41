/** Day 13: distress signal. Packets are nested lists of unsigned 32-bit
    integers written as `[1,[2,3],4]`. A recursive-descent parser reads
    them, a printer writes them back, and a three-valued comparison decides
    whether a pair is in the right order; the comparison also sorts all
    packets together with two divider packets. */
module DistressSignal {
  import Wrappers

  newtype u32 = x: int | 0 <= x < 0x1_0000_0000

  datatype Packet = Int(n: u32) | List(items: seq<Packet>)

  /** The verdict of comparing two packets. */
  datatype OrderIs = Ok | Ng | NotSureYet

  /** Number of constructors in a packet; every comparison and parse step
      below is measured by it. */
  function Size(p: Packet): (r: nat)
    ensures r >= 1
  {
    match p
    case Int(_) => 1
    case List(items) => 1 + SeqSize(items)
  }

  function SeqSize(items: seq<Packet>): (r: nat)
    ensures |items| == 1 ==> r == Size(items[0])
  {
    if items == [] then 0 else Size(items[0]) + SeqSize(items[1..])
  }

  // ---------------------------------------------------------------------
  // Printing

  predicate IsDigit(c: char)
  {
    '0' <= c <= '9'
  }

  function DigitValue(c: char): (r: nat)
    requires IsDigit(c)
    ensures r < 10
  {
    (c as int) - ('0' as int)
  }

  function DigitChar(d: nat): (c: char)
    requires d < 10
    ensures IsDigit(c) && DigitValue(c) == d
  {
    (('0' as int) + d) as char
  }

  predicate AllDigits(ds: seq<char>)
  {
    forall k :: 0 <= k < |ds| ==> IsDigit(ds[k])
  }

  /** The decimal value of a run of digits, as the standard library's
      integer parsing reads it (leading zeros allowed). */
  function Value(ds: seq<char>): nat
    requires AllDigits(ds)
  {
    if ds == [] then 0 else Value(ds[..|ds| - 1]) * 10 + DigitValue(ds[|ds| - 1])
  }

  /** Decimal text of a number without leading zeros; reading it back gives
      the number. */
  function NatToString(n: nat): (r: string)
    ensures |r| >= 1 && AllDigits(r)
    ensures Value(r) == n
  {
    if n < 10 then [DigitChar(n)]
    else
      var r := NatToString(n / 10) + [DigitChar(n % 10)];
      assert r[..|r| - 1] == NatToString(n / 10);
      r
  }

  /** The textual form of a packet: an integer in decimal, a list as its
      items separated by commas inside brackets. */
  function Print(p: Packet): string
  {
    match p
    case Int(n) => NatToString(n as nat)
    case List(items) => "[" + Join(items) + "]"
  }

  function Join(items: seq<Packet>): string
  {
    if items == [] then ""
    else if |items| == 1 then Print(items[0])
    else Print(items[0]) + "," + Join(items[1..])
  }

  // ---------------------------------------------------------------------
  // Parsing

  /** The outcome of parsing a list body: the list read and the index just
      past it, or a malformed input (the source's panics). */
  datatype Parsed = Parsed(packet: Packet, next: nat) | Malformed

  /** The index just past the run of digits that starts at j. */
  function DigitsEnd(s: string, j: nat): (e: nat)
    requires j <= |s|
    ensures j <= e <= |s|
    ensures forall k :: j <= k < e ==> IsDigit(s[k])
    ensures e == |s| || !IsDigit(s[e])
    decreases |s| - j
  {
    if j < |s| && IsDigit(s[j]) then DigitsEnd(s, j + 1) else j
  }

  /** The items of a list whose opening bracket has been read, appended to
      `acc`, starting at index i: a '[' opens a nested list, ']' closes
      this one, a digit starts a number running to the next non-digit, ','
      is skipped, and anything else is malformed. The end of the input
      closes the list too. A number beyond u32 is malformed. */
  function ParseItems(s: string, i: nat, acc: seq<Packet>): (r: Parsed)
    requires i <= |s|
    ensures r.Parsed? ==> i <= r.next <= |s| && r.packet.List?
    decreases |s| - i
  {
    if i == |s| then Parsed(List(acc), i)
    else if s[i] == '[' then
      match ParseItems(s, i + 1, [])
      case Malformed => Malformed
      case Parsed(sub, j) => ParseItems(s, j, acc + [sub])
    else if s[i] == ']' then Parsed(List(acc), i + 1)
    else if IsDigit(s[i]) then
      var j := DigitsEnd(s, i + 1);
      var v := Value(s[i..j]);
      if v >= 0x1_0000_0000 then Malformed else ParseItems(s, j, acc + [Int(v as u32)])
    else if s[i] == ',' then ParseItems(s, i + 1, acc)
    else Malformed
  }

  /** A packet line must start with '['; what follows its closing bracket
      is not read. */
  function PacketOf(line: string): (r: Wrappers.Option<Packet>)
    ensures r.Some? ==> line != [] && line[0] == '[' && r.value.List?
  {
    if line == [] || line[0] != '[' then Wrappers.None
    else
      match ParseItems(line, 1, [])
      case Malformed => Wrappers.None
      case Parsed(p, _) => Wrappers.Some(p)
  }

  /** The recursive-descent reader: a loop over the characters that calls
      itself on '['. */
  method ParsePacketRec(s: string, i: nat, acc: seq<Packet>) returns (r: Parsed)
    requires i <= |s|
    ensures r == ParseItems(s, i, acc)
    decreases |s| - i
  {
    var k := i;
    var current := acc;
    while k < |s|
      invariant i <= k <= |s|
      invariant ParseItems(s, k, current) == ParseItems(s, i, acc)
      decreases |s| - k
    {
      var c := s[k];
      if c == '[' {
        var sub := ParsePacketRec(s, k + 1, []);
        if sub.Malformed? {
          return Malformed;
        }
        current := current + [sub.packet];
        k := sub.next;
      } else if c == ']' {
        return Parsed(List(current), k + 1);
      } else if IsDigit(c) {
        var j := k + 1;
        while j < |s| && IsDigit(s[j])
          invariant k + 1 <= j <= |s|
          invariant DigitsEnd(s, j) == DigitsEnd(s, k + 1)
        {
          j := j + 1;
        }
        var v := Value(s[k..j]);
        if v >= 0x1_0000_0000 {
          return Malformed;
        }
        current := current + [Int(v as u32)];
        k := j;
      } else if c == ',' {
        k := k + 1;
      } else {
        return Malformed;
      }
    }
    return Parsed(List(current), k);
  }

  method ParsePacket(line: string) returns (r: Wrappers.Option<Packet>)
    ensures r == PacketOf(line)
  {
    if line == [] || line[0] != '[' {
      return Wrappers.None;
    }
    var parsed := ParsePacketRec(line, 1, []);
    if parsed.Malformed? {
      return Wrappers.None;
    }
    return Wrappers.Some(parsed.packet);
  }

  /** The text t occurs in s at index i. */
  predicate At(s: string, i: nat, t: string)
  {
    i + |t| <= |s| && s[i..i + |t|] == t
  }

  lemma AtSplit(s: string, i: nat, a: string, b: string)
    requires At(s, i, a + b)
    ensures At(s, i, a) && At(s, i + |a|, b)
  {
    assert s[i..i + |a|] == s[i..i + |a + b|][..|a|];
    assert (a + b)[..|a|] == a;
    assert s[i + |a|..i + |a| + |b|] == s[i..i + |a + b|][|a|..];
    assert (a + b)[|a|..] == b;
  }

  lemma {:induction false} DigitsEndAt(s: string, j: nat, e: nat)
    requires j <= e <= |s|
    requires forall k :: j <= k < e ==> IsDigit(s[k])
    requires e == |s| || !IsDigit(s[e])
    ensures DigitsEnd(s, j) == e
    decreases e - j
  {
    if j < e {
      DigitsEndAt(s, j + 1, e);
    }
  }

  /** Reading one printed item that is followed by ',' or ']' consumes
      exactly its text and appends it. */
  lemma {:induction false} ParseItem(x: Packet, s: string, i: nat, acc: seq<Packet>)
    requires At(s, i, Print(x)) && i + |Print(x)| < |s|
    requires s[i + |Print(x)|] == ',' || s[i + |Print(x)|] == ']'
    ensures ParseItems(s, i, acc) == ParseItems(s, i + |Print(x)|, acc + [x])
    decreases Size(x), 0
  {
    match x
    case Int(n) =>
      ParseNumber(n, s, i, acc);
    case List(items) =>
      var t := Print(x);
      assert s[i] == t[0] by { assert s[i..i + |t|][0] == s[i]; }
      AtSplit(s, i, "[", Join(items) + "]");
      ParseList(items, s, i + 1, []);
      assert [] + items == items;
      assert |t| == |Join(items)| + 2;
  }

  /** A printed number followed by a non-digit is read back as itself. */
  lemma ParseNumber(n: u32, s: string, i: nat, acc: seq<Packet>)
    requires At(s, i, NatToString(n as nat)) && i + |NatToString(n as nat)| < |s|
    requires !IsDigit(s[i + |NatToString(n as nat)|])
    ensures ParseItems(s, i, acc) == ParseItems(s, i + |NatToString(n as nat)|, acc + [Int(n)])
  {
    var t := NatToString(n as nat);
    assert forall k :: i <= k < i + |t| ==> s[k] == t[k - i] by {
      forall k | i <= k < i + |t| ensures s[k] == t[k - i] {
        assert s[i..i + |t|][k - i] == s[k];
      }
    }
    DigitsEndAt(s, i + 1, i + |t|);
    assert s[i..i + |t|] == t;
  }

  /** Reading the printed items of a list followed by its closing bracket
      yields exactly that list and stops just past the bracket. */
  lemma {:induction false} ParseList(items: seq<Packet>, s: string, i: nat, acc: seq<Packet>)
    requires At(s, i, Join(items) + "]")
    ensures ParseItems(s, i, acc) == Parsed(List(acc + items), i + |Join(items)| + 1)
    decreases SeqSize(items), 2
  {
    if items == [] {
      assert s[i] == ']' by { assert s[i..i + 1][0] == s[i]; }
      assert acc + items == acc;
    } else if |items| == 1 {
      AtSplit(s, i, Print(items[0]), "]");
      var k := i + |Print(items[0])|;
      assert s[k] == ']' by { assert s[k..k + 1][0] == s[k]; }
      ParseItem(items[0], s, i, acc);
      assert items == [items[0]];
    } else {
      var x, rest := items[0], items[1..];
      JoinConsAt(s, i, x, rest);
      ParseListCons(x, rest, s, i, acc);
      assert items == [x] + rest;
    }
  }

  /** One printed item, a comma, then the printed rest of the list. */
  lemma {:induction false} ParseListCons(x: Packet, rest: seq<Packet>, s: string, i: nat, acc: seq<Packet>)
    requires At(s, i, Print(x)) && i + |Print(x)| < |s| && s[i + |Print(x)|] == ','
    requires At(s, i + |Print(x)| + 1, Join(rest) + "]")
    ensures ParseItems(s, i, acc) == Parsed(List(acc + ([x] + rest)), i + |Print(x)| + 1 + |Join(rest)| + 1)
    decreases Size(x) + SeqSize(rest), 1
  {
    var k := i + |Print(x)|;
    ParseItem(x, s, i, acc);
    SkipComma(s, k, acc + [x]);
    ParseList(rest, s, k + 1, acc + [x]);
    assert acc + [x] + rest == acc + ([x] + rest);
  }

  lemma JoinConsAt(s: string, i: nat, x: Packet, rest: seq<Packet>)
    requires rest != [] && At(s, i, Join([x] + rest) + "]")
    ensures At(s, i, Print(x)) && i + |Print(x)| < |s| && s[i + |Print(x)|] == ','
    ensures At(s, i + |Print(x)| + 1, Join(rest) + "]")
    ensures |Join([x] + rest)| == |Print(x)| + 1 + |Join(rest)|
  {
    var px := Print(x);
    assert ([x] + rest)[1..] == rest;
    assert Join([x] + rest) + "]" == px + ("," + (Join(rest) + "]"));
    AtSplit(s, i, px, "," + (Join(rest) + "]"));
    AtSplit(s, i + |px|, ",", Join(rest) + "]");
    assert s[i + |px|] == ',' by { assert s[i + |px|..i + |px| + 1][0] == s[i + |px|]; }
  }

  lemma SkipComma(s: string, k: nat, acc: seq<Packet>)
    requires k < |s| && s[k] == ','
    ensures ParseItems(s, k, acc) == ParseItems(s, k + 1, acc)
  {
  }

  /** Parsing the printed form of a list packet gives the packet back. */
  lemma PrintThenParse(p: Packet)
    requires p.List?
    ensures PacketOf(Print(p)) == Wrappers.Some(p)
  {
    var s := Print(p);
    assert s == "[" + Join(p.items) + "]";
    AtSplit(s, 0, "[", Join(p.items) + "]");
    ParseList(p.items, s, 1, []);
    assert [] + p.items == p.items;
  }

  /** Two list packets with the same text are the same packet. */
  lemma PrintInjective(p: Packet, q: Packet)
    requires p.List? && q.List? && Print(p) == Print(q)
    ensures p == q
  {
    PrintThenParse(p);
    PrintThenParse(q);
  }

  // ---------------------------------------------------------------------
  // Comparison

  /** The right-order check. Two integers compare by value; an integer
      against a list is compared as the singleton list holding it; two lists
      compare item by item, the first decided item deciding, and a list that
      runs out first is in the right order. */
  function Compare(left: Packet, right: Packet): (r: OrderIs)
    decreases Size(left) + Size(right), 0
  {
    match left
    case Int(a) =>
      (match right
       case Int(b) => if a < b then Ok else if a == b then NotSureYet else Ng
       case List(rs) => CompareLists([left], rs))
    case List(ls) =>
      (match right
       case Int(_) => CompareLists(ls, [right])
       case List(rs) => CompareLists(ls, rs))
  }

  function CompareLists(ls: seq<Packet>, rs: seq<Packet>): (r: OrderIs)
    decreases SeqSize(ls) + SeqSize(rs), 1
  {
    if ls == [] && rs == [] then NotSureYet
    else if ls == [] then Ok
    else if rs == [] then Ng
    else
      var o := Compare(ls[0], rs[0]);
      if o != NotSureYet then o else CompareLists(ls[1..], rs[1..])
  }

  /** An integer compared against anything behaves as the singleton list
      holding it, on either side. */
  lemma CompareWrapsIntegers(a: u32, q: Packet)
    ensures q.List? ==> Compare(Int(a), q) == Compare(List([Int(a)]), q)
    ensures q.List? ==> Compare(q, Int(a)) == Compare(q, List([Int(a)]))
  {
  }

  function Flip(o: OrderIs): OrderIs
  {
    match o
    case Ok => Ng
    case Ng => Ok
    case NotSureYet => NotSureYet
  }

  /** Swapping the two packets exchanges Ok and Ng. */
  lemma {:induction false} CompareSwap(a: Packet, b: Packet)
    ensures Compare(b, a) == Flip(Compare(a, b))
    decreases Size(a) + Size(b), 0
  {
    match a {
      case Int(x) =>
        match b {
          case Int(_) =>
          case List(bs) => CompareListsSwap([a], bs);
        }
      case List(as_) =>
        match b {
          case Int(_) => CompareListsSwap(as_, [b]);
          case List(bs) => CompareListsSwap(as_, bs);
        }
    }
  }

  lemma {:induction false} CompareListsSwap(ls: seq<Packet>, rs: seq<Packet>)
    ensures CompareLists(rs, ls) == Flip(CompareLists(ls, rs))
    decreases SeqSize(ls) + SeqSize(rs), 1
  {
    if ls != [] && rs != [] {
      CompareSwap(ls[0], rs[0]);
      CompareListsSwap(ls[1..], rs[1..]);
    }
  }

  /** A packet compared with itself is undecided. */
  lemma {:induction false} CompareSelf(p: Packet)
    ensures Compare(p, p) == NotSureYet
    decreases Size(p), 0
  {
    if p.List? {
      CompareListsSelf(p.items);
    }
  }

  lemma {:induction false} CompareListsSelf(ls: seq<Packet>)
    ensures CompareLists(ls, ls) == NotSureYet
    decreases SeqSize(ls), 1
  {
    if ls != [] {
      CompareSelf(ls[0]);
      CompareListsSelf(ls[1..]);
    }
  }

  lemma SeqSizeBound(ls: seq<Packet>, k: nat)
    requires k < |ls|
    ensures Size(ls[k]) + SeqSize(ls[k + 1..]) <= SeqSize(ls[k..])
  {
    assert ls[k..][1..] == ls[k + 1..];
  }

  /** The comparison as the source runs it: integers directly, anything
      else through the item-by-item loop. */
  method Ordered(left: Packet, right: Packet) returns (r: OrderIs)
    ensures r == Compare(left, right)
    decreases Size(left) + Size(right), 0
  {
    match left {
      case Int(a) =>
        match right {
          case Int(b) =>
            if a < b {
              r := Ok;
            } else if a == b {
              r := NotSureYet;
            } else {
              r := Ng;
            }
          case List(rs) =>
            r := OrderedLists([left], rs);
        }
      case List(ls) =>
        match right {
          case Int(_) =>
            r := OrderedLists(ls, [right]);
          case List(rs) =>
            r := OrderedLists(ls, rs);
        }
    }
  }

  /** Walks both lists in step until one item decides or a list runs out. */
  method OrderedLists(ls: seq<Packet>, rs: seq<Packet>) returns (r: OrderIs)
    ensures r == CompareLists(ls, rs)
    decreases SeqSize(ls) + SeqSize(rs), 1
  {
    var k := 0;
    while k < |ls| || k < |rs|
      invariant k <= |ls| && k <= |rs|
      invariant CompareLists(ls[k..], rs[k..]) == CompareLists(ls, rs)
      invariant SeqSize(ls[k..]) + SeqSize(rs[k..]) <= SeqSize(ls) + SeqSize(rs)
      decreases |ls| - k
    {
      if k == |ls| {
        return Ok;
      }
      if k == |rs| {
        return Ng;
      }
      SeqSizeBound(ls, k);
      SeqSizeBound(rs, k);
      var check := Ordered(ls[k], rs[k]);
      if check != NotSureYet {
        return check;
      }
      assert ls[k..][1..] == ls[k + 1..];
      assert rs[k..][1..] == rs[k + 1..];
      k := k + 1;
    }
    return NotSureYet;
  }

  datatype Ordering = Less | Equal | Greater

  /** The partial order the packets carry: Ok is less, Ng is greater, and
      an undecided comparison leaves them unordered. */
  function PartialCmp(a: Packet, b: Packet): (r: Wrappers.Option<Ordering>)
    ensures r == Wrappers.Some(Less) <==> Compare(a, b) == Ok
    ensures r == Wrappers.Some(Greater) <==> Compare(a, b) == Ng
    ensures r == Wrappers.None <==> Compare(a, b) == NotSureYet
  {
    match Compare(a, b)
    case Ok => Wrappers.Some(Less)
    case Ng => Wrappers.Some(Greater)
    case NotSureYet => Wrappers.None
  }

  /** `a < b` as the sort sees it. */
  predicate Lt(a: Packet, b: Packet)
  {
    PartialCmp(a, b) == Wrappers.Some(Less)
  }

  /** The order is asymmetric: a packet never sits both below and above
      another, and none is below itself. */
  lemma LtAsymmetric(a: Packet, b: Packet)
    ensures Lt(a, b) ==> !Lt(b, a)
    ensures !Lt(a, a)
  {
    CompareSwap(a, b);
    CompareSelf(a);
  }

  // ---------------------------------------------------------------------
  // Part 1: pairs in the right order

  datatype Pair = Pair(left: Packet, right: Packet)

  /** Sum of the 1-based indices of the pairs in the right order. */
  function SumOkPairs(pairs: seq<Pair>): nat
  {
    if pairs == [] then 0
    else
      var last := pairs[|pairs| - 1];
      SumOkPairs(pairs[..|pairs| - 1]) + (if Compare(last.left, last.right) == Ok then |pairs| else 0)
  }

  /** The sum is at most 1 + ... + n, and it is zero exactly when no pair
      is in the right order. */
  lemma {:induction false} SumOkPairsBounds(pairs: seq<Pair>)
    ensures 2 * SumOkPairs(pairs) <= |pairs| * (|pairs| + 1)
    ensures SumOkPairs(pairs) == 0 <==> forall i :: 0 <= i < |pairs| ==> Compare(pairs[i].left, pairs[i].right) != Ok
  {
    if pairs != [] {
      var n := |pairs|;
      var front := pairs[..n - 1];
      SumOkPairsBounds(front);
      assert forall i :: 0 <= i < |front| ==> front[i] == pairs[i];
      assert n * (n + 1) == (n - 1) * n + 2 * n;
    }
  }

  // ---------------------------------------------------------------------
  // Part 2: sorting with the dividers

  function Divider(n: u32): Packet
  {
    List([List([Int(n)])])
  }

  /** Both packets of every pair, in order. */
  function Flatten(pairs: seq<Pair>): (r: seq<Packet>)
    ensures |r| == 2 * |pairs|
    ensures forall i :: 0 <= i < |pairs| ==> r[2 * i] == pairs[i].left && r[2 * i + 1] == pairs[i].right
  {
    if pairs == [] then []
    else [pairs[0].left, pairs[0].right] + Flatten(pairs[1..])
  }

  /** No packet is below the one before it. */
  ghost predicate Sorted(s: seq<Packet>)
  {
    forall i :: 0 < i < |s| ==> !Lt(s[i], s[i - 1])
  }

  /** Stable insertion: x goes after the last packet it is not below. */
  function Insert(s: seq<Packet>, x: Packet): (r: seq<Packet>)
    ensures multiset(r) == multiset(s) + multiset{x}
    ensures |r| == |s| + 1
  {
    if s == [] then [x]
    else if Lt(x, s[|s| - 1]) then
      var r := Insert(s[..|s| - 1], x) + [s[|s| - 1]];
      assert s == s[..|s| - 1] + [s[|s| - 1]];
      r
    else s + [x]
  }

  lemma {:induction false} InsertSorted(s: seq<Packet>, x: Packet)
    requires Sorted(s)
    ensures Sorted(Insert(s, x))
    ensures s != [] ==> Insert(s, x)[|s|] == x || Insert(s, x)[|s|] == s[|s| - 1]
  {
    if s != [] {
      var last := s[|s| - 1];
      if Lt(x, last) {
        var front := s[..|s| - 1];
        assert Sorted(front);
        InsertSorted(front, x);
        var r := Insert(front, x);
        if front != [] {
          assert !Lt(last, front[|front| - 1]);
        }
        LtAsymmetric(x, last);
        assert !Lt(last, r[|r| - 1]);
        assert Insert(s, x) == r + [last];
        SortedSnoc(r, last);
      } else {
        assert Insert(s, x) == s + [x];
        SortedSnoc(s, x);
      }
    }
  }

  /** Appending a packet not below the last keeps a sequence sorted. */
  lemma SortedSnoc(s: seq<Packet>, x: Packet)
    requires Sorted(s) && (s != [] ==> !Lt(x, s[|s| - 1]))
    ensures Sorted(s + [x])
  {
    var t := s + [x];
    forall i | 0 < i < |t|
      ensures !Lt(t[i], t[i - 1])
    {
      if i < |s| {
        assert t[i] == s[i] && t[i - 1] == s[i - 1];
      }
    }
  }

  /** Flattens the pairs, appends the dividers [[2]] and [[6]] and sorts
      everything by the packet order. */
  method SortPackets(pairs: seq<Pair>) returns (sorted: seq<Packet>)
    ensures multiset(sorted) == multiset(Flatten(pairs) + [Divider(2), Divider(6)])
    ensures Sorted(sorted)
  {
    sorted := InsertAll(Flatten(pairs) + [Divider(2), Divider(6)]);
  }

  /** The insertion loop of `SortPackets`. */
  method InsertAll(all: seq<Packet>) returns (sorted: seq<Packet>)
    ensures multiset(sorted) == multiset(all)
    ensures Sorted(sorted)
  {
    sorted := [];
    var i := 0;
    while i < |all|
      invariant 0 <= i <= |all|
      invariant multiset(sorted) == multiset(all[..i])
      invariant Sorted(sorted)
    {
      InsertSorted(sorted, all[i]);
      sorted := Insert(sorted, all[i]);
      assert all[..i + 1] == all[..i] + [all[i]];
      i := i + 1;
    }
    assert all[..i] == all;
  }

  /** The divider test reads the printed text of the packet. */
  predicate IsDivider(p: Packet)
  {
    Print(p) == "[[2]]" || Print(p) == "[[6]]"
  }

  lemma DividerText(p: Packet, n: u32)
    requires n == 2 || n == 6
    ensures Print(p) == Print(Divider(n)) <==> p == Divider(n)
  {
    var t := Print(Divider(n));
    assert t[0] == '[';
    assert p.Int? ==> IsDigit(Print(p)[0]);
    if Print(p) == t && p.List? {
      PrintInjective(p, Divider(n));
    }
  }

  /** A packet passes the divider test exactly when it is [[2]] or [[6]]. */
  lemma IsDividerIff(p: Packet)
    ensures IsDivider(p) <==> p == Divider(2) || p == Divider(6)
  {
    assert Print(Divider(2)) == "[[2]]";
    assert Print(Divider(6)) == "[[6]]";
    DividerText(p, 2);
    DividerText(p, 6);
  }

  /** Product of the 1-based indices of the packets passing the divider
      test. */
  function FindDividers(packets: seq<Packet>): nat
  {
    if packets == [] then 1
    else FindDividers(packets[..|packets| - 1]) * (if IsDivider(packets[|packets| - 1]) then |packets| else 1)
  }

  /** When exactly the packets at a and b are dividers, the key is
      (a + 1) * (b + 1). */
  lemma {:induction false} DividersProduct(packets: seq<Packet>, a: nat, b: nat)
    requires a < b < |packets|
    requires forall i :: 0 <= i < |packets| ==> (IsDivider(packets[i]) <==> i == a || i == b)
    ensures FindDividers(packets) == (a + 1) * (b + 1)
  {
    DividersPrefix(packets, a, b, |packets|);
    assert packets[..|packets|] == packets;
  }

  lemma {:induction false} DividersPrefix(packets: seq<Packet>, a: nat, b: nat, n: nat)
    requires a < b < |packets| && n <= |packets|
    requires forall i :: 0 <= i < |packets| ==> (IsDivider(packets[i]) <==> i == a || i == b)
    ensures FindDividers(packets[..n]) == (if a < n then a + 1 else 1) * (if b < n then b + 1 else 1)
  {
    if n > 0 {
      DividersPrefix(packets, a, b, n - 1);
      assert packets[..n][..n - 1] == packets[..n - 1];
      assert packets[..n][n - 1] == packets[n - 1];
    }
  }

  // ---------------------------------------------------------------------
  // The puzzle's sample

  function SamplePairs(): seq<Pair>
  {
    [ Pair(List([Int(1), Int(1), Int(3), Int(1), Int(1)]), List([Int(1), Int(1), Int(5), Int(1), Int(1)])),
      Pair(List([List([Int(1)]), List([Int(2), Int(3), Int(4)])]), List([List([Int(1)]), Int(4)])),
      Pair(List([Int(9)]), List([List([Int(8), Int(7), Int(6)])])),
      Pair(List([List([Int(4), Int(4)]), Int(4), Int(4)]), List([List([Int(4), Int(4)]), Int(4), Int(4), Int(4)])),
      Pair(List([Int(7), Int(7), Int(7), Int(7)]), List([Int(7), Int(7), Int(7)])),
      Pair(List([]), List([Int(3)])),
      Pair(List([List([List([])])]), List([List([])])),
      Pair(List([Int(1), List([Int(2), List([Int(3), List([Int(4), List([Int(5), Int(6), Int(7)])])])]), Int(8), Int(9)]),
           List([Int(1), List([Int(2), List([Int(3), List([Int(4), List([Int(5), Int(6), Int(0)])])])]), Int(8), Int(9)]))
    ]
  }

  /** The sample verdicts are Ok, Ok, Ng, Ok, Ng, Ok, Ng, Ng. */
  lemma SampleOrdered()
    ensures forall k :: 0 <= k < 8 ==> Compare(SamplePairs()[k].left, SamplePairs()[k].right) == [Ok, Ok, Ng, Ok, Ng, Ok, Ng, Ng][k]
  {
    var ps := SamplePairs();
    assert Compare(ps[0].left, ps[0].right) == Ok;
    assert Compare(ps[1].left, ps[1].right) == Ok;
    assert Compare(ps[2].left, ps[2].right) == Ng;
    assert Compare(ps[3].left, ps[3].right) == Ok;
    assert Compare(ps[4].left, ps[4].right) == Ng;
    assert Compare(ps[5].left, ps[5].right) == Ok;
    assert Compare(ps[6].left, ps[6].right) == Ng;
    var a5, b5 := List([Int(5), Int(6), Int(7)]), List([Int(5), Int(6), Int(0)]);
    assert Compare(a5, b5) == Ng;
    var a4, b4 := List([Int(4), a5]), List([Int(4), b5]);
    assert CompareLists([a5], [b5]) == Ng;
    assert Compare(a4, b4) == Ng;
    var a3, b3 := List([Int(3), a4]), List([Int(3), b4]);
    assert CompareLists([a4], [b4]) == Ng;
    assert Compare(a3, b3) == Ng;
    var a2, b2 := List([Int(2), a3]), List([Int(2), b3]);
    assert CompareLists([a3], [b3]) == Ng;
    assert Compare(a2, b2) == Ng;
    assert CompareLists([a2, Int(8), Int(9)], [b2, Int(8), Int(9)]) == Ng;
    assert ps[7].left == List([Int(1), a2, Int(8), Int(9)]);
    assert Compare(ps[7].left, ps[7].right) == Ng;
  }

  /** The sample's right-order pairs are 1, 2, 4 and 6, which sum to 13. */
  lemma SampleSum()
    ensures SumOkPairs(SamplePairs()) == 13
  {
    var ps := SamplePairs();
    SampleOrdered();
    assert ps[..0] == [];
    assert ps[..1][..0] == ps[..0];
    assert SumOkPairs(ps[..1]) == 1;
    assert ps[..2][..1] == ps[..1];
    assert SumOkPairs(ps[..2]) == 3;
    assert ps[..3][..2] == ps[..2];
    assert SumOkPairs(ps[..3]) == 3;
    assert ps[..4][..3] == ps[..3];
    assert SumOkPairs(ps[..4]) == 7;
    assert ps[..5][..4] == ps[..4];
    assert SumOkPairs(ps[..5]) == 7;
    assert ps[..6][..5] == ps[..5];
    assert SumOkPairs(ps[..6]) == 13;
    assert ps[..7][..6] == ps[..6];
    assert SumOkPairs(ps[..7]) == 13;
    assert ps[..8][..7] == ps[..7];
    assert SumOkPairs(ps[..8]) == 13;
    assert ps[..8] == ps;
  }

  /** Sample lines parse to the sample packets. */
  lemma SampleParse()
    ensures PacketOf("[1,1,3,1,1]") == Wrappers.Some(SamplePairs()[0].left)
  {
    var ps := SamplePairs();
    assert Print(ps[0].left) == "[1,1,3,1,1]";
    PrintThenParse(ps[0].left);
  }

  lemma SampleParseNested()
    ensures PacketOf("[[8,7,6]]") == Wrappers.Some(SamplePairs()[2].right)
    ensures PacketOf("[[[]]]") == Wrappers.Some(SamplePairs()[6].left)
  {
    var ps := SamplePairs();
    assert Print(ps[2].right) == "[[8,7,6]]";
    PrintThenParse(ps[2].right);
    assert Print(ps[6].left) == "[[[]]]";
    PrintThenParse(ps[6].left);
  }
}
