/** Day 7: no space left on device. A terminal session (`cd` and `ls`
    commands with their output) is replayed to rebuild the directory tree;
    folder sizes are then computed bottom up and two traversals pick
    folders by size. The shared, parent-linked tree of the program is a
    tree value here, and the current folder is the path of child indices
    that leads to it from the root. */
module NoSpaceLeft {
  import opened Wrappers

  datatype Node =
    | Folder(name: string, size: nat, children: seq<Node>)
    | File(name: string, size: nat)

  /** One line of the session, already split into its fields. */
  datatype Line =
    | CdRoot
    | CdUp
    | CdInto(folder: string)
    | Ls
    | DirEntry(dirName: string)
    | FileEntry(fileSize: nat, fileName: string)

  predicate IsEntry(line: Line)
  {
    line.DirEntry? || line.FileEntry?
  }

  datatype Error = NoSuchFolder(missing: string) | EntryOutsideListing

  const Root: Node := Folder("/", 0, [])

  /** The first child that is a folder with the given name; files are
      ignored. */
  function FindInChildren(children: seq<Node>, name: string): (r: Option<nat>)
    ensures r.Some? ==> r.value < |children| && children[r.value].Folder? && children[r.value].name == name
    ensures r.Some? ==> forall k :: 0 <= k < r.value ==> !(children[k].Folder? && children[k].name == name)
    ensures r.None? ==> forall k :: 0 <= k < |children| ==> !(children[k].Folder? && children[k].name == name)
  {
    if children == [] then None
    else if children[0].Folder? && children[0].name == name then Some(0)
    else match FindInChildren(children[1..], name)
      case None => None
      case Some(i) => Some(i + 1)
  }

  /** `path` leads from `root` through folders' children. */
  predicate ValidPath(root: Node, path: seq<nat>)
    decreases path
  {
    path == [] || (root.Folder? && path[0] < |root.children| && ValidPath(root.children[path[0]], path[1..]))
  }

  function NodeAt(root: Node, path: seq<nat>): Node
    requires ValidPath(root, path)
    decreases path
  {
    if path == [] then root else NodeAt(root.children[path[0]], path[1..])
  }

  /** A cursor designates a folder of the tree. */
  predicate IsCursor(root: Node, path: seq<nat>)
  {
    ValidPath(root, path) && NodeAt(root, path).Folder?
  }

  /** Appends a child to the folder at `path`; nothing else in the tree
      changes. */
  function AddChildAt(root: Node, path: seq<nat>, child: Node): (r: Node)
    requires IsCursor(root, path)
    ensures IsCursor(r, path)
    ensures NodeAt(r, path) == NodeAt(root, path).(children := NodeAt(root, path).children + [child])
    ensures r.Folder? && r.name == root.name && r.size == root.size
    ensures path != [] ==> |r.children| == |root.children|
    ensures path != [] ==> forall k :: 0 <= k < |root.children| && k != path[0] ==> r.children[k] == root.children[k]
    decreases path
  {
    if path == [] then root.(children := root.children + [child])
    else root.(children := root.children[path[0] := AddChildAt(root.children[path[0]], path[1..], child)])
  }

  /** The folder a cursor's path goes through is a folder too. */
  lemma {:induction false} PrefixIsCursor(root: Node, path: seq<nat>, k: nat)
    requires ValidPath(root, path) && k < |path|
    ensures IsCursor(root, path[..k])
    decreases path
  {
    if k > 0 {
      PrefixIsCursor(root.children[path[0]], path[1..], k - 1);
      assert path[1..][..k - 1] == path[..k][1..];
    }
  }

  /** Going into a folder child of the cursor gives a cursor. */
  lemma {:induction false} ExtendIsCursor(root: Node, path: seq<nat>, i: nat)
    requires IsCursor(root, path) && i < |NodeAt(root, path).children| && NodeAt(root, path).children[i].Folder?
    ensures IsCursor(root, path + [i]) && NodeAt(root, path + [i]) == NodeAt(root, path).children[i]
    decreases path
  {
    if path != [] {
      ExtendIsCursor(root.children[path[0]], path[1..], i);
      assert (path + [i])[1..] == path[1..] + [i];
    }
  }

  /** `cd ..`: the parent folder, and the root for the root itself. */
  function Parent(cursor: seq<nat>): (p: seq<nat>)
    ensures cursor == [] ==> p == []
    ensures cursor != [] ==> p + [cursor[|cursor| - 1]] == cursor
  {
    if cursor == [] then [] else cursor[..|cursor| - 1]
  }

  /** The node an `ls` output line creates: an empty folder or a file. */
  function NewNode(entry: Line): Node
    requires IsEntry(entry)
  {
    if entry.DirEntry? then Folder(entry.dirName, 0, []) else File(entry.fileName, entry.fileSize)
  }

  /** The interpreter's state: the tree, the current folder, and whether the
      last command was `ls` (so that output lines may follow). */
  datatype State = State(root: Node, cursor: seq<nat>, listing: bool)

  predicate ValidState(st: State)
  {
    IsCursor(st.root, st.cursor)
  }

  /** Interprets one session line. `cd name` into a folder that is not a
      child, or an output line that does not follow `ls`, stops the
      session. */
  function Step(st: State, line: Line): (r: Result<State, Error>)
    requires ValidState(st)
    ensures r.Ok? ==> ValidState(r.value)
  {
    match line
    case CdRoot => Ok(State(st.root, [], false))
    case CdUp =>
      if st.cursor == [] then Ok(State(st.root, [], false))
      else PrefixIsCursor(st.root, st.cursor, |st.cursor| - 1); Ok(State(st.root, Parent(st.cursor), false))
    case Ls => Ok(st.(listing := true))
    case CdInto(name) =>
      var children := NodeAt(st.root, st.cursor).children;
      (match FindInChildren(children, name)
       case None => Err(NoSuchFolder(name))
       case Some(i) => ExtendIsCursor(st.root, st.cursor, i); Ok(State(st.root, st.cursor + [i], false)))
    case DirEntry(_) =>
      if st.listing then Ok(st.(root := AddChildAt(st.root, st.cursor, NewNode(line)))) else Err(EntryOutsideListing)
    case FileEntry(_, _) =>
      if st.listing then Ok(st.(root := AddChildAt(st.root, st.cursor, NewNode(line)))) else Err(EntryOutsideListing)
  }

  /** Replays a whole session from an empty root folder. */
  function Run(lines: seq<Line>): (r: Result<State, Error>)
    ensures r.Ok? ==> ValidState(r.value)
  {
    if lines == [] then Ok(State(Root, [], false))
    else
      match Run(lines[..|lines| - 1])
      case Err(e) => Err(e)
      case Ok(st) => Step(st, lines[|lines| - 1])
  }

  /** Once the session stops with an error, the later lines do not matter. */
  lemma {:induction false} RunStops(lines: seq<Line>, k: nat)
    requires k <= |lines| && Run(lines[..k]).Err?
    ensures Run(lines) == Run(lines[..k])
  {
    if k < |lines| {
      assert lines[..|lines| - 1][..k] == lines[..k];
      RunStops(lines[..|lines| - 1], k);
    } else {
      assert lines[..k] == lines;
    }
  }

  /** Reading one more line is one more step. */
  lemma RunNext(lines: seq<Line>, i: nat)
    requires i < |lines| && Run(lines[..i]).Ok?
    ensures Run(lines[..i + 1]) == Step(Run(lines[..i]).value, lines[i])
  {
    assert lines[..i + 1][..i] == lines[..i];
  }

  function RootOf(r: Result<State, Error>): Result<Node, Error>
  {
    match r
    case Ok(st) => Ok(st.root)
    case Err(e) => Err(e)
  }

  /** Adds each output line of an `ls`, from line `i` up to the next
      command, to the folder at `cursor`. */
  method ReadListing(lines: seq<Line>, i: nat, root: Node, cursor: seq<nat>) returns (next: nat, r: Node)
    requires 0 < i <= |lines|
    requires Run(lines[..i]) == Ok(State(root, cursor, true))
    ensures i <= next <= |lines|
    ensures next < |lines| ==> !IsEntry(lines[next])
    ensures Run(lines[..next]) == Ok(State(r, cursor, true))
  {
    next, r := i, root;
    while next < |lines| && IsEntry(lines[next])
      invariant i <= next <= |lines|
      invariant Run(lines[..next]) == Ok(State(r, cursor, true))
    {
      var entry := lines[next];
      RunNext(lines, next);
      next := next + 1;
      r := AddChildAt(r, cursor, NewNode(entry));
    }
  }

  /** Reads the session line by line; after `ls`, the output lines are read
      until the next command and each is added to the current folder. */
  method Parse(lines: seq<Line>) returns (r: Result<Node, Error>)
    ensures r == RootOf(Run(lines))
  {
    var root := Root;
    var cursor: seq<nat> := [];
    var i := 0;
    ghost var listing := false;
    while i < |lines|
      invariant 0 <= i <= |lines|
      invariant Run(lines[..i]) == Ok(State(root, cursor, listing))
      invariant i < |lines| && IsEntry(lines[i]) ==> !listing
    {
      var line := lines[i];
      RunNext(lines, i);
      i := i + 1;
      match line {
        case CdRoot =>
          cursor := [];
          listing := false;
        case CdUp =>
          cursor := Parent(cursor);
          listing := false;
        case Ls =>
          listing := true;
          i, root := ReadListing(lines, i, root, cursor);
        case CdInto(name) =>
          var child := FindInChildren(NodeAt(root, cursor).children, name);
          if child.None? {
            RunStops(lines, i);
            return Err(NoSuchFolder(name));
          }
          cursor := cursor + [child.value];
          listing := false;
        case DirEntry(_) =>
          RunStops(lines, i);
          return Err(EntryOutsideListing);
        case FileEntry(_, _) =>
          RunStops(lines, i);
          return Err(EntryOutsideListing);
      }
    }
    assert lines[..i] == lines;
    r := Ok(root);
  }

  /** `cd /` goes back to the root, `cd ..` goes up one folder and stays at
      the root when already there. Neither changes the tree. */
  lemma CdMovesCursor(st: State)
    requires ValidState(st)
    ensures Step(st, CdRoot) == Ok(State(st.root, [], false))
    ensures st.cursor == [] ==> Step(st, CdUp) == Ok(st.(listing := false))
    ensures st.cursor != [] ==>
      && Step(st, CdUp).Ok? && Step(st, CdUp).value.root == st.root
      && Step(st, CdUp).value.cursor + [st.cursor[|st.cursor| - 1]] == st.cursor
  {
  }

  /** `cd name` enters the first folder child with that name, skipping files
      and other names, and fails exactly when there is none. */
  lemma CdIntoSpec(st: State, name: string)
    requires ValidState(st)
    ensures var children := NodeAt(st.root, st.cursor).children;
      Step(st, CdInto(name)).Err? <==> forall k :: 0 <= k < |children| ==> !(children[k].Folder? && children[k].name == name)
    ensures Step(st, CdInto(name)).Ok? ==>
      var next := Step(st, CdInto(name)).value;
      var children := NodeAt(st.root, st.cursor).children;
      && next.root == st.root
      && |next.cursor| == |st.cursor| + 1 && next.cursor[..|st.cursor|] == st.cursor
      && var k := next.cursor[|st.cursor|];
      && NodeAt(next.root, next.cursor) == children[k]
      && children[k].Folder? && children[k].name == name
      && forall j :: 0 <= j < k ==> !(children[j].Folder? && children[j].name == name)
  {
    var children := NodeAt(st.root, st.cursor).children;
    match FindInChildren(children, name)
    case None =>
    case Some(i) =>
      ExtendIsCursor(st.root, st.cursor, i);
      assert (st.cursor + [i])[..|st.cursor|] == st.cursor;
  }

  /** The output lines of `ls` become children of the current folder in the
      order they are listed, and the cursor does not move. */
  lemma {:induction false} ListingAppends(lines: seq<Line>, entries: seq<Line>)
    requires Run(lines).Ok? && Run(lines).value.listing
    requires forall k :: 0 <= k < |entries| ==> IsEntry(entries[k])
    ensures Run(lines + entries).Ok?
    ensures var before := Run(lines).value;
      var after := Run(lines + entries).value;
      && after.cursor == before.cursor && after.listing
      && NodeAt(after.root, after.cursor).children
         == NodeAt(before.root, before.cursor).children + NewNodes(entries)
  {
    if entries == [] {
      assert lines + entries == lines;
    } else {
      var init := entries[..|entries| - 1];
      ListingAppends(lines, init);
      assert (lines + entries)[..|lines + entries| - 1] == lines + init;
      assert NewNodes(entries) == NewNodes(init) + [NewNode(entries[|entries| - 1])];
    }
  }

  function NewNodes(entries: seq<Line>): (r: seq<Node>)
    requires forall k :: 0 <= k < |entries| ==> IsEntry(entries[k])
    ensures |r| == |entries|
  {
    if entries == [] then [] else NewNodes(entries[..|entries| - 1]) + [NewNode(entries[|entries| - 1])]
  }

  // ---------------------------------------------------------------- sizes

  function SumSizes(nodes: seq<Node>): nat
  {
    if nodes == [] then 0 else nodes[0].size + SumSizes(nodes[1..])
  }

  /** Total size of the files below a node: the reference for folder sizes. */
  function FileTotal(n: Node): nat
    decreases n, 1
  {
    match n
    case File(_, size) => size
    case Folder(_, _, children) => FileTotals(children)
  }

  function FileTotals(nodes: seq<Node>): nat
    decreases nodes, 0
  {
    if nodes == [] then 0 else FileTotal(nodes[0]) + FileTotals(nodes[1..])
  }

  /** Every folder's size is the sum of its children's sizes. */
  predicate Sized(n: Node)
    decreases n, 1
  {
    match n
    case File(_, _) => true
    case Folder(_, size, children) => size == SumSizes(children) && AllSized(children)
  }

  predicate AllSized(nodes: seq<Node>)
    decreases nodes, 0
  {
    nodes == [] || (Sized(nodes[0]) && AllSized(nodes[1..]))
  }

  /** The tree with every folder size reset to 0: what `compute_size` must
      leave unchanged (names, kinds, order, file sizes). */
  function Blank(n: Node): Node
    decreases n, 1
  {
    match n
    case File(_, _) => n
    case Folder(name, _, children) => Folder(name, 0, Blanks(children))
  }

  function Blanks(nodes: seq<Node>): (r: seq<Node>)
    ensures |r| == |nodes|
    decreases nodes, 0
  {
    if nodes == [] then [] else [Blank(nodes[0])] + Blanks(nodes[1..])
  }

  /** Computes every folder's size from its children, bottom up. The result
      differs from the input in folder sizes only; each folder's size is
      the sum of its children's, and the total is the sum of all file sizes
      below. */
  function ComputeSize(n: Node): (r: Node)
    ensures Blank(r) == Blank(n)
    ensures Sized(r)
    ensures r.size == FileTotal(n)
    decreases n, 1
  {
    match n
    case File(_, _) => n
    case Folder(name, _, children) =>
      var sized := ComputeSizes(children);
      Folder(name, SumSizes(sized), sized)
  }

  function ComputeSizes(nodes: seq<Node>): (r: seq<Node>)
    ensures |r| == |nodes|
    ensures Blanks(r) == Blanks(nodes)
    ensures AllSized(r)
    ensures SumSizes(r) == FileTotals(nodes)
    decreases nodes, 0
  {
    if nodes == [] then []
    else
      var r := [ComputeSize(nodes[0])] + ComputeSizes(nodes[1..]);
      assert r[1..] == ComputeSizes(nodes[1..]);
      r
  }

  // ------------------------------------------------------------ traversal

  /** Pre-order traversal: a node, then each child's traversal in order. */
  function Preorder(n: Node): (p: seq<Node>)
    ensures |p| == Count(n) && p[0] == n
    decreases n, 1
  {
    [n] + (if n.Folder? then PreorderAll(n.children) else [])
  }

  function PreorderAll(nodes: seq<Node>): (p: seq<Node>)
    ensures |p| == Counts(nodes)
    decreases nodes, 0
  {
    if nodes == [] then [] else Preorder(nodes[0]) + PreorderAll(nodes[1..])
  }

  /** Number of nodes of a tree. */
  function Count(n: Node): nat
    decreases n, 1
  {
    1 + (if n.Folder? then Counts(n.children) else 0)
  }

  function Counts(nodes: seq<Node>): nat
    decreases nodes, 0
  {
    if nodes == [] then 0 else Count(nodes[0]) + Counts(nodes[1..])
  }

  /** The traversal meets every node on a path from the root. */
  lemma {:induction false} PreorderReaches(root: Node, path: seq<nat>)
    requires ValidPath(root, path)
    ensures NodeAt(root, path) in Preorder(root)
    decreases path
  {
    if path != [] {
      var i := path[0];
      PreorderReaches(root.children[i], path[1..]);
      PreorderAllHas(root.children, i);
    }
  }

  lemma {:induction false} PreorderAllHas(nodes: seq<Node>, i: nat)
    requires i < |nodes|
    ensures forall x :: x in Preorder(nodes[i]) ==> x in PreorderAll(nodes)
    decreases nodes
  {
    if i > 0 {
      PreorderAllHas(nodes[1..], i - 1);
    }
  }

  /** Limit under which a folder counts for the first answer. */
  const SmallDir: nat := 100000

  /** What a node adds to the first answer: its size if it is a small folder. */
  function SmallContribution(n: Node): nat
  {
    if n.Folder? && n.size <= SmallDir then n.size else 0
  }

  /** Sum of the small folder sizes, by structural recursion on the tree. */
  function SmallDirTotal(n: Node): nat
    decreases n, 1
  {
    SmallContribution(n) + (if n.Folder? then SmallDirTotals(n.children) else 0)
  }

  function SmallDirTotals(nodes: seq<Node>): nat
    decreases nodes, 0
  {
    if nodes == [] then 0 else SmallDirTotal(nodes[0]) + SmallDirTotals(nodes[1..])
  }

  function SumContributions(nodes: seq<Node>): nat
  {
    if nodes == [] then 0 else SumContributions(nodes[..|nodes| - 1]) + SmallContribution(nodes[|nodes| - 1])
  }

  lemma {:induction false} SumContributionsAppend(a: seq<Node>, b: seq<Node>)
    ensures SumContributions(a + b) == SumContributions(a) + SumContributions(b)
    decreases |b|
  {
    if b != [] {
      SumContributionsAppend(a, b[..|b| - 1]);
      assert (a + b)[..|a + b| - 1] == a + b[..|b| - 1];
    } else {
      assert a + b == a;
    }
  }

  /** Adding up along the traversal gives the structural sum. */
  lemma {:induction false} TraversalTotal(n: Node)
    ensures SumContributions(Preorder(n)) == SmallDirTotal(n)
    decreases n, 1
  {
    SumContributionsAppend([n], if n.Folder? then PreorderAll(n.children) else []);
    if n.Folder? {
      TraversalTotals(n.children);
    }
  }

  lemma {:induction false} TraversalTotals(nodes: seq<Node>)
    ensures SumContributions(PreorderAll(nodes)) == SmallDirTotals(nodes)
    decreases nodes, 0
  {
    if nodes != [] {
      TraversalTotal(nodes[0]);
      TraversalTotals(nodes[1..]);
      SumContributionsAppend(Preorder(nodes[0]), PreorderAll(nodes[1..]));
    }
  }

  /** The first answer: visits the tree in pre-order, adding the size of
      every folder of at most 100000. */
  method FindTotal(tree: Node) returns (total: nat)
    ensures total == SmallDirTotal(tree)
  {
    var nodes := Preorder(tree);
    total := 0;
    var i := 0;
    while i < |nodes|
      invariant 0 <= i <= |nodes|
      invariant total == SumContributions(nodes[..i])
    {
      assert nodes[..i + 1][..i] == nodes[..i];
      if nodes[i].Folder? && nodes[i].size <= SmallDir {
        total := total + nodes[i].size;
      }
      i := i + 1;
    }
    assert nodes[..i] == nodes;
    TraversalTotal(tree);
  }

  const DiskSize: nat := 70000000
  const NeededSpace: nat := 30000000
  const U64Max: nat := 0xFFFF_FFFF_FFFF_FFFF

  /** Free space on the disk; the unsigned subtraction fails when the root
      is bigger than the disk. */
  function AvailableSpace(root: Node): (r: Option<nat>)
    ensures r.Some? <==> root.size <= DiskSize
    ensures r.Some? ==> r.value + root.size == DiskSize
  {
    if root.size <= DiskSize then Some(DiskSize - root.size) else None
  }

  /** The second answer: the smallest folder whose removal frees enough
      space. The target is what is missing to reach 30000000 free; it must
      be positive, and a missing folder leaves the starting value u64::MAX. */
  method FindMinDir(tree: Node) returns (r: Option<nat>)
    ensures r.Some? <==> DiskSize - NeededSpace < tree.size <= DiskSize
    ensures r.Some? ==>
      var target := tree.size - (DiskSize - NeededSpace);
      && (forall d :: d in Preorder(tree) && d.Folder? && d.size >= target ==> r.value <= d.size)
      && (r.value == U64Max || exists d :: d in Preorder(tree) && d.Folder? && d.size >= target && d.size == r.value)
    ensures r.Some? && tree.Folder? ==> r.value <= tree.size
  {
    var available := AvailableSpace(tree);
    if available.None? || available.value > NeededSpace {
      return None;
    }
    var target := NeededSpace - available.value;
    if target == 0 {
      return None;
    }
    var nodes := Preorder(tree);
    var minSize := U64Max;
    var i := 0;
    while i < |nodes|
      invariant 0 <= i <= |nodes|
      invariant forall k :: 0 <= k < i && nodes[k].Folder? && nodes[k].size >= target ==> minSize <= nodes[k].size
      invariant minSize == U64Max || exists k :: 0 <= k < i && nodes[k].Folder? && nodes[k].size >= target && nodes[k].size == minSize
    {
      if nodes[i].Folder? && nodes[i].size >= target && nodes[i].size < minSize {
        minSize := nodes[i].size;
      }
      i := i + 1;
    }
    r := Some(minSize);
  }

  /** The tree of the sample session, before sizes are computed. */
  function SampleTree(): Node
  {
    Folder("/", 0, [
      Folder("a", 0, [
        Folder("e", 0, [File("i", 584)]),
        File("f", 29116), File("g", 2557), File("h.lst", 62596)]),
      File("b.txt", 14848514), File("c.dat", 8504156),
      Folder("d", 0, [File("j", 4060174), File("d.log", 8033020), File("d.ext", 5626152), File("k", 7214296)])])
  }

  function SampleE(): Node
  {
    Folder("e", 584, [File("i", 584)])
  }

  function SampleA(): Node
  {
    Folder("a", 94853, [SampleE(), File("f", 29116), File("g", 2557), File("h.lst", 62596)])
  }

  function SampleD(): Node
  {
    Folder("d", 24933642, [File("j", 4060174), File("d.log", 8033020), File("d.ext", 5626152), File("k", 7214296)])
  }

  lemma SampleSizesE()
    ensures ComputeSize(Folder("e", 0, [File("i", 584)])) == SampleE()
  {
    var cs := [File("i", 584)];
    assert ComputeSizes(cs[1..]) == [];
    assert ComputeSizes(cs) == cs;
  }

  lemma SampleSizesA()
    ensures ComputeSize(SampleTree().children[0]) == SampleA()
  {
    SampleSizesE();
    var cs := SampleTree().children[0].children;
    assert ComputeSizes(cs[4..]) == [];
    assert ComputeSizes(cs[3..]) == cs[3..];
    assert ComputeSizes(cs[2..]) == cs[2..];
    assert ComputeSizes(cs[1..]) == cs[1..];
    assert ComputeSizes(cs) == SampleA().children;
  }

  lemma SampleSizesD()
    ensures ComputeSize(SampleTree().children[3]) == SampleD()
  {
    var cs := SampleTree().children[3].children;
    assert ComputeSizes(cs[4..]) == [];
    assert ComputeSizes(cs[3..]) == cs[3..];
    assert ComputeSizes(cs[2..]) == cs[2..];
    assert ComputeSizes(cs[1..]) == cs[1..];
    assert ComputeSizes(cs) == cs;
  }

  function SampleRootChildren(): seq<Node>
  {
    [SampleA(), File("b.txt", 14848514), File("c.dat", 8504156), SampleD()]
  }

  lemma SampleSizesChildren()
    ensures ComputeSizes(SampleTree().children) == SampleRootChildren()
  {
    var cs := SampleTree().children;
    SampleSizesD();
    assert ComputeSizes(cs[4..]) == [];
    assert ComputeSizes(cs[3..]) == [SampleD()];
    assert ComputeSizes(cs[2..]) == SampleRootChildren()[2..];
    assert ComputeSizes(cs[1..]) == SampleRootChildren()[1..];
    SampleSizesA();
  }

  lemma SampleSizesRoot()
    ensures ComputeSize(SampleTree()) == Folder("/", 48381165, SampleRootChildren())
  {
    SampleSizesChildren();
    var r := SampleRootChildren();
    assert SumSizes(r[3..]) == 24933642;
    assert SumSizes(r[1..]) == 14848514 + 8504156 + 24933642;
  }

  lemma SampleSmallTotal()
    ensures SmallDirTotal(SampleA()) == 95437 && SmallDirTotal(SampleD()) == 0
  {
    var a := SampleA().children;
    assert SmallDirTotal(SampleE()) == 584 by {
      assert SmallDirTotals(SampleE().children[1..]) == 0;
    }
    assert SmallDirTotals(a[1..]) == 0 by {
      assert SmallDirTotals(a[4..]) == 0;
      assert SmallDirTotals(a[3..]) == 0;
      assert SmallDirTotals(a[2..]) == 0;
    }
    var d := SampleD().children;
    assert SmallDirTotals(d) == 0 by {
      assert SmallDirTotals(d[4..]) == 0;
      assert SmallDirTotals(d[3..]) == 0;
      assert SmallDirTotals(d[2..]) == 0;
      assert SmallDirTotals(d[1..]) == 0;
    }
  }

  /** On the sample, the root holds 48381165, folder a 94853, e 584 and d
      24933642; the small folders add up to 95437. */
  lemma SampleSizes()
    ensures var t := ComputeSize(SampleTree());
      && t.size == 48381165
      && t.children[0].size == 94853 && t.children[0].children[0].size == 584
      && t.children[3].size == 24933642
      && SmallDirTotal(t) == 95437
  {
    SampleSizesRoot();
    SampleSmallTotal();
    var cs := SampleRootChildren();
    assert SmallDirTotals(cs[4..]) == 0;
    assert SmallDirTotals(cs[3..]) == 0;
    assert SmallDirTotals(cs[2..]) == 0;
    assert SmallDirTotals(cs[1..]) == 0;
  }
}
