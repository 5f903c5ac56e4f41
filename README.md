# Advent of Code 2022, days 1-15, modelled in Dafny

This project models the computational core of a Rust crate that solves the first fifteen
Advent of Code 2022 puzzles, one module `src/aoc_N/mod.rs` per day. Each Dafny file models
one day as one module; `wrappers.dfy` holds the shared `Option` and `Result` types
(`Result` carries the errors of the day 7 transcript interpreter).

| file | module | what the day computes |
|---|---|---|
| day01_calories.dfy | Calories | the top-3 `OrderedList` and the blank-line grouping of calorie counts |
| day02_rock_paper_scissors.dfy | RockPaperScissors | shapes, fights, scores and the part-2 strategy |
| day03_rucksack.dfy | Rucksack | item priorities and the common-item rules |
| day04_camp_cleanup.dfy | CampCleanup | section ranges: containment and overlap |
| day05_supply_stacks.dfy | SupplyStacks | the crate drawing parser and the two crane moves |
| day06_tuning_trouble.dfy | TuningTrouble | the first window of pairwise distinct characters |
| day07_no_space_left.dfy | NoSpaceLeft | the directory tree built from a `cd`/`ls` transcript and its sizes |
| day08_treetop.dfy | TreetopTreeHouse | directional running maxima, visibility and scenic scores |
| day09_rope_bridge.dfy | RopeBridge | knots following a moving head, and the cells the tail visits |
| day10_cathode_ray.dfy | CathodeRayTube | a two-instruction CPU driving a 40-column screen |
| day11_monkey_middle.dfy | MonkeyMiddle | monkeys throwing items between queues |
| day12_hill_climbing.dfy | HillClimbing | an elevation grid turned into a graph, and Dijkstra over it |
| day13_distress_signal.dfy | DistressSignal | a nested-list packet parser, printer and comparison |
| day14_regolith_reservoir.dfy | RegolithReservoir | sand falling through a sparse rock grid |
| day15_beacon_exclusion.dfy | BeaconExclusion | sensor diamonds cut into row intervals, and a tidy interval list |

The model follows the shape of the Rust code:
- Pure expressions and matches are functions.
- Loops that update local variables are methods with `while` loops, each proved against a
  specification function.
- Structures the Rust code mutates in place are classes with `modifies` clauses:
  - `OrderedList` (day 1)
  - the rope `Chain` (day 9)
  - the instruction `Stack` (day 10)
  - the monkey `Troop` (day 11)
  - the node `Graph` (day 12)
  - the sand `Grid` (day 14)
- The day 8 maximum map is a two-dimensional array filled in place.

Conventions:
- Integers are unbounded.
- A Rust `panic!`, `unwrap()` on `None`, failed `assert!` or out-of-range index becomes an
  `Option`/`Result` error value, or a precondition where the Rust caller always guarantees it.
  Exception: strings are sequences of characters, so panics that depend on UTF-8 byte lengths
  of non-ASCII text are not modelled (see "Left out").
- Closures passed around in the Rust code (crane strategies, boundary checks, start and goal
  predicates, worry updates) become small datatypes with a dispatch function.

## Model

| member | source | states |
|---|---|---|
| Calories.OrderedList.constructor | src/aoc_1/mod.rs:57-61 | a new list holds no elements |
| Calories.OrderedList.Add | src/aoc_1/mod.rs:63-78 | the new contents are `Added(old contents, e)`: e inserted after every element ≥ e, and the last element dropped once the list exceeds three |
| Calories.OrderedList.Total | src/aoc_1/mod.rs:80-82 | the sum of an empty list is 0 |
| Calories.InsertPosition | src/aoc_1/mod.rs:67-70 | the downward scan stops at an index i ≤ length with every later element < e and the element before i (if any) ≥ e, so a tie is inserted after the existing element |
| Calories.InsertPositionIs | src/aoc_1/mod.rs:67-70 | any index with those two properties is the scan's result (uniqueness) |
| Calories.GrownSorted | src/aoc_1/mod.rs:63-72 | inserting at the scan position keeps a non-increasing list non-increasing |
| Calories.GrownContents | src/aoc_1/mod.rs:72 | the insertion adds exactly one occurrence of e (length +1, multiset + {e}) |
| Calories.GrownThird | src/aoc_1/mod.rs:72-76 | after an insertion into a full list the third element never decreases |
| Calories.AddedIsGrown | src/aoc_1/mod.rs:72-76 | `add` is the insertion followed by popping the last element when the length exceeds three |
| Calories.AddedSorted | src/aoc_1/mod.rs:63-78 | `add` keeps the list non-increasing |
| Calories.AddedLength | src/aoc_1/mod.rs:74-76 | `add` grows a short list by one and keeps a full list at three |
| Calories.FullStep | src/aoc_1/mod.rs:63-78 | on a full list, `add` keeps the kept values a sub-multiset of all values seen, and every dropped value is ≤ the smallest kept one |
| Calories.AddAllInvariant | src/aoc_1/mod.rs:29-41 | after any series of adds the list is non-increasing, has min(3, n) elements drawn from the inputs, and everything dropped is ≤ its last element |
| Calories.AddAllIsTopThree | src/aoc_1/mod.rs:29-43 | after any series of adds the list holds min(3, n) of the inputs in non-increasing order and no dropped value exceeds any kept one: it is the top three |
| Calories.OrderedListExample | src/aoc_1/mod.rs:90-106 | adding 3, 2, 1 gives [3, 2, 1] with sum 6; then adding 4 gives [4, 3, 2] with sum 9 |
| Calories.MaxGroup | src/aoc_1/mod.rs:8-21 | the result is ≥ the total of every group closed by a blank line, and is one of those totals (or 0 when there is none) |
| Calories.TopThreeTotal | src/aoc_1/mod.rs:29-43 | the result is the sum of the top-three list after adding every closed group total in order |
| RockPaperScissors.DecodeShape | src/aoc_2/mod.rs:55-64 | A or X decode to Rock, B or Y to Paper, C or Z to Scissors, and nothing else decodes (iff) |
| RockPaperScissors.DecodeOutcome | src/aoc_2/mod.rs:114-123 | X, Y and Z decode to Lose, Draw and Win, and nothing else decodes (iff) |
| RockPaperScissors.Fight | src/aoc_2/mod.rs:67-73 | Win iff `me.beats() == other`, Draw iff the shapes are equal, Lose iff `me.is_beat_by() == other` |
| RockPaperScissors.ShapeScore | src/aoc_2/mod.rs:75-81 | a shape scores between 1 and 3 |
| RockPaperScissors.OutcomeScore | src/aoc_2/mod.rs:104-112 | an outcome scores 0, 3 or 6 |
| RockPaperScissors.Play | src/aoc_2/mod.rs:99-101 | a round scores 1..9 and its remainder mod 3 is the shape score's |
| RockPaperScissors.Strategy | src/aoc_2/mod.rs:126-132 | the chosen shape, fought against `other`, yields exactly the wanted outcome |
| RockPaperScissors.BeatsInverse | src/aoc_2/mod.rs:83-97 | `beats` and `is_beat_by` are mutual inverses and neither returns its argument |
| RockPaperScissors.StrategyUnique | src/aoc_2/mod.rs:126-132 | a shape yields the wanted outcome iff it is the strategy's shape |
| RockPaperScissors.PlayTable | src/aoc_2/mod.rs:143-150 | the nine round scores are 4, 1, 7, 8, 5, 2, 3, 9, 6 |
| RockPaperScissors.StrategyTable | src/aoc_2/mod.rs:152-160 | the nine strategy answers of the test table |
| Rucksack.Priority | src/aoc_3/mod.rs:14-28 | 'a'..'z' map to 1..26 and 'A'..'Z' to 27..52; any other character has no priority (the fatal error) |
| Rucksack.PriorityInjective | src/aoc_3/mod.rs:14-28 | two letters with the same priority are the same letter |
| Rucksack.ToItems | src/aoc_3/mod.rs:88-93 | the item set holds exactly the characters of the string |
| Rucksack.UniquePriority | src/aoc_3/mod.rs:48-50 | a priority is produced iff the common set is one letter, and it is that letter's priority |
| Rucksack.CompartmentPriority | src/aoc_3/mod.rs:37-50 | a line counts only with even length and exactly one letter common to both halves, whose priority is returned; such a line always counts |
| Rucksack.BadgePriority | src/aoc_3/mod.rs:65-82 | a group counts only with exactly one item common to all three lines, whose priority is returned; such a group always counts |
| Rucksack.SumCompartments | src/aoc_3/mod.rs:34-51 | the part-1 sum exists iff every line satisfies the part-1 rule |
| Rucksack.GroupShift | src/aoc_3/mod.rs:65 | the groups of three after the first are the groups of the remaining lines |
| Rucksack.SumBadges | src/aoc_3/mod.rs:59-83 | the part-2 sum exists iff the line count is a multiple of three and every group of three has a single badge |
| Rucksack.PriorityExamples | src/aoc_3/mod.rs:100-111 | a, z, A and Z have priorities 1, 26, 27 and 52 |
| CampCleanup.ContainsIsInclusion | src/aoc_4/mod.rs:55-57 | for well-formed ranges, `contains` holds iff every section of b is a section of a |
| CampCleanup.ContainsReflexive | src/aoc_4/mod.rs:55-57 | every range contains itself |
| CampCleanup.OverlapsSymmetric | src/aoc_4/mod.rs:59-64 | `overlaps` is symmetric |
| CampCleanup.OverlapsIsSharedSection | src/aoc_4/mod.rs:59-68 | for well-formed ranges, `overlaps` holds iff some section lies in both |
| CampCleanup.ContainsImpliesOverlaps | src/aoc_4/mod.rs:55-68 | containment implies overlap when the contained range is well-formed |
| CampCleanup.CountingRules | src/aoc_4/mod.rs:13-19 | a pair counts for part 2 iff the ranges overlap, and every part-1 pair also counts for part 2 |
| CampCleanup.CountPart1 | src/aoc_4/mod.rs:13-19 | the count is at most the number of pairs, equals it iff every pair has one range containing the other, and is 0 iff none does |
| CampCleanup.CountPart2 | src/aoc_4/mod.rs:29-35 | the count is at most the number of pairs, equals it iff every pair overlaps, and is 0 iff none does |
| CampCleanup.Examples | src/aoc_4/mod.rs:114-148 | the containment, non-containment, overlap and non-overlap test tables |
| SupplyStacks.HeaderEnd | src/aoc_5/mod.rs:44-47 | the drawing ends at the first line containing a digit: no earlier line has one, and that line (if any) does |
| SupplyStacks.ContainsDigit | src/aoc_5/mod.rs:45 | true iff the line contains a decimal digit |
| SupplyStacks.ReadDrawingLine | src/aoc_5/mod.rs:49-65 | reading one drawing line widens the pile list to the line's column count and puts each column's crate (if any) at the front, that is the bottom, of its pile; nothing else changes |
| SupplyStacks.ParseCrates | src/aoc_5/mod.rs:41-71 | the piles read from the lines above the label line hold, bottom first, the crates of each 4-character column; parsing resumes two lines later (after the blank line) |
| SupplyStacks.PileOfBeyond | src/aoc_5/mod.rs:55-57 | columns past the widest line have empty piles |
| SupplyStacks.HeaderEndFirst | src/aoc_5/mod.rs:44-47 | the reading loop stops exactly at the first digit line, or at the end of the input |
| SupplyStacks.PileOfSnoc | src/aoc_5/mod.rs:59-62 | one more line below the drawing puts its crate under the existing ones |
| SupplyStacks.Reverse | src/aoc_5/mod.rs:118 | the reversal has the same length and mirrored contents |
| SupplyStacks.TotalCratesUpdate | src/aoc_5/mod.rs:98-113 | replacing one pile changes the crate total by the difference of the pile sizes |
| SupplyStacks.MovedSpec | src/aoc_5/mod.rs:98-128 | a move succeeds iff `1 ≤ from, to ≤ piles` and `nb ≤` the size of pile `from`; then the top nb crates leave `from` and land on `to`, reversed for the one-by-one crane and in order for the stack crane, every other pile is unchanged and the crate total is preserved |
| SupplyStacks.DoMove | src/aoc_5/mod.rs:98-113 | the method computes exactly `Moved` |
| SupplyStacks.PushAll | src/aoc_5/mod.rs:108-111 | pushing the taken crates appends them to the back of pile t and changes nothing else |
| SupplyStacks.TopCode | src/aoc_5/mod.rs:154-157 | the code has at most one letter per pile, and when no pile is empty it is the top (back) crate of every pile in pile order |
| SupplyStacks.MovedAllKeepsCrates | src/aoc_5/mod.rs:150-152 | a sequence of moves that does not panic keeps the number of piles and of crates |
| SupplyStacks.ApplyMoves | src/aoc_5/mod.rs:150-152 | the loop applies the moves in order and stops at the first one that would panic |
| SupplyStacks.ExampleMove | src/aoc_5/mod.rs:236-300 | moving 3 crates from pile 1 to pile 3 of the sample gives [P, D, N, Z] one by one and [P, Z, N, D] by stack |
| SupplyStacks.ExampleCodes | src/aoc_5/mod.rs:154-157 | the sample's final piles give the codes CMZ and MCD |
| SupplyStacks.ExampleDrawing | src/aoc_5/mod.rs:182-207 | the sample drawing parses into [Z, N], [M, C, D] and [P] |
| SupplyStacks.ExampleLine0 | src/aoc_5/mod.rs:52-65 | the chunks of the sample's first drawing line |
| SupplyStacks.ExampleLine1 | src/aoc_5/mod.rs:52-65 | the chunks of the sample's second drawing line |
| SupplyStacks.ExampleLine2 | src/aoc_5/mod.rs:52-65 | the chunks of the sample's third drawing line |
| TuningTrouble.CharSetSize | src/aoc_6/mod.rs:16 | a window has at most as many distinct characters as its length, and exactly as many iff they are pairwise distinct |
| TuningTrouble.Add | src/aoc_6/mod.rs:24-29 | `add` appends c, drops the front character once the window is over `marker_size`, and never lets the window exceed `marker_size` |
| TuningTrouble.Window | src/aoc_6/mod.rs:7-14 | the window after i characters holds at most `marker_size` characters |
| TuningTrouble.WindowStep | src/aoc_6/mod.rs:11-16 | adding the next character yields the next window, and that window is full and distinct iff a marker ends there |
| TuningTrouble.ScanStep | src/aoc_6/mod.rs:11-18 | one loop iteration keeps the scan invariant: no marker before the position, and `found` iff a marker ends at it |
| TuningTrouble.FindMarker | src/aoc_6/mod.rs:5-22 | the result is 3 for strings of at most 3 characters; otherwise it is the 1-based end of the first window of `marker_size` distinct characters, or the string length when there is none; no earlier position ends a marker |
| TuningTrouble.ExampleMarkers | src/aoc_6/mod.rs:65-67 | in the first sample no marker ends at 4 and one ends at 5 |
| NoSpaceLeft.FindInChildren | src/aoc_7/mod.rs:59-68 | the result is the first child that is a folder with that name, and none when no child is |
| NoSpaceLeft.AddChildAt | src/aoc_7/mod.rs:45-50 | adding a child appends it to the folder under the cursor and leaves every other branch unchanged |
| NoSpaceLeft.PrefixIsCursor | src/aoc_7/mod.rs:30-35 | every prefix of a valid cursor path is a cursor, so moving up stays valid |
| NoSpaceLeft.ExtendIsCursor | src/aoc_7/mod.rs:209-220 | stepping into a folder child gives a valid cursor at that child |
| NoSpaceLeft.Parent | src/aoc_7/mod.rs:30-35 | the parent of the root is the root; otherwise it drops the last step of the path |
| NoSpaceLeft.Step | src/aoc_7/mod.rs:190-222 | interpreting one line keeps the state well-formed |
| NoSpaceLeft.Run | src/aoc_7/mod.rs:172-226 | interpreting a transcript keeps the state well-formed |
| NoSpaceLeft.RunStops | src/aoc_7/mod.rs:214-218 | after the first error the interpretation result no longer changes |
| NoSpaceLeft.RunNext | src/aoc_7/mod.rs:190-223 | the transcript is interpreted line by line |
| NoSpaceLeft.ReadListing | src/aoc_7/mod.rs:196-208 | the look-ahead loop consumes exactly the entry lines after `$ ls` and leaves the state the line-by-line interpretation reaches |
| NoSpaceLeft.Parse | src/aoc_7/mod.rs:172-226 | the parser returns the root that the line-by-line interpretation reaches, or its error |
| NoSpaceLeft.CdMovesCursor | src/aoc_7/mod.rs:192-195 | `cd /` moves to the root; `cd ..` at the root stays there and elsewhere moves to the parent |
| NoSpaceLeft.CdIntoSpec | src/aoc_7/mod.rs:209-220 | `cd name` fails iff the current folder has no folder child with that name; otherwise it moves to the first such child |
| NoSpaceLeft.ListingAppends | src/aoc_7/mod.rs:196-208 | the entries listed after `$ ls` are appended to the current folder's children in input order |
| NoSpaceLeft.NewNodes | src/aoc_7/mod.rs:228-252 | each entry line becomes one node |
| NoSpaceLeft.Blanks | src/aoc_7/mod.rs:70-87 | erasing folder sizes keeps the number of children |
| NoSpaceLeft.ComputeSize | src/aoc_7/mod.rs:70-87 | `compute_size` changes only folder sizes, leaves every folder's size equal to the sum of its children's sizes, and returns the total size of the files below |
| NoSpaceLeft.ComputeSizes | src/aoc_7/mod.rs:75-77 | sizing every child keeps the shape of the children and the sum of their sizes is their total file size |
| NoSpaceLeft.Preorder | src/aoc_7/mod.rs:115-125 | the visit sequence starts at the node and has one entry per node of the tree |
| NoSpaceLeft.PreorderAll | src/aoc_7/mod.rs:119-121 | visiting the children gives one entry per node below them |
| NoSpaceLeft.PreorderReaches | src/aoc_7/mod.rs:115-125 | every node reachable from the root is visited |
| NoSpaceLeft.PreorderAllHas | src/aoc_7/mod.rs:119-121 | visiting the children visits every node below each child |
| NoSpaceLeft.SumContributionsAppend | src/aoc_7/mod.rs:127-141 | the accumulated total over two visit segments is the sum of the two totals |
| NoSpaceLeft.TraversalTotal | src/aoc_7/mod.rs:127-141 | accumulating over the pre-order visit gives the recursive total of folder sizes ≤ 100000 |
| NoSpaceLeft.TraversalTotals | src/aoc_7/mod.rs:117-122 | the same for a list of children |
| NoSpaceLeft.FindTotal | src/aoc_7/mod.rs:127-141 | the result is the sum of the sizes of all folders of size ≤ 100000 |
| NoSpaceLeft.AvailableSpace | src/aoc_7/mod.rs:254-260 | the free space exists iff the root fits on the 70000000 disk, and free space + root size = 70000000 |
| NoSpaceLeft.FindMinDir | src/aoc_7/mod.rs:143-163 | a result exists iff the target `30000000 − free space` is positive; it is ≤ the size of every folder reaching the target and is one such size (or `u64::MAX` when none) |
| NoSpaceLeft.SampleSizesE | src/aoc_7/mod.rs:346-372 | folder e of the sample has size 584 |
| NoSpaceLeft.SampleSizesA | src/aoc_7/mod.rs:346-372 | folder a of the sample has size 94853 |
| NoSpaceLeft.SampleSizesD | src/aoc_7/mod.rs:346-372 | folder d of the sample has size 24933642 |
| NoSpaceLeft.SampleSizesChildren | src/aoc_7/mod.rs:346-372 | the sized children of the sample root |
| NoSpaceLeft.SampleSizesRoot | src/aoc_7/mod.rs:346-372 | the sample root has size 48381165 |
| NoSpaceLeft.SampleSmallTotal | src/aoc_7/mod.rs:374-385 | the small-folder totals of the sample's subtrees a and d |
| NoSpaceLeft.SampleSizes | src/aoc_7/mod.rs:346-385 | the sample sizes 48381165, 94853, 584 and 24933642 and the small-folder total 95437 |
| TreetopTreeHouse.DistToEdge | src/aoc_8/mod.rs:142-149 | the distance to the edge in a direction is 0 iff the boundary check holds for the cell |
| TreetopTreeHouse.Next | src/aoc_8/mod.rs:212-221 | off the edge, `move_coordinates` stays in the grid and brings the cell one step closer to that edge |
| TreetopTreeHouse.At | src/aoc_8/mod.rs:174-177 | walking k ≤ distance-to-edge steps stays inside the grid (no underflow) |
| TreetopTreeHouse.MaxBeyondIsMax | src/aoc_8/mod.rs:118-140 | the max-map value is an upper bound of every tree strictly beyond the cell in that direction, equals one of them off the edge, and is `TreeSize::MIN` exactly on that edge |
| TreetopTreeHouse.AtNext | src/aoc_8/mod.rs:174-177 | the walk from a cell is its first step followed by the walk from the neighbour |
| TreetopTreeHouse.MaxByDirection.Update | src/aoc_8/mod.rs:33-40 | `update` sets the entry of one direction and keeps the other three |
| TreetopTreeHouse.Update | src/aoc_8/mod.rs:118-140 | an entry not yet set becomes the maximum beyond the cell in that direction (from the already-filled neighbour entry); a set entry and all other cells are unchanged |
| TreetopTreeHouse.MakeMaxMap | src/aoc_8/mod.rs:86-116 | every entry of the filled map, in every direction, is the maximum height strictly beyond the cell, or `TreeSize::MIN` on that edge |
| TreetopTreeHouse.ScanRow | src/aoc_8/mod.rs:90-112 | one pass of the inner loop takes the map from the state before row `row` to the state after it |
| TreetopTreeHouse.UpdatePhase | src/aoc_8/mod.rs:92-111 | each of the four updates at a scan position fills exactly the entry the scan order predicts |
| TreetopTreeHouse.PhaseKnown | src/aoc_8/mod.rs:92-111 | when an update runs, its entry is still unset and its neighbour's entry in the same direction is already set (the source's `assert!` at 125-131 never fires) |
| TreetopTreeHouse.PhaseKeeps | src/aoc_8/mod.rs:92-111 | an update leaves the expected entries of every other cell unchanged |
| TreetopTreeHouse.NextPosition | src/aoc_8/mod.rs:90 | the state after all four updates at a cell is the state before the next cell |
| TreetopTreeHouse.NextRow | src/aoc_8/mod.rs:89 | the state after the last cell of a row is the state before the next row |
| TreetopTreeHouse.VisibleIff | src/aoc_8/mod.rs:51-59 | a tree is visible iff it is strictly taller than every tree beyond it in some direction, so every edge tree is visible |
| TreetopTreeHouse.VisibleInRow | src/aoc_8/mod.rs:158-162 | a row has at most as many visible trees as cells |
| TreetopTreeHouse.VisibleCountBound | src/aoc_8/mod.rs:151-164 | the count is at most rows × columns |
| TreetopTreeHouse.CountVisible | src/aoc_8/mod.rs:151-164 | the result is the number of visible trees, row by row |
| TreetopTreeHouse.CountRow | src/aoc_8/mod.rs:158-162 | the per-row count, read off the max map, is the number of visible trees of the row |
| TreetopTreeHouse.EdgeRowVisible | src/aoc_8/mod.rs:51-59 | every tree of the first and last rows is visible |
| TreetopTreeHouse.SeenSpec | src/aoc_8/mod.rs:173-179 | a walk from a cell counts between 1 and distance-to-edge + 1 trees, and every tree before the last counted one is lower than the viewing height |
| TreetopTreeHouse.SeenBlocked | src/aoc_8/mod.rs:175 | when the walk stops before the edge, the last counted tree is at least as tall |
| TreetopTreeHouse.ScenicDistanceSpec | src/aoc_8/mod.rs:166-181 | the scenic distance is 0 exactly on the edge; otherwise it counts the lower trees up to and including the first at least as tall, or up to the edge |
| TreetopTreeHouse.CalculateScenicDistance | src/aoc_8/mod.rs:166-181 | the loop computes exactly the scenic distance |
| TreetopTreeHouse.EdgeScoresZero | src/aoc_8/mod.rs:183-188 | an edge tree has scenic score 0 |
| TreetopTreeHouse.CalculateScenicScore | src/aoc_8/mod.rs:183-188 | the fold computes the product of the four scenic distances |
| TreetopTreeHouse.MaxScenicScore | src/aoc_8/mod.rs:190-202 | the result bounds every cell's score and is one of them (0 for an empty grid) |
| TreetopTreeHouse.SampleScores | src/aoc_8/mod.rs:353-362 | the sample scores 4 at (1, 2) and 8 at (3, 2) |
| TreetopTreeHouse.SampleMaxima | src/aoc_8/mod.rs:278-326 | the sample's maxima at (1, 1) are 0, 5, 2 and 5 |
| RopeBridge.ToOpSequence | src/aoc_9/mod.rs:48-63 | a move of distance d becomes exactly d unit steps in its direction |
| RopeBridge.MoveNext | src/aoc_9/mod.rs:94-106 | a follower touching its leader does not move; otherwise it steps by the sign of dx and dy; it always ends next to where it was, and touches the leader when the leader was at most 2 away on each axis |
| RopeBridge.Pulled | src/aoc_9/mod.rs:85-91 | the head moves first and each knot then follows its already-moved predecessor |
| RopeBridge.ChainStep | src/aoc_9/mod.rs:85-91 | a step keeps the number of knots |
| RopeBridge.PulledKeepsTouching | src/aoc_9/mod.rs:85-106 | if consecutive knots touch before a step they touch after it, and each knot touches where it was |
| RopeBridge.FollowerTouches | src/aoc_9/mod.rs:94-106 | a follower that touched the old leader position touches the new one after `move_next` |
| RopeBridge.ChainStepKeepsTouching | src/aoc_9/mod.rs:85-91 | a chain step keeps every pair of consecutive knots touching |
| RopeBridge.Chain.constructor | src/aoc_9/mod.rs:71-75 | a new chain has 10 knots, all at the origin |
| RopeBridge.Chain.MoveChain | src/aoc_9/mod.rs:85-91 | the knot array becomes the chain step of its old contents |
| RopeBridge.Follow | src/aoc_9/mod.rs:88-90 | the in-place loop over knots 1..n gives the chain step |
| RopeBridge.Run | src/aoc_9/mod.rs:115-121 | running a step sequence (one chain step per unit step) keeps the number of knots |
| RopeBridge.VisitedBounds | src/aoc_9/mod.rs:112-123 | the visited set contains the starting tail cell and has between 1 and steps + 1 cells |
| RopeBridge.RunKeepsTouching | src/aoc_9/mod.rs:115-121 | the knots keep touching throughout a run |
| RopeBridge.RunAppend | src/aoc_9/mod.rs:115-121 | one more step extends the run by a chain step and the visited set by the new tail cell |
| RopeBridge.OpsAppend | src/aoc_9/mod.rs:115-116 | the step sequence of the moves is the concatenation of each move's unit steps |
| RopeBridge.Extend | src/aoc_9/mod.rs:116-120 | the inner loop's state after j + 1 steps follows from the state after j |
| RopeBridge.TwoKnotStep | src/aoc_9/mod.rs:117-118 | a two-knot chain moves the head and then the tail by `move_next` |
| RopeBridge.TailPositions | src/aoc_9/mod.rs:108-124 | the result is the number of distinct cells the tail of a two-knot rope occupies, origin included, and is at most steps + 1 |
| RopeBridge.TailPositionsChain | src/aoc_9/mod.rs:126-139 | the same for the ten-knot chain |
| RopeBridge.RunTwoKnots | src/aoc_9/mod.rs:117-118 | the two-knot run matches the head-then-tail loop of `tail_positions` |
| RopeBridge.StraightRun | src/aoc_9/mod.rs:185-200 | after n ≥ 1 steps right from the origin the head is at (n, 0) and the tail at (n − 1, 0) |
| RopeBridge.SampleSteps | src/aoc_9/mod.rs:185-200 | after R 4 the head is at (4, 0) and the tail at (3, 0) |
| CathodeRayTube.UpdateRegister | src/aoc_10/mod.rs:14-19 | Noop leaves the register unchanged and Add(v) adds v |
| CathodeRayTube.ExecuteAppend | src/aoc_10/mod.rs:35-42 | running two instruction sequences in turn equals running their concatenation |
| CathodeRayTube.ExpandSpec | src/aoc_10/mod.rs:45-66 | expansion adds one extra cycle per addx, and running the expansion adds the sum of the addx values |
| CathodeRayTube.FromCommands | src/aoc_10/mod.rs:45-66 | `noop` becomes [Noop] and `addx v` becomes [Noop, Add(v)], in order |
| CathodeRayTube.Stack.constructor | src/aoc_10/mod.rs:45-66 | a stack built from commands holds their expansion |
| CathodeRayTube.Stack.UpdateRegisterFromStack | src/aoc_10/mod.rs:27-33 | popping pops exactly one instruction and applies it; an empty stack is the fatal error and nothing changes |
| CathodeRayTube.Stack.AfterNInstructions | src/aoc_10/mod.rs:35-42 | n pops apply the first n instructions and leave the rest; too few instructions is the fatal error |
| CathodeRayTube.SampleRegister | src/aoc_10/mod.rs:171-192 | the register after 1..5 cycles of noop, addx 3, addx −5 is 1, 1, 4, 4, −1 |
| CathodeRayTube.RunInstructions | src/aoc_10/mod.rs:114-133 | one pixel per instruction, lit iff `i mod 40` is within 1 of the register before instruction i |
| CathodeRayTube.Render | src/aoc_10/mod.rs:101-112 | the text has one symbol per pixel plus a newline before every pixel index that is a positive multiple of 40, at the predicted positions |
| MonkeyMiddle.Eval | src/aoc_11/mod.rs:147-163 | `*` and `+` give the product and sum of the two operands (`old` or a literal); the result is missing exactly when `-` would go below zero or `/` divides by zero, the cases where the unsigned arithmetic panics |
| MonkeyMiddle.InspectItem | src/aoc_11/mod.rs:22-35 | inspecting an item never yields "no item"; it fails exactly when the operation panics, and otherwise throws to one of the monkey's two targets |
| MonkeyMiddle.Throws | src/aoc_11/mod.rs:38-46 | a full turn throws each item once, in order, to one of the two targets |
| MonkeyMiddle.ThrowAll | src/aoc_11/mod.rs:42 | delivering throws keeps the number of monkeys |
| MonkeyMiddle.AfterProcess | src/aoc_11/mod.rs:38-46 | a turn that completes keeps the number of monkeys |
| MonkeyMiddle.TotalItemsUpdate | src/aoc_11/mod.rs:23 | replacing one queue changes the item total by the difference in its length |
| MonkeyMiddle.ThrowAllTotal | src/aoc_11/mod.rs:42 | each delivered throw adds exactly one item to the total |
| MonkeyMiddle.ThrowAllSpec | src/aoc_11/mod.rs:42 | each queue receives, at its back and in throw order, exactly the items thrown to it |
| MonkeyMiddle.ProcessKeepsTotal | src/aoc_11/mod.rs:38-46 | a completed turn neither creates nor loses items |
| MonkeyMiddle.ThrowAllOther | src/aoc_11/mod.rs:40-43 | throws to other monkeys commute with replacing the thrower's own queue |
| MonkeyMiddle.ProcessStep | src/aoc_11/mod.rs:59-62 | one monkey's turn keeps the game well formed (one queue and one counter per monkey) |
| MonkeyMiddle.RoundUpTo | src/aoc_11/mod.rs:59-62 | the turns of the first k monkeys keep the game well formed |
| MonkeyMiddle.Rounds | src/aoc_11/mod.rs:58-63 | n rounds keep the game well formed |
| MonkeyMiddle.RoundsKeepTotal | src/aoc_11/mod.rs:56-63 | playing any number of rounds keeps the total number of items |
| MonkeyMiddle.RoundKeepsTotal | src/aoc_11/mod.rs:59-62 | a partial round keeps the total number of items |
| MonkeyMiddle.TopTwoValues | src/aoc_11/mod.rs:65-68 | any two choices of the two largest counters agree on their values |
| MonkeyMiddle.TopTwoUnique | src/aoc_11/mod.rs:65-68 | the product of the two largest counters is uniquely determined, whatever ties there are |
| MonkeyMiddle.TopTwoProduct | src/aoc_11/mod.rs:65-68 | the result is the product of the two largest counters at distinct positions |
| MonkeyMiddle.ProductPositive | src/aoc_11/mod.rs:49 | with positive tests the dampening coefficient is positive |
| MonkeyMiddle.ProductOfTestsSpec | src/aoc_11/mod.rs:49 | the coefficient is a multiple of every monkey's test |
| MonkeyMiddle.ModuloDampenKeepsRoutes | src/aoc_11/mod.rs:48-54 | dampening modulo the product of the tests sends every item to the same monkey as the undampened worry would, with the worry reduced modulo that product |
| MonkeyMiddle.Troop.constructor | src/aoc_11/mod.rs:180-188 | a new troop has the given rules and queues and the default divide-by-3 dampening |
| MonkeyMiddle.Troop.Inspect | src/aoc_11/mod.rs:22-35 | an empty queue gives "no item" and changes nothing; otherwise the front item is removed and inspected |
| MonkeyMiddle.Troop.ProcessMonkey | src/aoc_11/mod.rs:38-46 | the loop leaves exactly the queues of the functional turn and returns the number of items the monkey held; a panicking operation is reported as failure |
| MonkeyMiddle.Troop.ThrowAndInspect | src/aoc_11/mod.rs:40-43 | one loop iteration delivers the current item, inspects the next and keeps the turn invariant, with the thrower's queue shrinking |
| MonkeyMiddle.Troop.UpdateDampenFunc | src/aoc_11/mod.rs:48-54 | the dampening becomes "modulo the product of all tests" and the queues are unchanged |
| MonkeyMiddle.Troop.PlayRound | src/aoc_11/mod.rs:59-62 | one round leaves the queues and counters of the functional round, and fails exactly when it does |
| MonkeyMiddle.Troop.PlayNRounds | src/aoc_11/mod.rs:56-69 | after n rounds the queues are those of the functional game, and the result is the product of the two largest inspection counts (missing on failure or with fewer than two monkeys) |
| MonkeyMiddle.TurnStep | src/aoc_11/mod.rs:40-43 | delivering a thrown item and inspecting the next keeps the turn invariant |
| MonkeyMiddle.TurnEnd | src/aoc_11/mod.rs:40 | when the loop stops, either the turn's throws failed, or every item was thrown and the queues are those of the functional turn |
| MonkeyMiddle.ThrowStep | src/aoc_11/mod.rs:42 | pushing one item to another monkey extends the delivered throws by that throw |
| MonkeyMiddle.ThrowsStep | src/aoc_11/mod.rs:40-41 | inspecting one more item extends the turn's throws by it, or makes the turn fail |
| MonkeyMiddle.ThrowsFailed | src/aoc_11/mod.rs:40 | once an item panics the whole turn fails |
| MonkeyMiddle.RoundFailed | src/aoc_11/mod.rs:59-62 | once a turn fails the whole round fails |
| MonkeyMiddle.RoundsFailed | src/aoc_11/mod.rs:58-63 | once a round fails all later ones do |
| MonkeyMiddle.SampleOperations | src/aoc_11/mod.rs:224-237 | the four sample operations map worry 2 to 38, 8, 4 and 5, and monkey 0 throws its first item, 79, as 500 to monkey 3 |
| HillClimbing.SquareFromChar | src/aoc_12/mod.rs:129-150 | exactly `S`, `E` and `a`-`z` are squares (anything else is the `unreachable!` panic); `S` is the start at elevation `a`, `E` the goal at elevation `z`, a letter its own elevation |
| HillClimbing.CanMoveDownIsReversedUp | src/aoc_12/mod.rs:42-49 | climbing up allows a rise of at most one; moving down from a to b is allowed exactly when moving up from b to a is |
| HillClimbing.MovePos | src/aoc_12/mod.rs:115-126 | there is no move exactly at the matching border; otherwise the move goes to an adjacent cell that stays within the bounds |
| HillClimbing.Step | src/aoc_12/mod.rs:228-248 | a direction contributes at most one neighbour: an adjacent cell of the grid that the climbing rule allows |
| HillClimbing.StepsUpToAll | src/aoc_12/mod.rs:227 | the four directions, in the order North, South, East, West, make up the neighbour list |
| HillClimbing.NeighborsOfSpec | src/aoc_12/mod.rs:227-250 | a cell has at most four neighbours, and q is one iff it is an adjacent cell of the grid that the climbing rule allows |
| HillClimbing.CreateGraph | src/aoc_12/mod.rs:209-255 | the graph has one node per grid cell, each unvisited at distance "infinite", carrying its square's flags and elevation and exactly its allowed neighbours |
| HillClimbing.LinkRow | src/aoc_12/mod.rs:216-251 | one pass over a row takes the graph from the state before that row to the state after it |
| HillClimbing.LinkSquare | src/aoc_12/mod.rs:217-250 | handling a cell creates its node if it is missing and links all four directions |
| HillClimbing.LinkDirection | src/aoc_12/mod.rs:228-249 | handling one direction links it, creating the neighbour's node when missing |
| HillClimbing.AddFresh | src/aoc_12/mod.rs:231-243 | creating a node for a cell not yet reached keeps the construction invariant |
| HillClimbing.AddEdge | src/aoc_12/mod.rs:246-247 | pushing an allowed neighbour extends the node's list as the invariant predicts |
| HillClimbing.NoEdge | src/aoc_12/mod.rs:228-230 | a direction off the grid or not allowed adds nothing and keeps the invariant |
| HillClimbing.NextCell | src/aoc_12/mod.rs:216 | the state after all directions of a cell is the state before the next cell |
| HillClimbing.NextRow | src/aoc_12/mod.rs:215 | the state after the last cell of a row is the state before the next row |
| HillClimbing.SquaresOf | src/aoc_12/mod.rs:155-158 | a line of valid characters becomes one square per character |
| HillClimbing.SampleGrid | src/aoc_12/mod.rs:359 | the sample map has 5 rows of 8 squares |
| HillClimbing.SampleNeighbors | src/aoc_12/mod.rs:359-392 | the sample map is rectangular, starts at (0, 0) and ends at (2, 5); going up, the start has two neighbours and the goal four |
| HillClimbing.GridGraphStructured | src/aoc_12/mod.rs:209-255 | the graph built from a map is keyed by position and its neighbour lists point into the graph, never to the node itself |
| HillClimbing.ShapeUpdate | src/aoc_12/mod.rs:302-303 | changing a node's distance or visited flag keeps the graph's shape |
| HillClimbing.PreppedOnStep | src/aoc_12/mod.rs:261-265 | the loop over nodes prepares one more node per iteration |
| HillClimbing.PreppedSpec | src/aoc_12/mod.rs:257-266 | preparation keeps the shape, leaves every node unvisited, and makes the distance-0 nodes exactly those passing the start check |
| HillClimbing.BeforeTotal | src/aoc_12/mod.rs:77-85 | the unvisited-set order (distance, then row, then column) is total and antisymmetric |
| HillClimbing.BeforeTrans | src/aoc_12/mod.rs:77-85 | that order is transitive |
| HillClimbing.FirstExists | src/aoc_12/mod.rs:280 | a non-empty set has a first element for that order, so `pop_first` returns something |
| HillClimbing.FirstUnique | src/aoc_12/mod.rs:280 | the first element is unique |
| HillClimbing.FrontierMember | src/aoc_12/mod.rs:193-207 | the unvisited set holds exactly the unvisited nodes with their current distance |
| HillClimbing.EntriesAdd | src/aoc_12/mod.rs:196-202 | inserting a new node's entry grows the set by that entry, which was not yet in it |
| HillClimbing.EntriesCard | src/aoc_12/mod.rs:204 | the set has one entry per node (the source's `assert_eq!` holds) |
| HillClimbing.EntriesAreFrontier | src/aoc_12/mod.rs:193-207 | on a prepared graph the built set is the frontier |
| HillClimbing.Retain | src/aoc_12/mod.rs:299 | `retain` keeps exactly the entries of other positions |
| HillClimbing.MinDist | src/aoc_12/mod.rs:302-303 | the minimum is one of its arguments and below neither (with "infinite" as the largest) |
| HillClimbing.GraphPathIsWalk | src/aoc_12/mod.rs:209-266 | the paths in the prepared graph are exactly the walks on the map that respect the climbing rule |
| HillClimbing.FirstOff | src/aoc_12/mod.rs:296-318 | a path that ends off the visited nodes leaves them at a first unvisited node |
| HillClimbing.FirstUnvisited | src/aoc_12/mod.rs:296-318 | on any path from a start to an unvisited node, the first unvisited node has a finite distance at most its index |
| HillClimbing.PopBound | src/aoc_12/mod.rs:280 | the popped distance is at most the length of any path from a start to an unvisited node |
| HillClimbing.Pop | src/aoc_12/mod.rs:280-294 | the popped entry is an unvisited node at its distance; an infinite one means no route exists, a goal one gives the shortest route, and otherwise its distance is exact |
| HillClimbing.RelaxPrefix | src/aoc_12/mod.rs:296-311 | relaxing neighbour i keeps neighbours 0..i relaxed |
| HillClimbing.PathExtend | src/aoc_12/mod.rs:296 | a path followed by a neighbour of its last node is a path |
| HillClimbing.RelaxNode | src/aoc_12/mod.rs:302-303 | after relaxing a neighbour, every node still has a witness path of its distance and a correct lower bound |
| HillClimbing.RelaxSearch | src/aoc_12/mod.rs:302-303 | relaxing a neighbour keeps the search invariant |
| HillClimbing.RelaxStep | src/aoc_12/mod.rs:297-311 | one relaxation of an unvisited neighbour advances the loop invariant |
| HillClimbing.RelaxFrontier | src/aoc_12/mod.rs:298-310 | remove-then-insert turns the set into the frontier of the updated nodes and keeps its size (the source's `assert_eq!` holds) |
| HillClimbing.RelaxSkip | src/aoc_12/mod.rs:297 | a visited neighbour is skipped and the invariant advances |
| HillClimbing.ShapeStructured | src/aoc_12/mod.rs:296-318 | updates that keep the shape keep the graph structured |
| HillClimbing.VisitNode | src/aoc_12/mod.rs:315-318 | marking the current node visited keeps every node's invariant |
| HillClimbing.Visit | src/aoc_12/mod.rs:315-318 | marking it visited keeps the search invariant and removes it from the frontier |
| HillClimbing.SearchInit | src/aoc_12/mod.rs:279 | the search invariant holds on the prepared graph with each start as its own path |
| HillClimbing.AllVisited | src/aoc_12/mod.rs:280-329 | when the set runs empty no node passes the goal check, the case the source marks unreachable |
| HillClimbing.Graph.constructor | src/aoc_12/mod.rs:152-178 | the graph built from a map is the grid graph of that map under the chosen climbing rule |
| HillClimbing.Graph.Prep | src/aoc_12/mod.rs:257-266 | the nodes become the prepared graph of the old nodes |
| HillClimbing.Graph.CreateUnvisitedSet | src/aoc_12/mod.rs:193-207 | the set holds every node's entry, one per node |
| HillClimbing.Graph.MinRoute | src/aoc_12/mod.rs:275-330 | Found(n): some start-to-goal path has n steps and none has fewer; NoRoute: no start reaches a goal; Exhausted: no node passes the goal check; the graph keeps its shape |
| HillClimbing.Graph.Settle | src/aoc_12/mod.rs:296-318 | relaxing the neighbours of a settled non-goal node and marking it visited keeps the search invariant and the set size |
| HillClimbing.Graph.RelaxNeighbors | src/aoc_12/mod.rs:296-312 | after the loop every neighbour of the current node is relaxed and the set is the frontier without the current node |
| DistressSignal.NatToString | src/aoc_13/mod.rs:23 | the decimal text of a number is a non-empty run of digits whose value is the number |
| DistressSignal.DigitsEnd | src/aoc_13/mod.rs:72-79 | the number scan stops at the first non-digit after the start, or at the end of the input |
| DistressSignal.ParseItems | src/aoc_13/mod.rs:60-91 | a successful read of a list body yields a list and ends within the input, after where it started |
| DistressSignal.PacketOf | src/aoc_13/mod.rs:53-58 | a packet is read only from a line starting with `[`, and it is a list |
| DistressSignal.ParsePacketRec | src/aoc_13/mod.rs:60-91 | the character loop with its recursive call on `[` reads exactly what the grammar of list bodies says, failing where the source panics |
| DistressSignal.ParsePacket | src/aoc_13/mod.rs:53-58 | reading a line checks the opening bracket and then reads the list body |
| DistressSignal.AtSplit | src/aoc_13/mod.rs:60-91 | text found at i splits into its two halves found at i and after the first |
| DistressSignal.DigitsEndAt | src/aoc_13/mod.rs:72-79 | the scan from j ends exactly at the first non-digit |
| DistressSignal.ParseItem | src/aoc_13/mod.rs:64-85 | reading the printed form of any item followed by `,` or `]` appends that item and continues after it |
| DistressSignal.ParseNumber | src/aoc_13/mod.rs:71-84 | reading a printed number appends that integer |
| DistressSignal.ParseList | src/aoc_13/mod.rs:64-90 | reading the printed items followed by `]` yields exactly those items and ends after the bracket |
| DistressSignal.ParseListCons | src/aoc_13/mod.rs:64-90 | the same for a list of several items, one item and its comma at a time |
| DistressSignal.JoinConsAt | src/aoc_13/mod.rs:24 | the printed form of several items is the first, a comma, and the rest |
| DistressSignal.SkipComma | src/aoc_13/mod.rs:85 | a comma is skipped |
| DistressSignal.PrintThenParse | src/aoc_13/mod.rs:20-91 | parsing the printed form of a list packet gives the packet back (the round trip the parse test relies on) |
| DistressSignal.PrintInjective | src/aoc_13/mod.rs:20-27 | two list packets with the same text are equal |
| DistressSignal.CompareWrapsIntegers | src/aoc_13/mod.rs:98-103 | comparing an integer with a list compares the one-element list holding it instead, on either side |
| DistressSignal.CompareSwap | src/aoc_13/mod.rs:93-125 | swapping the arguments swaps Ok and Ng and keeps NotSureYet |
| DistressSignal.CompareListsSwap | src/aoc_13/mod.rs:104-123 | the same for the list walk |
| DistressSignal.CompareSelf | src/aoc_13/mod.rs:93-125 | a packet compared with itself is NotSureYet |
| DistressSignal.CompareListsSelf | src/aoc_13/mod.rs:104-123 | the same for the list walk |
| DistressSignal.SeqSizeBound | src/aoc_13/mod.rs:105-120 | the list walk's recursive calls are on smaller packets |
| DistressSignal.Ordered | src/aoc_13/mod.rs:93-125 | the recursive comparison with its iterator loop returns the order of the structural comparison |
| DistressSignal.OrderedLists | src/aoc_13/mod.rs:104-123 | the two-iterator loop returns the first decided element comparison, Ok when the left runs out first, Ng when the right does |
| DistressSignal.PartialCmp | src/aoc_13/mod.rs:29-37 | `partial_cmp` is Less exactly for Ok, Greater exactly for Ng, and none exactly for NotSureYet |
| DistressSignal.LtAsymmetric | src/aoc_13/mod.rs:29-37 | the `<` the sort uses is asymmetric and irreflexive |
| DistressSignal.SumOkPairsBounds | src/aoc_13/mod.rs:127-135 | the sum of 1-based indices of right-ordered pairs is at most n(n + 1)/2, and is 0 exactly when no pair is in the right order |
| DistressSignal.Flatten | src/aoc_13/mod.rs:147-151 | flattening puts each pair's left then right packet in pair order |
| DistressSignal.Insert | src/aoc_13/mod.rs:160 | inserting adds exactly the one packet |
| DistressSignal.InsertSorted | src/aoc_13/mod.rs:160 | inserting into a sorted sequence keeps it sorted |
| DistressSignal.SortedSnoc | src/aoc_13/mod.rs:160 | appending a packet not below the last keeps a sequence sorted |
| DistressSignal.SortPackets | src/aoc_13/mod.rs:146-163 | the result is a permutation of all packets plus the two dividers, and no packet is `<` one before it |
| DistressSignal.InsertAll | src/aoc_13/mod.rs:160 | the stable insertion sort returns a sorted permutation of its input |
| DistressSignal.DividerText | src/aoc_13/mod.rs:170 | a packet prints as `[[2]]` (or `[[6]]`) exactly when it is that divider |
| DistressSignal.IsDividerIff | src/aoc_13/mod.rs:170 | the text test recognises exactly the two divider packets |
| DistressSignal.DividersProduct | src/aoc_13/mod.rs:165-173 | with the dividers at indices a < b and nowhere else, the result is (a + 1)(b + 1) |
| DistressSignal.DividersPrefix | src/aoc_13/mod.rs:165-173 | over a prefix, the fold multiplies the 1-based indices of the dividers seen so far |
| DistressSignal.SampleOrdered | src/aoc_13/mod.rs:232-241 | the eight sample pairs compare as Ok, Ok, Ng, Ok, Ng, Ok, Ng, Ng |
| DistressSignal.SampleSum | src/aoc_13/mod.rs:243-250 | the sample's right-ordered pairs sum to 13 |
| DistressSignal.SampleParse | src/aoc_13/mod.rs:215-222 | `[1,1,3,1,1]` reads as the first sample packet |
| DistressSignal.SampleParseNested | src/aoc_13/mod.rs:215-230 | `[[8,7,6]]` and `[[[]]]` read as the nested sample packets |
| RegolithReservoir.GetContent | src/aoc_14/mod.rs:33-39 | with the infinite floor on, every cell of the floor row is rock; elsewhere a cell is occupied exactly when it is in the map, with its recorded content |
| RegolithReservoir.Below | src/aoc_14/mod.rs:55-59 | the three candidate cells are one row down and at most one column aside |
| RegolithReservoir.MoveSandOnce | src/aoc_14/mod.rs:48-67 | a grain below the floor row falls out; otherwise it moves to the first free cell of straight down, down-left, down-right, and rests where it is exactly when none is free |
| RegolithReservoir.Settle | src/aoc_14/mod.rs:69-74 | following the single moves always ends, at rest or fallen out |
| RegolithReservoir.SettleLands | src/aoc_14/mod.rs:69-74 | a grain that comes to rest lands above the floor, inside the cone below its start, on its start or on a free cell |
| RegolithReservoir.PlaceGrain | src/aoc_14/mod.rs:69-80 | a grain that rests is recorded as sand at its rest cell and nothing else changes; a grain that falls out changes nothing |
| RegolithReservoir.Pour | src/aoc_14/mod.rs:93-100 | pouring grains never changes the floor or the floor mode |
| RegolithReservoir.SourceBlockedForever | src/aoc_14/mod.rs:82-103 | once a grain rests on the source (500, 0), every later grain rests there too and the cave stops changing: `drop_sand`'s loop, which runs while grains rest, never ends |
| RegolithReservoir.BlockedSourceExample | src/aoc_14/mod.rs:82-103 | the rock path `499,1 -> 501,1` draws three rocks under the source with lowest row 1; the first grain rests on the source, and so does grain n for every n, so `drop_sand` never ends on this input |
| RegolithReservoir.SourceBlockedStays | src/aoc_14/mod.rs:69-80 | after a grain rests on the source, the next one rests there too and placing it changes nothing |
| RegolithReservoir.GrainAddsOneCell | src/aoc_14/mod.rs:75-77 | a grain resting off its start adds exactly one new cell to the map |
| RegolithReservoir.Box | src/aoc_14/mod.rs:130-144 | the box drawn between two path points contains both points |
| RegolithReservoir.ColumnNext | src/aoc_14/mod.rs:141-143 | one more inner-loop iteration adds the next cell of the column |
| RegolithReservoir.ColumnsNext | src/aoc_14/mod.rs:140-144 | one more outer-loop iteration adds the next full column |
| RegolithReservoir.ColumnsDone | src/aoc_14/mod.rs:130-144 | the ordered ranges of both nested loops cover exactly the box between the two points |
| RegolithReservoir.FillColumn | src/aoc_14/mod.rs:141-143 | the inner loop adds exactly one column of rock |
| RegolithReservoir.FillSegment | src/aoc_14/mod.rs:130-144 | the nested loops add exactly the box between two points as rock |
| RegolithReservoir.DrawPath | src/aoc_14/mod.rs:126-147 | one line adds exactly the cells of its path as rock (its first point alone for a one-point line) |
| RegolithReservoir.MaxRow | src/aoc_14/mod.rs:150 | the lowest rock row: none for an empty cave (the `unwrap` panic), otherwise the largest y of a rock cell |
| RegolithReservoir.Grid.constructor | src/aoc_14/mod.rs:152-156 | a new grid has the given content and floor and no infinite floor |
| RegolithReservoir.Grid.AddFloor | src/aoc_14/mod.rs:190-191 | part 2 lowers the floor by two rows and turns the infinite floor on, keeping the content |
| RegolithReservoir.Grid.MoveSand | src/aoc_14/mod.rs:69-80 | the loop returns where the grain ends and the grid becomes the grid with that grain placed |
| RegolithReservoir.Grid.FillWithSand | src/aoc_14/mod.rs:105-121 | the count is the number of grains poured until one falls out or one rests on the source (that one counted), and the grid is the grid after pouring them |
| RegolithReservoir.Grid.DropSand | src/aoc_14/mod.rs:82-103 | the count is the number of grains that rested before the first fell out, or, corrected, before and including the first that blocks the source, and the grid is the grid after pouring them |
| RegolithReservoir.RestedStep | src/aoc_14/mod.rs:93-100 | one more grain resting off the source extends the run of rested grains |
| RegolithReservoir.Parse | src/aoc_14/mod.rs:123-157 | the rock cells are exactly the cells of all paths and the floor is the lowest rock row; an input without rock is the `unwrap` panic |
| RegolithReservoir.SampleFirstPath | src/aoc_14/mod.rs:204-219 | the first sample line draws (498, 4), (498, 5), (498, 6), (497, 6) and (496, 6) |
| RegolithReservoir.SampleSecondBoxes | src/aoc_14/mod.rs:205-234 | the segments of the second sample line draw the expected cells |
| RegolithReservoir.SampleSecondPath | src/aoc_14/mod.rs:205-234 | the second sample line draws exactly the fifteen expected cells |
| RegolithReservoir.SampleRocks | src/aoc_14/mod.rs:208-243 | the sample's rock is the union of both lines and its lowest row is 9 |
| RegolithReservoir.SampleLowestRow | src/aoc_14/mod.rs:243 | the lowest row of the sample's rock is 9 |
| BeaconExclusion.ManhattanDist | src/aoc_15/mod.rs:16-18 | the distance is 0 exactly between equal points and is at least the difference on each axis |
| BeaconExclusion.PartialCmp | src/aoc_15/mod.rs:37-45 | intervals compare by low end, then by high end: Equal exactly for equal intervals |
| BeaconExclusion.LtTotal | src/aoc_15/mod.rs:37-45 | that order is asymmetric and total on distinct intervals |
| BeaconExclusion.Merge | src/aoc_15/mod.rs:52-69 | two intervals stay apart exactly when a gap of at least one cell separates them, and are then returned ordered, the lower one first, with the gap between them |
| BeaconExclusion.MergeJoinedUnion | src/aoc_15/mod.rs:64-67 | a joined result is a well-formed interval covering exactly the cells of both |
| BeaconExclusion.Disjoin | src/aoc_15/mod.rs:71-88 | the pieces cover exactly the cells of the first interval not in the second, nothing is left exactly when the second covers the first, and two pieces lie on either side of the second |
| BeaconExclusion.DisjoinCells | src/aoc_15/mod.rs:72-85 | each of the six guarded cases yields the set difference (the `unreachable!` arm is never taken) |
| BeaconExclusion.Insert | src/aoc_15/mod.rs:98-127 | the loop over the list computes the clipped-and-merged list of the functional insert |
| BeaconExclusion.UnionAppend | src/aoc_15/mod.rs:107-120 | the cells of a concatenation are the union of the cells of its parts |
| BeaconExclusion.TidySnoc | src/aoc_15/mod.rs:110-120 | appending an interval beyond a gap after the last keeps the list sorted, separated and within bounds |
| BeaconExclusion.TailTidy | src/aoc_15/mod.rs:110 | the rest of a tidy list is tidy and lies beyond a gap after its head |
| BeaconExclusion.JoinedStep | src/aoc_15/mod.rs:112 | absorbing the next interval into the current one keeps the loop invariant |
| BeaconExclusion.DisjoinedStep | src/aoc_15/mod.rs:113-116 | emitting the lower interval and carrying on with the higher keeps the loop invariant |
| BeaconExclusion.MergeAllTidy | src/aoc_15/mod.rs:107-120 | the merge loop returns a sorted, separated list within the bounds |
| BeaconExclusion.MergeAllUnion | src/aoc_15/mod.rs:107-120 | the merge loop neither loses nor adds cells |
| BeaconExclusion.ClipCells | src/aoc_15/mod.rs:99-105 | an interval outside the bounds has no cells within them; otherwise clipping keeps exactly its cells within the bounds |
| BeaconExclusion.InsertKeepsTidy | src/aoc_15/mod.rs:98-127 | inserting into a tidy list gives a tidy list with the same bounds that covers the old cells plus the new interval's cells within the bounds |
| BeaconExclusion.IntersectWithY | src/aoc_15/mod.rs:160-171 | a row farther than the radius from the sensor misses the circle; otherwise the interval holds exactly the row's cells within the radius |
| BeaconExclusion.BeaconOnRim | src/aoc_15/mod.rs:141-150 | the nearest beacon lies within the circle and between its leftmost and rightmost columns |
| BeaconExclusion.EdgesBound | src/aoc_15/mod.rs:257-276 | the running minimum and maximum start at the i32 extremes and end at the smallest left edge and largest right edge of the circles |
| BeaconExclusion.Parse | src/aoc_15/mod.rs:255-286 | one circle per reading, in order, and the field's x range is the circles' extreme edges |
| BeaconExclusion.CoveredIntervals | src/aoc_15/mod.rs:207-221 | the loop inserts each circle's row intersection in order |
| BeaconExclusion.CoveredSetCons | src/aoc_15/mod.rs:208-218 | each circle adds its row intersection, clipped to the bounds, to the covered cells |
| BeaconExclusion.CoveredFromTidy | src/aoc_15/mod.rs:216-218 | inserting the circles keeps the list tidy and adds exactly the covered cells |
| BeaconExclusion.CoveredIsRow | src/aoc_15/mod.rs:207-221 | the list for a row is tidy and covers exactly the row's cells within the bounds that some sensor covers |
| BeaconExclusion.CellsCard | src/aoc_15/mod.rs:187 | an interval has high − low + 1 cells |
| BeaconExclusion.UnionAbove | src/aoc_15/mod.rs:184-187 | intervals all starting above a bound cover only cells above it |
| BeaconExclusion.TotalLengthIsCard | src/aoc_15/mod.rs:184-187 | for separated intervals the summed lengths equal the number of covered cells |
| BeaconExclusion.CountUnchecked | src/aoc_15/mod.rs:181-205 | the count is the number of the row's covered cells between the field's x bounds, minus the number of distinct beacons on that row |
| BeaconExclusion.BeaconsCovered | src/aoc_15/mod.rs:189-204 | every beacon on the row lies on it and is one of its covered cells, so it is subtracted from a counted cell |
| BeaconExclusion.SubtractOne | src/aoc_15/mod.rs:236-244 | disjoining every interval from one covered interval leaves exactly their cells outside it |
| BeaconExclusion.SubtractAll | src/aoc_15/mod.rs:231-245 | the fold over the covered intervals leaves exactly the cells outside all of them |
| BeaconExclusion.EmptyUnion | src/aoc_15/mod.rs:246 | a list of well-formed intervals is empty exactly when it covers no cell |
| BeaconExclusion.UncoveredRowMeaning | src/aoc_15/mod.rs:230-248 | a row's uncovered intervals hold exactly the cells of the x range no sensor covers, and are non-empty exactly when such a cell exists |
| BeaconExclusion.FindUncovered | src/aoc_15/mod.rs:223-252 | the map has an entry exactly for the rows of the y range with an uncovered cell, holding that row's uncovered intervals |
| BeaconExclusion.SampleMerge | src/aoc_15/mod.rs:383-400 | the three merges of the test give [-3, 5], [-3, -2] then [0, 5], and [0, 8] |
| BeaconExclusion.SampleIntersect | src/aoc_15/mod.rs:434-443 | a circle of radius 5 at the origin meets rows 0, ±5 and ±1 in [-5, 5], [0, 0] and [-4, 4] |
| BeaconExclusion.SampleInsert | src/aoc_15/mod.rs:402-432 | the seven test insertions into bounds [0, 20] leave [0, 3], [5, 12], [14, 16] |
| BeaconExclusion.SampleCircleExtent | src/aoc_15/mod.rs:328-343 | every sample circle lies between columns -8 and 28 |
| BeaconExclusion.SampleEdges | src/aoc_15/mod.rs:345-363 | the sample field's x range is -8 to 28 |

## Left out

Input, output and foreign code:
- `get_input` in `src/lib.rs` and every `aoc_N_M` entry point: they read files and print.
- The day 2 score total lives only in its entry points and is left out; `Play` and `Strategy` give each line's score. The day 3 sums and the day 4 counts are modelled as functions over in-memory lines.
- The `lazy_static!` regular expressions (days 4, 5, 7, 9, 10, 11, 14, 15): the regex engine is a foreign library. Each parser takes the already-split fields instead. The hand-written parsers are modelled: the crate drawing of day 5, the packet reader of day 13 and the map characters of day 12.
- The pairing of packet lines in `src/aoc_13/mod.rs:39-51` and the six-line monkey blocks in `src/aoc_11/mod.rs:94-107`: this is line framing around the regex and packet parsers.
- `Display` and debug output outside asserted properties: the day 7 tree printer, the day 8 map printer, the day 5 crate printer, and the debug `println!` in `min_route`. The day 10 screen layout is modelled.

Sharing, closures and machine integers:
- `Rc`/`RefCell`/`Weak` aliasing (days 7 and 12). The day 7 directory tree is an algebraic tree with a cursor path, and the day 12 graph is a map from position to node, with neighbours stored by position. Aliasing itself is not modelled.
- Boxed closures (day 11 worry updates and dampening, day 9 operation builders, day 8 boundary checks, day 12 start and goal checks) are small datatypes with a dispatch function.
- Integer widths: all integers are unbounded. Not modelled:
  - u64 overflow of worry levels (day 11) and of calorie sums (day 1);
  - i32 overflow of coordinates and the register (days 9, 10, 15);
  - the `checked_*_unsigned().unwrap()` panics in `src/aoc_15/mod.rs:145-156`;
  - the usize underflow of `x - 1` at x = 0 in `src/aoc_14/mod.rs:56`.
  The subtraction underflow and the division by zero of day 11 operations are modelled, as failures.
- The `usize::MAX` distance sentinel of day 12 is an explicit `Inf` value.

Preconditions the model adds:
- MonkeyMiddle.Troop.constructor: requires every monkey to throw to two other monkeys that exist, and every test to be positive. Otherwise the source indexes out of range or divides by zero. A monkey that throws to itself can loop forever in `process_monkey`, because an item that keeps routing back is pushed onto the queue being drained. The same requires also excludes self-throws that do end: `process_monkey` pops before it pushes, so an item whose worry eventually routes to the other target leaves the loop. For example, take op `old * 1`, test 2, true to monkey 1, false to itself, and item 9. Its worry goes 9, 3, 1, 0, and the last throw goes to monkey 1. The model does not cover such monkeys.
- TreetopTreeHouse: every operation on the height map requires `Forest.Valid()`: a rectangular grid of digits 0 to 9. The source's `ElvenMap::new` (`src/aoc_8/mod.rs:65-84`) panics on a non-digit character. It takes the column count from the last row, so with rows of different lengths it can index past the end of a shorter row.
- HillClimbing.Graph.constructor: requires a rectangular grid. With rows of different lengths the source can index past the end of a row.
- HillClimbing.Graph.MinRoute: requires a graph that is freshly built or prepared by `prep_min_route`, as in both entry points.

Algorithms modelled by an equivalent:
- MonkeyMiddle.Troop.PlayNRounds: the sort of the inspection counts is replaced by a scan for the two largest. `TopTwoUnique` shows the product does not depend on how ties are broken.
- DistressSignal.SortPackets: `slice::sort` is modelled as a stable insertion sort using the same `<`, which is `ordered(a, b) == Ok`. Transitivity of `ordered` is not proved, so the model proves only that no packet is `<` its predecessor, not that the order is total. The merge order of the standard library's sort on long inputs is not modelled.
- The 4,000,001-row scan of `aoc_15_2` is not modelled; `find_uncovered` is modelled for any ranges.

Weaker contracts:
- Rucksack.CompartmentPriority: lines are sequences of characters and are halved by character count. The source measures and splits the line in UTF-8 bytes (`len`, `split_at` at `src/aoc_3/mod.rs:37-41`). For ASCII lines the two agree. A non-ASCII line with an odd byte length fails the source's `assert!`, and a byte midpoint inside a character panics in `split_at`; neither panic is modelled, and such a line can score in the model.
- Calories.OrderedList.Total: states only that the empty list sums to 0. The sum of the kept values is the `Sum` function, and `AddAllIsTopThree` states what those values are.
- CampCleanup.CountPart1: states the bounds and the all-pairs and no-pair cases, not the exact count for mixed input.
- CampCleanup.CountPart2: the same as `CountPart1`.
- SupplyStacks.TopCode: exact only when no pile is empty. With empty piles it states only that the code is no longer than the number of piles.
- TuningTrouble.FindMarker: characterises the marker only for sizes of at least 3, the window the source preloads. For smaller sizes it states only the position bounds.
- BeaconExclusion.CountUnchecked: states the count only when the field has at least one sensor (`min_x <= max_x`).

Sample values from the tests that are not proved (each would take the verifier too long to evaluate):
- day 6: markers 6, 10 and 11 (the first sample, 5, is proved), and the size-14 markers 19, 23, 23, 29 and 26;
- day 7: the full replay of the sample session, and 24933642 as the result of `find_min_dir` (the size of that directory is proved);
- day 8: the visible count 21, and the maximum scenic score 8 of the whole sample grid (the scores at the two tested cells are proved);
- day 9: tail counts 13, 1 and 36;
- day 10: the rendered sample screen;
- day 11: 10605 and 2713310158;
- day 12: routes 31 and 29;
- day 13: the sorted order and the divider product 140;
- day 14: the grain counts 24 and 93, and the 20-cell count (the cells themselves are proved);
- day 15: the count 26, and row 11 → [14, 14].

## Findings

| source | as written | input that shows it | evidently intended | confidence | as-written member | corrected member |
|---|---|---|---|---|---|---|
| src/aoc_14/mod.rs:82-103 | `drop_sand` stops only when a grain falls out. Once a grain rests on the source (500, 0), `move_sand` reports every later grain at rest on that same cell, and the loop never ends | rock path `499,1 -> 501,1`: the first grain rests on (500, 0) at once | stop counting when the source is blocked, as `fill_with_sand` does at lines 114-116 | not executed | RegolithReservoir.BlockedSourceExample | RegolithReservoir.Grid.DropSand |
