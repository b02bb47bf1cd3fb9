# Advent of Code 2024 solvers, modelled in Dafny

This project models the Rust puzzle solvers under `src/bin/` of an Advent of
Code 2024 repository. It models each solver's parsing, its algorithm and its
`part_one`/`part_two` answers. One Dafny module stands for each solver. The
code's own form is kept: loops that update variables, vectors and maps are
methods with loop invariants, and each method is proved against a pure
specification function. Panics (`unwrap`, `expect`, `panic!`, a subtraction
below zero, an index out of range, a division by zero) are modelled as a
`Panic` outcome, not excluded by preconditions.

| file | module | solver |
|---|---|---|
| `common.dfy` | `Common` | `Option`, the `Outcome` of a function that may panic, powers, Rust's truncating division and `as` casts, and a fold over parsed lines |
| `text.dfy` | `Text` | the parts of Rust's `str` used by the parsers: `lines`, `split`, `split_whitespace`, `trim`, `replace`, `parse` and `to_string` |
| `day17_computer.dfy` | `ChronospatialComputer` | 17.rs: the program decoder, the three-register interpreter `run`, and the base-8 seed search of `part_two` |
| `day06_guard.dfy` | `GuardPatrol` | 06.rs: the guard's walk with turns and visited marks, and loop detection over (position, direction) states |
| `day09_disk.dfy` | `DiskFragmenter` | 09.rs: the disk map, two-pointer compaction of unit cells, whole-file moves and the checksum |
| `day02_reports.dfy` | `RedNosedReports` | 02.rs: report safety and the variant that tolerates one bad level |
| `day07_bridge.dfy` | `BridgeRepair` | 07.rs: left-to-right `+`, `*` and `\|\|` reachability |
| `day11_pebbles.dfy` | `PlutonianPebbles` | 11.rs: the memoised stone-splitting recurrence |
| `day01_historian.dfy` | `HistorianHysteria` | 01.rs: the distance of the sorted columns and the similarity score |
| `day05_queue.dfy` | `PrintQueue` | 05.rs: ordering rules and the middle page of each update |
| `day08_antennas.dfy` | `ResonantCollinearity` | 08.rs: antinodes of antenna pairs on a bounded map |
| `day04_search.dfy` | `CeresSearch` | 04.rs: XMAS in eight directions, and the X-shaped MAS |
| `day14_robots.dfy` | `RestroomRedoubt` | 14.rs: robots moving with wrap-around, quadrant counts, and the first step with all robots on distinct cells |
| `day13_claws.dfy` | `ClawContraption` | 13.rs: Cramer's rule on the 2×2 system of each claw machine |
| `day10_trails.dfy` | `HoofIt` | 10.rs: depth-first search for climbs from 0 to 9, scored and rated |

Properties proved, by solver:
- **17.rs**: parsing the text form of any program gives back its raw list and the program, and the raw list is twice as long. Each instruction's effect is stated on its own; only OUT writes output, and every value it writes is below 8. The `run` loop computes the step-by-step semantics. The answer of `part_two` is either `u64::MAX` or a seed whose run prints the program. It is no larger than any seed the digit-by-digit reconstruction admits.
- **06.rs**: the walk with marks and count follows the walk over (position, direction) alone. `check_if_loop` reports a loop exactly when the guard never leaves the grid. `part_two` counts exactly the obstructions that make the guard walk forever.
- **09.rs**: the two-pointer loop works in place on an array. It panics exactly when the disk has no file. Otherwise it leaves the files before the free cells, as a permutation of the original disk. Whole-file moves keep the disk's length, and the set of moved objects never holds a file. Each move of `try_swapping` is the rightmost fit for its span. The loop of `part_two` ends on every input, because every move takes the disk down a well-founded order on where its files start.
- **02.rs, 07.rs, 08.rs, 10.rs**: each search or scan is proved against an independent reference definition, in both directions. Part two never gives less than part one; for 07.rs this holds when the operands are positive.
- **11.rs**: every memo entry is the un-memoised count, and the count is the length of the row after that many blinks.
- **01.rs, 05.rs, 13.rs, 14.rs, 04.rs**: each solver is proved against its reference definition, including sort independence, last-occurrence positions, Cramer uniqueness, composition of moves and quadrant partition.

Two places differ from a plain reading of the puzzle:
- In 17.rs `pow(2, n)` is evaluated on `i32`, because the literal 2 has no suffix. It overflows for n of 31 or more, so the model treats that as the fault `ShiftOverflow` rather than as a shift rule.
- JNZ jumps to an index into the decoded instruction list; the operand is not doubled.

## Model

| member | source | states |
|---|---|---|
| ChronospatialComputer.Opcode | src/bin/17.rs:10-19 | each instruction kind has its own opcode below 8 |
| ChronospatialComputer.DecodePair | src/bin/17.rs:36-50 | a decoded pair's opcode token is the instruction's opcode in decimal and its operand token parses as the `u8` operand; failures are a malformed number or an invalid opcode |
| ChronospatialComputer.EncodeLayout | src/bin/17.rs:38-39 | the raw list is twice as long as the decoded list and holds each opcode and operand at 2k and 2k + 1 |
| ChronospatialComputer.EncodeLength | src/bin/17.rs:38-39 | the raw list is twice as long as the decoded list |
| ChronospatialComputer.ParseInstructions | src/bin/17.rs:30-54 | strips the prefix, splits at commas, decodes pairs and gives the raw list and the decoded list, the first twice as long |
| ChronospatialComputer.DecodeLoop | src/bin/17.rs:33-52 | the pairwise loop panics as the decoding does and otherwise yields the raw list of the decoded program and the program |
| ChronospatialComputer.ContinueEmpty | src/bin/17.rs:33-52 | the decoding starts with nothing decoded |
| ChronospatialComputer.ContinueStep | src/bin/17.rs:35-51 | decoding one more pair moves it from the rest to the decoded list, or panics as that pair does |
| ChronospatialComputer.EncodeAppend | src/bin/17.rs:38-39 | one more instruction appends its opcode and operand to the raw list |
| ChronospatialComputer.Numerals | src/bin/17.rs:61 | each number rendered in decimal |
| ChronospatialComputer.ParseRender | src/bin/17.rs:30-54 | parsing the text form of any program gives back its raw list and the program |
| ChronospatialComputer.RemoveProgramPrefix | src/bin/17.rs:31 | removing "Program: " from a rendered program line leaves the rendered program |
| ChronospatialComputer.RenderChars | src/bin/17.rs:31-34 | a rendered program holds only digits and commas |
| ChronospatialComputer.JoinChars | src/bin/17.rs:33-34 | joining digit strings with a separator gives only digits and separators |
| ChronospatialComputer.DecodeRendered | src/bin/17.rs:36-50 | an instruction's opcode and operand in decimal decode back to it |
| ChronospatialComputer.DecodeNumerals | src/bin/17.rs:33-52 | the decimal raw list of a program decodes back to the program |
| ChronospatialComputer.ParseDigits | src/bin/17.rs:21-28 | succeeds exactly when the line has digits whose value fits `u64`, and then answers that value |
| ChronospatialComputer.Digits | src/bin/17.rs:24-25 | the filtered characters are all digits and no more than the line |
| ChronospatialComputer.XorBounded | src/bin/17.rs:128-139 | exclusive-or never needs more bits than its arguments |
| ChronospatialComputer.Combo | src/bin/17.rs:110-118 | operands 0 to 3 stand for themselves and 4, 5, 6 for A, B, C; 7 panics |
| ChronospatialComputer.DivPow | src/bin/17.rs:125-148 | the division by a power of two succeeds exactly below the `i32` overflow of `pow` at 31 and never grows the value |
| ChronospatialComputer.Step | src/bin/17.rs:120-150 | only OUT writes, one value below 8; JNZ jumps to its operand when A is not zero and everything else falls through; A changes only under ADV and never grows, C only under CDV; JNZ, BXL and BXC never fail |
| ChronospatialComputer.Run | src/bin/17.rs:103-153 | the register loop computes the run of the specification, and an empty program prints nothing |
| ChronospatialComputer.ExecOutput | src/bin/17.rs:141-143 | every value a run prints is below 8, and a run only appends to its output |
| ChronospatialComputer.ExecFuelMonotone | src/bin/17.rs:120-151 | more fuel never changes a run that ended within less |
| ChronospatialComputer.ByteFits64 | src/bin/17.rs:128 | an operand byte fits `u64` |
| ChronospatialComputer.StepFits64 | src/bin/17.rs:120-150 | no instruction takes a register out of `u64` range |
| ChronospatialComputer.PartOne | src/bin/17.rs:56-62 | empty input panics at the first `unwrap`; otherwise a bad first line passes on its parse panic, a missing fifth line gives None, a bad fifth line its parse panic, and a run either its panic or its output joined by commas |
| ChronospatialComputer.Children | src/bin/17.rs:89-93 | exactly the eight numbers whose division by 8 gives the candidate (k = 8 fails the test) |
| ChronospatialComputer.PushChildren | src/bin/17.rs:89-93 | the inner loop appends those children, in order |
| ChronospatialComputer.Pass | src/bin/17.rs:75-98 | one pass over the frontier is the specification's pass |
| ChronospatialComputer.SeedSearch | src/bin/17.rs:68-100 | the loop over the passes is the specification's search from the frontier 0..8 and `u64::MAX` |
| ChronospatialComputer.PartTwo | src/bin/17.rs:64-101 | None exactly when there is no fifth line; otherwise a bad fifth line panics as its parse does, and a good one gives the seed search's panic or its answer |
| ChronospatialComputer.DropDigitsZero | src/bin/17.rs:89-93 | dropping m base-8 digits leaves nothing exactly when the number is below 8^m |
| ChronospatialComputer.InFrontierStep | src/bin/17.rs:83-93 | a number is in the next frontier exactly when its parent matched in the current one |
| ChronospatialComputer.PassFromSpec | src/bin/17.rs:78-95 | the next frontier holds exactly the children of the matching candidates, and the result only moves to a smaller candidate whose run prints the whole raw list |
| ChronospatialComputer.SearchFromSpec | src/bin/17.rs:74-99 | through the passes the frontier is the set of numbers that fit the digit-wise reconstruction, and the result is the initial value or a seed printing the raw list, no larger than any reconstructing seed |
| ChronospatialComputer.SeedSearchSpec | src/bin/17.rs:64-101 | the answer is `u64::MAX` or a seed whose run prints the program's own raw list, and it is no larger than any seed the digit-wise reconstruction admits |
| ChronospatialComputer.FirstFrontierIff | src/bin/17.rs:70 | the seeds 0 to 7 are exactly the seeds of one base-8 digit |
| GuardPatrol.Add | src/bin/06.rs:53-59 | a signed step from an unsigned coordinate succeeds exactly when it stays within 0 and `usize::MAX`, and then it is the sum |
| GuardPatrol.AddTuple | src/bin/06.rs:47-51 | the position moves by the direction exactly when both coordinates can move |
| GuardPatrol.Get | src/bin/06.rs:91-101 | the cell at p, present exactly when p is on the grid |
| GuardPatrol.TurnRight | src/bin/06.rs:125-131 | N to E to S to W to N is a clockwise quarter turn (dr, dc) to (dc, -dr), defined exactly on the four compass directions |
| GuardPatrol.ParseCell | src/bin/06.rs:69-84 | exactly the seven characters `.X#^<>v` are cells, each the cell the source gives it, and the arrows are guards facing compass directions |
| GuardPatrol.ParseRow | src/bin/06.rs:67-85 | a line is a row exactly when every character is a cell, with one cell per character; otherwise the first bad character panics |
| GuardPatrol.ParseRows | src/bin/06.rs:63-87 | the lines are a grid exactly when every line is a row, one row per line |
| GuardPatrol.LastGuardInRow | src/bin/06.rs:73-74 | the last guard cell of a row, or none when the row has no guard |
| GuardPatrol.GuardPosition | src/bin/06.rs:62-74 | the last guard cell in row-major order, since every guard overwrites the position; `(usize::MAX, usize::MAX)` when there is none |
| GuardPatrol.ParseIntoMatrix | src/bin/06.rs:61-89 | the grid of the input's lines and the guard's position, or the panic of a bad character |
| GuardPatrol.Start | src/bin/06.rs:154-162 | both walks start from the position with the start cell's direction, that cell marked `Path(true)` and the count at 1; an off-grid position panics |
| GuardPatrol.Setup | src/bin/06.rs:108-118 | `check_if_loop` first puts an obstacle at idx and then starts the same way; an off-grid idx or position panics |
| GuardPatrol.Ahead | src/bin/06.rs:119-120 | the next cell in the walking direction, present exactly when it is reachable and on the grid |
| GuardPatrol.Advance | src/bin/06.rs:124-143 | a round ends the walk exactly when the next cell is off the grid |
| GuardPatrol.AdvanceCases | src/bin/06.rs:124-143 | at an obstacle the guard turns in place, panicking without a compass direction; at a floor cell it steps, marking and counting an unmarked one; at a guard cell it panics |
| GuardPatrol.MarkedRowIff | src/bin/06.rs:132-136 | the marked cells of a row are its `Path(true)` cells |
| GuardPatrol.MarkedRowsIff | src/bin/06.rs:132-136 | the marked cells of the first n rows are their `Path(true)` cells |
| GuardPatrol.MarkedIff | src/bin/06.rs:132-136 | the marked cells of the grid are exactly its `Path(true)` cells |
| GuardPatrol.LayoutAt | src/bin/06.rs:124-143 | grids of the same layout agree on which cells exist and on each cell up to its mark |
| GuardPatrol.MarkAdds | src/bin/06.rs:133-136 | marking a cell adds exactly that cell to the marked cells |
| GuardPatrol.MarkCell | src/bin/06.rs:133-136 | marking a floor cell keeps the layout and adds exactly that cell to the marked cells |
| GuardPatrol.MarkKeepsLayout | src/bin/06.rs:133-136 | marking a floor cell keeps the layout |
| GuardPatrol.AdvanceLayout | src/bin/06.rs:124-143 | a round never changes the layout |
| GuardPatrol.AdvanceTally | src/bin/06.rs:132-138 | a round keeps the layout, marks the cell the guard then stands on, and counts one exactly when that cell was unmarked |
| GuardPatrol.VisitedStep | src/bin/06.rs:164-194 | the visited positions grow by where each round stands |
| GuardPatrol.TallyStep | src/bin/06.rs:164-194 | layout, marks and count stay in step with the visited cells for one more round |
| GuardPatrol.TallyStart | src/bin/06.rs:161-162 | before any round the walk is in step with itself |
| GuardPatrol.FollowMarks | src/bin/06.rs:164-194 | along the walk the layout stays fixed, the marks are the initial ones plus the visited cells, and the count grew by the visited cells that were unmarked |
| GuardPatrol.FollowLayout | src/bin/06.rs:164-194 | the walk never changes the layout |
| GuardPatrol.FollowPrev | src/bin/06.rs:164 | a walk still going after n rounds was going after n - 1 |
| GuardPatrol.WalkCount | src/bin/06.rs:152-196 | part one's count is the number of distinct cells the guard stood on that were not marked `X` in the input |
| GuardPatrol.VisitedHasStart | src/bin/06.rs:155-162 | the start position is always among the visited ones |
| GuardPatrol.Project | src/bin/06.rs:119-148 | reducing a walk state to its (position, direction) keeps whether the walk is still going |
| GuardPatrol.AdvanceProject | src/bin/06.rs:124-143 | marks never steer the guard: a round moves the (position, direction) as on any grid of the same layout |
| GuardPatrol.FollowProject | src/bin/06.rs:119-148 | the full walk, reduced to (position, direction), is the walk on the fixed starting layout |
| GuardPatrol.FollowStepProject | src/bin/06.rs:119-148 | that agreement carries over from n rounds to n + 1 |
| GuardPatrol.NeverLeavesWalking | src/bin/06.rs:119-148 | the guard never leaves on the fixed layout exactly when the full walk, marks and count included, goes on forever |
| GuardPatrol.TraceOn | src/bin/06.rs:119 | round n + 1 is one more move from round n, or where the walk stopped |
| GuardPatrol.TraceSplit | src/bin/06.rs:119 | following i + m rounds is following m rounds from where i rounds led |
| GuardPatrol.TraceStuck | src/bin/06.rs:145-147 | once the walk has stopped it stays where it stopped |
| GuardPatrol.PeriodicAt | src/bin/06.rs:121-123 | a repeated (position, direction) makes the walk go on at every later round |
| GuardPatrol.GoingBefore | src/bin/06.rs:145-147 | a walk still going at round j was going at every earlier round |
| GuardPatrol.Periodic | src/bin/06.rs:121-123 | a repeated (position, direction) means the guard never leaves the grid, which justifies reporting a loop |
| GuardPatrol.SeenKeysHas | src/bin/06.rs:113-121 | a recorded state was reached at an earlier round |
| GuardPatrol.InUniverse | src/bin/06.rs:119-148 | every (position, direction) the loop can be in is on the grid with the start direction or a compass one |
| GuardPatrol.InUniverseRows | src/bin/06.rs:119-148 | the same, row by row |
| GuardPatrol.InUniverseRow | src/bin/06.rs:119-148 | the same, cell by cell |
| GuardPatrol.CheckIfLoop | src/bin/06.rs:103-150 | `check_if_loop` panics exactly as its setup or its walk does, and otherwise reports a loop exactly when the guard never leaves the grid |
| GuardPatrol.Round | src/bin/06.rs:124-143 | the `match` that ends a round is on the grid's next cell: turn, step or panic |
| GuardPatrol.AdvanceDir | src/bin/06.rs:125-131 | a round keeps the direction or turns it into a compass direction |
| GuardPatrol.LoopFrom | src/bin/06.rs:119-149 | the `while let` loop of `check_if_loop` reports what the walk from the start state does, and always stops |
| GuardPatrol.Pass | src/bin/06.rs:119-123 | one pass leaves exactly when the next cell is off the grid, reports a repeat exactly when the current state was recorded, and otherwise takes the round |
| GuardPatrol.WalkedStep | src/bin/06.rs:121-143 | a round from an unrecorded state keeps the loop's state and shrinks the set of states not yet recorded |
| GuardPatrol.OnTrack | src/bin/06.rs:119-148 | the state after t rounds is on the grid, at the key the fixed-layout walk reaches |
| GuardPatrol.ReportRepeat | src/bin/06.rs:121-122 | meeting a recorded state is a correct loop report with the count so far |
| GuardPatrol.ReportEnd | src/bin/06.rs:145-149 | leaving the grid is a correct no-loop report with the count so far |
| GuardPatrol.ReportPanic | src/bin/06.rs:130-141 | a panicking round is the report |
| GuardPatrol.SeenStep | src/bin/06.rs:121 | the loop records the state of every round it takes |
| GuardPatrol.FollowNext | src/bin/06.rs:119-148 | the round after round t is one `Advance` from it |
| GuardPatrol.RepeatFound | src/bin/06.rs:121-122 | a recorded state met again means the guard never leaves |
| GuardPatrol.Walk | src/bin/06.rs:163-195 | part one's walk returns the count when the guard leaves, panics with "Loop" on its start test only when the guard never leaves, passes on a round's panic, and runs out of fuel only while the guard is still walking after that many rounds |
| GuardPatrol.WalkLeaves | src/bin/06.rs:163-195 | when the guard leaves within the fuel, the walk answers exactly the count of that exit |
| GuardPatrol.LeavesReported | src/bin/06.rs:163-195 | the same per starting state: no other report is possible once the guard leaves in time |
| GuardPatrol.EndsAfter | src/bin/06.rs:164-194 | a walk that ends at round t is walking at every round up to t and has ended at every later one |
| GuardPatrol.EndsOnce | src/bin/06.rs:164-194 | a walk ends at one round only, with one count |
| GuardPatrol.NeverLeavesAt | src/bin/06.rs:164-194 | a guard that never leaves is walking at every round |
| GuardPatrol.FollowStuck | src/bin/06.rs:164-194 | a walk that has stopped stays where it stopped |
| GuardPatrol.PartOne | src/bin/06.rs:152-196 | part one passes on a parse panic, panics on an off-grid start, and otherwise reports what its walk does, with the same fuel |
| GuardPatrol.CheckPanics | src/bin/06.rs:208-212 | a panicking loop check means the walk with that obstruction panics |
| GuardPatrol.CheckCounts | src/bin/06.rs:208-215 | an answering loop check adds one exactly when the obstruction makes the guard walk forever |
| GuardPatrol.PartTwo | src/bin/06.rs:198-224 | part two counts the `Path(false)` cells whose obstruction makes the guard walk forever; it panics only when some loop check panics |
| GuardPatrol.CountLoops | src/bin/06.rs:201-222 | the sum over rows and cells is that count, and a panic means some check panicked |
| DiskFragmenter.Checksum | src/bin/09.rs:31-36 | a file at a position contributes position times its id, free space nothing |
| DiskFragmenter.CheckSumFreeTail | src/bin/09.rs:100-105 | free space appended at the end leaves the disk's checksum unchanged |
| DiskFragmenter.ParseIntoVec | src/bin/09.rs:39-63 | the pushed runs are exactly the disk the input describes: a digit at an even character index is a file with the next id, one at an odd index free space, packed into unit cells when asked, other characters skipped but counted for the parity |
| DiskFragmenter.ParseIds | src/bin/09.rs:40-52 | the files of the parsed disk carry the ids 0, 1, 2, ... in order, one per digit at an even index |
| DiskFragmenter.ParseUnits | src/bin/09.rs:45-56 | a disk parsed with `pack_as_one` consists of cells of length 1 only |
| DiskFragmenter.OnesAppend | src/bin/09.rs:65-82 | expanding to unit cells distributes over concatenation |
| DiskFragmenter.OnesSingle | src/bin/09.rs:69-78 | one run expands to as many unit cells of its kind and id as its length |
| DiskFragmenter.OnesLength | src/bin/09.rs:65-82 | the expanded disk has as many cells as the total length of the runs, all of length 1 |
| DiskFragmenter.ParseOnes | src/bin/09.rs:39-82 | parsing with `pack_as_one` gives the same disk as parsing into runs and then `convert_to_ones` |
| DiskFragmenter.ConvertToOnes | src/bin/09.rs:65-82 | the push loops produce every run replaced by its unit cells, in order |
| DiskFragmenter.FileCountAppend | src/bin/09.rs:84-99 | the number of file cells is additive over concatenation |
| DiskFragmenter.FromRightAppend | src/bin/09.rs:92-96 | reading files from the right end of a concatenation reads the right part first |
| DiskFragmenter.FromRightAt | src/bin/09.rs:92-96 | the file at index j is the one the right pointer reaches after the files to its right |
| DiskFragmenter.Compacted | src/bin/09.rs:84-99 | the compacted disk has the length of the original disk |
| DiskFragmenter.CompactedFilesFirst | src/bin/09.rs:84-99 | after compaction all file cells come before all free cells |
| DiskFragmenter.CompactedChecksum | src/bin/09.rs:100-105 | only the leading file cells of the compacted disk contribute to its checksum |
| DiskFragmenter.FromRightFiles | src/bin/09.rs:92-96 | every cell read by the right pointer is a file |
| DiskFragmenter.FilesInSplit | src/bin/09.rs:84-99 | the file count of a range is the sum over two adjacent sub-ranges |
| DiskFragmenter.FilesInNone | src/bin/09.rs:92-95 | a range with no file holds only free cells |
| DiskFragmenter.CompactSkipFile | src/bin/09.rs:88-91 | the left pointer stepping over a file keeps the loop's state |
| DiskFragmenter.CompactSkipFree | src/bin/09.rs:92-95 | the right pointer stepping over a free cell keeps the loop's state |
| DiskFragmenter.CompactSwap | src/bin/09.rs:96-98 | swapping a free cell at i with the file at j puts into i the file that belongs there and keeps the loop's state |
| DiskFragmenter.SwapPermutes | src/bin/09.rs:96 | a swap of two cells keeps the multiset of cells |
| DiskFragmenter.CompactNoFiles | src/bin/09.rs:86-95 | a state where both pointers meet free cells at index 0 arises only on a disk without files, untouched |
| DiskFragmenter.CompactDone | src/bin/09.rs:87 | when the pointers have crossed, the disk is the compacted disk |
| DiskFragmenter.CompactLoopFrom | src/bin/09.rs:86-99 | from every reachable state the loop panics exactly when the disk has no file, and otherwise ends with the disk compacted, a permutation of the original |
| DiskFragmenter.CompactStep | src/bin/09.rs:87-99 | every pass that neither ends the loop nor panics keeps the loop's state and brings the pointers closer, so the loop terminates |
| DiskFragmenter.CompactLoopResult | src/bin/09.rs:86-99 | on a disk of unit cells the loop panics exactly when there is no file, and otherwise yields the compacted disk |
| DiskFragmenter.CompactedPermutes | src/bin/09.rs:96 | compaction only rearranges the cells |
| DiskFragmenter.Compact | src/bin/09.rs:86-99 | in place on an array: fails exactly when the disk has no file and then leaves it unchanged; otherwise leaves it compacted, a permutation of the original |
| DiskFragmenter.PartOne | src/bin/09.rs:84-106 | the answer is the checksum of the compacted packed disk, and the program panics (`vec.len() - 1` or `j -= 1` below zero) exactly when the disk has no file |
| DiskFragmenter.Insert | src/bin/09.rs:130 | inserting at k shifts the cells from k one place to the right and keeps the ones before |
| DiskFragmenter.MoveAt | src/bin/09.rs:117-132 | the file lands in the span's slot; an equal span takes the file's slot, a longer one leaves the rest free right after the file and the vacated slot free space of the file's length |
| DiskFragmenter.RunSnoc | src/bin/09.rs:110-138 | one more valid move extends a run of moves by that move |
| DiskFragmenter.RunAppend | src/bin/09.rs:145-149 | the moves of successive passes compose |
| DiskFragmenter.NeverSkips | src/bin/09.rs:114-128 | `moved_objects` only ever receives free spans, so the test that skips moved files never skips a file and "no file outside the set can move" is "no file can move" |
| DiskFragmenter.TotalSizeAppend | src/bin/09.rs:108-140 | the disk's length in unit cells is additive over concatenation |
| DiskFragmenter.TotalSizeUpdate | src/bin/09.rs:129 | replacing one run changes the length by the difference of the two runs' lengths |
| DiskFragmenter.MoveKeepsSize | src/bin/09.rs:117-132 | a move keeps the disk's length in unit cells |
| DiskFragmenter.TotalSizeInsert | src/bin/09.rs:130 | inserting a run adds its length |
| DiskFragmenter.RunKeepsSize | src/bin/09.rs:145-149 | any number of moves keeps the disk's length in unit cells |
| DiskFragmenter.FindFit | src/bin/09.rs:112-136 | the scan from the right finds the rightmost index from i on whose file is not moved and fits, or reports that none does |
| DiskFragmenter.MoveFile | src/bin/09.rs:117-132 | the disk after the swap, split and insertion is the move; the value recorded as moved is the free span read back from slot j |
| DiskFragmenter.TrySwapping | src/bin/09.rs:108-140 | the disk afterwards is reached by valid moves, each the rightmost file from the span on that is not moved and fits, with the moved set of its moment; the new moved set is the old one plus the span read back after each move; the result is whether any move was made, when none was no file outside the moved set could move, and the set gains only free spans |
| DiskFragmenter.MovedAfterAppend | src/bin/09.rs:119-128 | the moved set after two runs is that of the second run, started from the moved set of the first |
| DiskFragmenter.FitsRunAppend | src/bin/09.rs:142-149 | a run of rightmost fits followed by another from where it ended is one run of rightmost fits |
| DiskFragmenter.PartTwo | src/bin/09.rs:142-157 | the loop ends on every input, and the answer is the checksum, over unit cells, of a disk reached from the parsed disk by a run of rightmost fits on which no file can move any more |
| DiskFragmenter.OffsetsAppend | src/bin/09.rs:142-149 | the summed starting units of the files of a concatenation: the left part's, the right part's, and the left part's length once per file on the right |
| DiskFragmenter.IndicesAppend | src/bin/09.rs:142-149 | the summed indices of the files of a concatenation, in the same way with the left part's number of runs |
| DiskFragmenter.MoveDescends | src/bin/09.rs:117-132 | a move lowers the files' summed start units by exactly the units from the span to the file; a swap of equal sizes lowers the files' summed indices by the distance in runs; so every move goes down in the order that ends the loop |
| DiskFragmenter.SwapDescends | src/bin/09.rs:117-122 | the equal-size case of that |
| DiskFragmenter.SplitDescends | src/bin/09.rs:124-131 | the split case, where the file moves left by at least one unit |
| DiskFragmenter.RunDescends | src/bin/09.rs:142-149 | every run of at least one move goes down in that order, so each pass of `part_two`'s loop that moves something does |
| RedNosedReports.ParseLevelMeaning | src/bin/02.rs:8-13 | a line parses exactly when every token is an `i32`, and then its report holds the tokens' values in order |
| RedNosedReports.ParseLine | src/bin/02.rs:8-14 | the inner loop `unwrap`s each whitespace-separated token as `i32` and pushes it, or panics at the first bad token |
| RedNosedReports.ParseInputs | src/bin/02.rs:3-17 | the outer loop gives one report per line, or the panic of the first bad line |
| RedNosedReports.IsSequenceSafe | src/bin/02.rs:31-48 | the early-return scan answers true exactly for a report whose every step goes the way of its first two levels by 1 to 3 |
| RedNosedReports.SafeIff | src/bin/02.rs:31-48 | a report is safe exactly when it is shorter than two levels, or rises throughout, or falls throughout, by steps of 1 to 3 |
| RedNosedReports.EqualNeighboursUnsafe | src/bin/02.rs:41-43 | two equal neighbouring levels make a report unsafe |
| RedNosedReports.Remove | src/bin/02.rs:56-57 | `Vec::remove`: one element shorter, the elements before idx kept, those after shifted down by one |
| RedNosedReports.CheckSafeWithRemoval | src/bin/02.rs:50-64 | true exactly when the report is safe, or safe after removing some single level |
| RedNosedReports.SafeDropLast | src/bin/02.rs:50-64 | removing the last level of a safe report of three or more levels leaves it safe |
| RedNosedReports.SafeDropFirst | src/bin/02.rs:50-64 | removing the first level of a safe report of three or more levels leaves it safe |
| RedNosedReports.CountSafe | src/bin/02.rs:21-26 | the safe count is at most the number of reports |
| RedNosedReports.CountTolerable | src/bin/02.rs:68-74 | the tolerant count is at most the number of reports |
| RedNosedReports.TolerantCountsMore | src/bin/02.rs:19-77 | part two never counts fewer reports than part one |
| RedNosedReports.PartOne | src/bin/02.rs:19-29 | a parse panic is passed on; otherwise the number of safe reports |
| RedNosedReports.CountSafeReports | src/bin/02.rs:21-26 | the loop counts exactly the safe reports |
| RedNosedReports.PartTwo | src/bin/02.rs:66-77 | a parse panic is passed on; otherwise the number of reports that are safe with at most one level removed |
| RedNosedReports.CountTolerableReports | src/bin/02.rs:68-74 | the loop counts exactly the tolerable reports |
| BridgeRepair.BlankTrims | src/bin/07.rs:10 | a piece is dropped by the filter exactly when it trims to nothing |
| BridgeRepair.NotBlankTrims | src/bin/07.rs:10 | a piece that is not blank does not trim to nothing |
| BridgeRepair.TrimEndEmpty | src/bin/07.rs:10 | what `trim_end` removes is whitespace |
| BridgeRepair.Kept | src/bin/07.rs:10 | the pieces kept by the filter are no more than all the pieces, and none is blank |
| BridgeRepair.ParseValuesMeaning | src/bin/07.rs:8-12 | a line's pieces parse exactly when every piece that is not blank is a `u128` |
| BridgeRepair.ParseValuesKept | src/bin/07.rs:10-12 | the numbers are those of the kept pieces, one for one, in order |
| BridgeRepair.ParseValuesBad | src/bin/07.rs:11 | a parse fault always names a piece the filter kept |
| BridgeRepair.ParseValuesPanic | src/bin/07.rs:11 | the first kept piece that is not a `u128` decides the fault |
| BridgeRepair.ParseEquationMeaning | src/bin/07.rs:8-13 | a line with no number panics in `remove(0)`; a line parses exactly when it has a number and all its kept pieces are `u128`s; then the first is the target and the rest are the operands |
| BridgeRepair.ParseLine | src/bin/07.rs:8-13 | one pass of the loop parses the line into its equation, or its fault |
| BridgeRepair.ParseInput | src/bin/07.rs:5-16 | one equation per line, in order, or the first line's fault |
| BridgeRepair.Concat | src/bin/07.rs:18-20 | concatenation panics exactly when b is 0, and otherwise its last digits are b and the rest is a |
| BridgeRepair.ConcatString | src/bin/07.rs:18-20 | read as decimal text, concatenation appends b's digits to a's |
| BridgeRepair.ConcatStep | src/bin/07.rs:18-20 | concatenating b is concatenating b without its last digit, then that digit |
| BridgeRepair.EvalCons | src/bin/07.rs:32-56 | evaluating operators left to right applies the first one and then the rest |
| BridgeRepair.DoCalculation | src/bin/07.rs:22-57 | `do_calculation`'s recursion over the operators; it has no contract of its own, and its meaning is `BridgeRepair.DoCalculationSolves` |
| BridgeRepair.DoCalculationSolves | src/bin/07.rs:22-58 | when `do_calculation` returns, it answers exactly whether some allowed choice of operators, applied left to right, reaches the target |
| BridgeRepair.NoConcatNoPanic | src/bin/07.rs:22-58 | without `\|\|` the search never panics |
| BridgeRepair.PositiveNoPanic | src/bin/07.rs:47-56 | with positive operands `\|\|` never panics either |
| BridgeRepair.ConcatKeepsSolutions | src/bin/07.rs:60-80 | an equation solvable with `+` and `*` is not rejected in part two, unless part two panics |
| BridgeRepair.Check | src/bin/07.rs:64-75 | an equation without operands panics at `v[0]`; otherwise an answer is whether the equation is solvable |
| BridgeRepair.PartOneSums | src/bin/07.rs:60-69 | part one never panics on equations with operands and sums the targets of those solvable with `+` and `*` |
| BridgeRepair.PartTwoAtLeast | src/bin/07.rs:60-80 | with positive operands neither part panics, and part two's sum is at least part one's |
| BridgeRepair.SumMatching | src/bin/07.rs:62-77 | the filtered sum over the equations, or the first fault |
| BridgeRepair.TotalPanicAt | src/bin/07.rs:64-75 | the first equation whose check panics decides the fault |
| BridgeRepair.PartOne | src/bin/07.rs:60-69 | part one passes on a parse fault and is otherwise the sum over the equations that count with `+` and `*` |
| BridgeRepair.PartTwo | src/bin/07.rs:71-80 | part two is the same with `\|\|` allowed |
| PlutonianPebbles.Stones | src/bin/11.rs:21-41 | every stone is at least one stone after any number of blinks |
| PlutonianPebbles.Rule | src/bin/11.rs:31-38 | one blink turns a stone into one or two stones |
| PlutonianPebbles.TotalAppend | src/bin/11.rs:15-17 | the count over a row is the sum of the counts of its parts |
| PlutonianPebbles.TotalBlinkRow | src/bin/11.rs:27-38 | counting a row after one blink with one blink less gives the row's count, since stones evolve independently |
| PlutonianPebbles.TotalRule | src/bin/11.rs:31-38 | the stones one stone becomes, counted one level lower, are what the recurrence counts for it |
| PlutonianPebbles.StonesCount | src/bin/11.rs:21-41 | the recurrence counts the stones: after depth blinks the row holds exactly the summed count of stones |
| PlutonianPebbles.TotalOnes | src/bin/11.rs:27-30 | at depth 0 every stone counts once |
| PlutonianPebbles.SplitHalves | src/bin/11.rs:22-35 | `div_rem_euclid` by ten to the half digit count splits a number of 2h digits into a left half of exactly h digits and a right half below ten to the h |
| PlutonianPebbles.MemoInsert | src/bin/11.rs:28-39 | recording a true count keeps every memo entry equal to the un-memoised count |
| PlutonianPebbles.Blink | src/bin/11.rs:21-41 | the memoised recursion returns the un-memoised count, and the memo stays valid, keeps its keys and gains the entry for its argument |
| PlutonianPebbles.ParseStones | src/bin/11.rs:8-12 | the input parses exactly when every piece is a `u32`, giving one stone per piece with its value |
| PlutonianPebbles.ParseInput | src/bin/11.rs:8-12 | the `collect_vec` loop panics on the first bad piece and otherwise yields the parsed stones |
| PlutonianPebbles.CountAll | src/bin/11.rs:13-17 | the loop sums the counts of all stones, with one memo shared across them |
| PlutonianPebbles.PartOne | src/bin/11.rs:7-19 | panics on a bad piece, and otherwise answers the number of stones after 25 blinks |
| PlutonianPebbles.PartTwo | src/bin/11.rs:43-55 | the same after 75 blinks |
| HistorianHysteria.GatherOk | src/bin/01.rs:10-20 | the input parses exactly when every line parses |
| HistorianHysteria.GatherPairs | src/bin/01.rs:10-21 | lines that each give one number to each column yield exactly those numbers, in line order |
| HistorianHysteria.GatherPanic | src/bin/01.rs:13-17 | the first line whose `unwrap` fails decides the panic, whatever follows it |
| HistorianHysteria.GatherStep | src/bin/01.rs:10-19 | one more line that parses appends its numbers to the two columns |
| HistorianHysteria.TwoNumbersLine | src/bin/01.rs:11-19 | a line of exactly two `u32`s pushes the first to the left and the second to the right |
| HistorianHysteria.ParseTwoColumns | src/bin/01.rs:5-22 | an input with two numbers per line gives two columns as long as the input, holding line k's numbers at index k |
| HistorianHysteria.ParseInputs | src/bin/01.rs:5-22 | the loop over the lines computes the columns of all lines, or the first line's panic |
| HistorianHysteria.ReadLine | src/bin/01.rs:11-19 | the first token goes left and the second right, each parsed as `u32`; a missing token pushes nothing, a bad one panics |
| HistorianHysteria.Insert | src/bin/01.rs:26-27 | inserting into a sorted sequence keeps it sorted and adds exactly that element |
| HistorianHysteria.Sort | src/bin/01.rs:26-27 | `Vec::sort` by its contract: ascending, and a permutation of its input |
| HistorianHysteria.SortedUnique | src/bin/01.rs:26-27 | two sorted sequences with the same elements are equal, so any sorting algorithm gives the same answer |
| HistorianHysteria.Gap | src/bin/01.rs:33-37 | the branch on `left[i] > right[i]` subtracts the smaller from the larger: the absolute difference |
| HistorianHysteria.TotalDistanceOrderFree | src/bin/01.rs:24-40 | part one depends only on the multisets of the two columns, not on their order |
| HistorianHysteria.PartOne | src/bin/01.rs:24-40 | a parse panic is passed on; columns of different lengths panic; otherwise the sum of distances of the sorted columns |
| HistorianHysteria.SumDistances | src/bin/01.rs:31-38 | the loop adds the distance of every pair at equal indices |
| HistorianHysteria.SimilarityMoreRight | src/bin/01.rs:42-55 | one more x in the right column adds x once per x in the left column |
| HistorianHysteria.SimilaritySymmetric | src/bin/01.rs:42-55 | the similarity score is the same with the columns swapped |
| HistorianHysteria.SimilarityNone | src/bin/01.rs:49-53 | against an empty right column every score is 0 |
| HistorianHysteria.CountOccurrences | src/bin/01.rs:44-48 | the `entry` loop maps exactly the values of the right column, each to its number of occurrences |
| HistorianHysteria.PartTwo | src/bin/01.rs:42-55 | a parse panic is passed on; otherwise each left value times its count on the right, summed |
| HistorianHysteria.WeightedSum | src/bin/01.rs:49-53 | a value missing from the counts adds nothing; the total is the similarity score |
| PrintQueue.ParseRule | src/bin/05.rs:8-16 | `parse_num`: split at `\|` and unwrap both `u32` parses; it has no contract of its own, and its meaning is `PrintQueue.ParseRuleRoundTrip` |
| PrintQueue.ParseRuleRoundTrip | src/bin/05.rs:8-16 | a rule written out as `a\|b` with `u32` pages parses back to (a, b) |
| PrintQueue.SplitAtBar | src/bin/05.rs:9 | splitting `a\|b` at the bar gives exactly the two digit strings |
| PrintQueue.Render | src/bin/05.rs:18-23 | writing pages out gives one piece per page |
| PrintQueue.ParseUpdate | src/bin/05.rs:18-23 | `parse_vec`: split at commas, trim and unwrap each parse; it has no contract of its own, and its meaning is `PrintQueue.ParseUpdateRoundTrip` |
| PrintQueue.ParseUpdateRoundTrip | src/bin/05.rs:18-23 | a non-empty update written out with commas parses back to its pages |
| PrintQueue.ParsePagesRendered | src/bin/05.rs:19-21 | pages written out in decimal parse back, piece by piece, to themselves |
| PrintQueue.RenderSnoc | src/bin/05.rs:19-21 | writing out one more page appends its decimal text |
| PrintQueue.ParsePagesSnoc | src/bin/05.rs:19-21 | one more piece that trims to a `u32` appends that page |
| PrintQueue.LastIndex | src/bin/05.rs:26-29 | the position the map keeps for a page is its last occurrence, and there is none exactly for a page the update lacks |
| PrintQueue.IgnoresAbsent | src/bin/05.rs:31 | a rule naming a page the update lacks never rejects it |
| PrintQueue.ObeysDistinct | src/bin/05.rs:30-34 | in an update without repeated pages, a rule holds exactly when both pages are present with the first before the second, or one is absent |
| PrintQueue.PositionsAreLast | src/bin/05.rs:26-29 | after the insert loop, a page has an entry exactly when it is in the update, and the entry is its last index |
| PrintQueue.FollowRules | src/bin/05.rs:25-37 | 0 for an update that breaks a rule; otherwise its middle page, and a panic when the update is empty |
| PrintQueue.FirstBlank | src/bin/05.rs:45-48 | the first empty line, or the number of lines; every line before it is non-empty |
| PrintQueue.FirstBlankAt | src/bin/05.rs:45-48 | an empty line with only non-empty lines before it is the first empty line |
| PrintQueue.ParseRulesPanic | src/bin/05.rs:54-55 | the first rule line that fails to parse decides the fault |
| PrintQueue.SumUpdatesPanic | src/bin/05.rs:50-52 | once one update line fails, the whole sum fails with that fault |
| PrintQueue.SumUpdatesStep | src/bin/05.rs:44-58 | an empty line after the rules adds nothing; a non-empty one adds its value or fails with its fault |
| PrintQueue.MeasureUpdate | src/bin/05.rs:50-52 | one update line is parsed and measured: its `follow_rules` value in part one, and in part two the reordered middle only when that value is 0 |
| PrintQueue.ScanLines | src/bin/05.rs:40-60 | the shared loop computes the layout's answer: rules before the first empty line and the sum of the update values after it, or the first fault |
| PrintQueue.ScanStep | src/bin/05.rs:44-58 | one pass through the loop body keeps the loop's state in step with the layout, or finds the answer's fault |
| PrintQueue.NoUpdatesYet | src/bin/05.rs:45-48 | right after the first empty line the sum is 0 |
| PrintQueue.UpdateStep | src/bin/05.rs:49-52 | an update line's value is added, or its fault is the answer |
| PrintQueue.RuleStep | src/bin/05.rs:53-56 | a rule line's rule is pushed, or its fault is the answer for either part |
| PrintQueue.ParseRulesSnoc | src/bin/05.rs:54-55 | one more rule line that parses appends its rule |
| PrintQueue.NoUpdates | src/bin/05.rs:44-59 | input without an empty line is all rules and gives 0 |
| PrintQueue.WithUpdates | src/bin/05.rs:44-59 | with good rules before the first empty line, the answer is the sum over the lines after it |
| PrintQueue.RuleLinePanic | src/bin/05.rs:53-56 | a bad rule line before the first empty line is the answer's fault in either part |
| PrintQueue.PartOne | src/bin/05.rs:40-60 | part one is the layout's answer with each update measured by `follow_rules` |
| PrintQueue.PartTwo | src/bin/05.rs:73-95 | part two is the layout's answer with each rejected update measured by the reordering |
| ResonantCollinearity.MaxLen | src/bin/08.rs:14 | `size.1` is the length of the longest line, 0 for no lines |
| ResonantCollinearity.ParseInput | src/bin/08.rs:9-36 | the size is (line count, longest line), and each frequency other than '.' maps to exactly the cells holding it |
| ResonantCollinearity.RecordLine | src/bin/08.rs:15-33 | the inner loop records the antennas of one more line |
| ResonantCollinearity.RecordCell | src/bin/08.rs:18-32 | reading a cell adds it under its frequency, creating the entry when absent, or nothing for a '.' |
| ResonantCollinearity.NextRow | src/bin/08.rs:13-34 | the cells past the end of a line hold no antenna |
| ResonantCollinearity.InAntinodeSet | src/bin/08.rs:53 | an antinode inside the map is counted in part one |
| ResonantCollinearity.InHarmonicSet | src/bin/08.rs:74-79 | a part-two antinode inside the map is counted in part two |
| ResonantCollinearity.AntinodesAreHarmonics | src/bin/08.rs:38-87 | every part-one antinode is a part-two antinode, so part two counts at least as many |
| ResonantCollinearity.AntennasAreHarmonics | src/bin/08.rs:73-83 | in part two every antenna that shares its frequency with another is an antinode |
| ResonantCollinearity.AddAntinodes | src/bin/08.rs:44-56 | one pair inserts exactly those of prev − 2(prev − curr) and curr + 2(prev − curr) that are inside the map |
| ResonantCollinearity.PairAntinodes | src/bin/08.rs:43-57 | the `tuple_combinations` loop inserts the candidates of every ordered pair of one frequency's cells |
| ResonantCollinearity.Antinodes | src/bin/08.rs:42-58 | the loop over frequencies gathers the candidates of every pair of every frequency, in any order |
| ResonantCollinearity.AntinodesMeaning | src/bin/08.rs:38-60 | what the loops gather is exactly the set of antinodes of the map |
| ResonantCollinearity.AntinodesSound | src/bin/08.rs:42-58 | every point gathered is an antinode |
| ResonantCollinearity.AntinodesComplete | src/bin/08.rs:42-58 | every antinode is gathered, whichever order its pair is visited in |
| ResonantCollinearity.PartOne | src/bin/08.rs:38-60 | part one is the number of distinct antinodes inside the map |
| ResonantCollinearity.RayLeaves | src/bin/08.rs:74-77 | once a ray from a point inside the map has left it, it stays out |
| ResonantCollinearity.Walk | src/bin/08.rs:74-83 | a `while` loop inserts every point of the ray that lies inside the map, and nothing when the start is outside |
| ResonantCollinearity.AheadNext | src/bin/08.rs:76-81 | each pass moves one more step along the ray |
| ResonantCollinearity.RayBefore | src/bin/08.rs:74-77 | the ray's points inside the map all come before its first point outside |
| ResonantCollinearity.AddHarmonics | src/bin/08.rs:68-83 | one pair inserts the points of both rays, from curr + diff by +diff and from prev − diff by −diff, that are inside the map |
| ResonantCollinearity.PairHarmonics | src/bin/08.rs:67-84 | the pair loop inserts both rays of every pair of one frequency's cells |
| ResonantCollinearity.Harmonics | src/bin/08.rs:66-85 | the loop over frequencies gathers the rays of every pair of every frequency |
| ResonantCollinearity.DescribedInside | src/bin/08.rs:12-14 | every antenna lies inside the map's size |
| ResonantCollinearity.HarmonicsMeaning | src/bin/08.rs:62-87 | what part two's loops gather is exactly the set of part-two antinodes |
| ResonantCollinearity.HarmonicsSound | src/bin/08.rs:66-85 | every point gathered is a part-two antinode |
| ResonantCollinearity.HarmonicsComplete | src/bin/08.rs:66-85 | every part-two antinode is gathered |
| ResonantCollinearity.PartTwo | src/bin/08.rs:62-87 | part two is the number of distinct part-two antinodes inside the map |
| CeresSearch.Max | src/bin/04.rs:5-11 | `max`: a negative `i32` becomes `usize::MAX`, any other is itself; it has no contract of its own, and its meaning is `CeresSearch.MaxLookup` |
| CeresSearch.MaxLookup | src/bin/04.rs:5-11 | through `max`, `get` at a negative index misses and at a non-negative one is the plain lookup |
| CeresSearch.ProbeCell | src/bin/04.rs:74-76 | `matrix.get(r)?.get(max(c))` on an existing row is the cell at the signed column c, or nothing |
| CeresSearch.Matrix | src/bin/04.rs:19-22 | one row per input line, holding that line's characters |
| CeresSearch.Toward | src/bin/04.rs:48-112 | each of the six checks that leave the row never returns early through `?`, and it matches exactly when XMAS reads from the cell in its direction |
| CeresSearch.TowardCells | src/bin/04.rs:52-54 | the three lookups of such a check are the cells one, two and three steps away in its direction |
| CeresSearch.CountAt | src/bin/04.rs:27-112 | the eight checks of one cell count the compass directions in which XMAS reads from it |
| CeresSearch.XmasAtMost | src/bin/04.rs:27-112 | a cell starts at most eight readings, and none unless it holds an X |
| CeresSearch.RowXmasBound | src/bin/04.rs:26-113 | a row's count is at most eight per cell |
| CeresSearch.GridXmasBound | src/bin/04.rs:23-114 | the whole count of part one is at most eight per cell of the grid |
| CeresSearch.PartOne | src/bin/04.rs:13-116 | part one never returns None and counts every reading of XMAS in the eight directions from every cell |
| CeresSearch.CrossAt | src/bin/04.rs:130-148 | an interior cell scores 1 exactly when it is an A whose two diagonals both read MAS, forwards or backwards |
| CeresSearch.NoCentreOnBorder | src/bin/04.rs:126-129 | no cell in the first row, the last row or the first column is a centre |
| CeresSearch.EdgeRowEmpty | src/bin/04.rs:126 | the first and last rows hold no centre, so skipping them loses nothing |
| CeresSearch.ClippedAll | src/bin/04.rs:129 | on a grid whose rows all have one length, skipping each row's last cell loses no centre |
| CeresSearch.CountRow | src/bin/04.rs:129-149 | the inner loop counts the centres of the row except its last cell |
| CeresSearch.CountCentres | src/bin/04.rs:126-150 | the loops panic exactly when `len() - 1` underflows for the grid or for a visited row; otherwise they count the visited centres |
| CeresSearch.PartTwo | src/bin/04.rs:118-152 | part two panics exactly on such an underflow, and otherwise counts the X-MAS centres it visits |
| RestroomRedoubt.Advance | src/bin/14.rs:46-47 | a coordinate moved and taken `rem_euclid` lies in 0 up to the absolute room size |
| RestroomRedoubt.Moved | src/bin/14.rs:45-49 | a moved robot stands inside the room in both coordinates |
| RestroomRedoubt.ModShift | src/bin/14.rs:46-47 | taking the remainder before or after adding an offset gives the same remainder |
| RestroomRedoubt.WrapTwice | src/bin/14.rs:46-47 | a moves and then b in one coordinate wrap to the same place as a + b moves |
| RestroomRedoubt.MovedTwice | src/bin/14.rs:45-49 | moves compose: `times` moves and then `more` reach the cell that `times + more` moves reach |
| RestroomRedoubt.Robot.constructor | src/bin/14.rs:36-41 | `Robot::parse` stores the position and the velocity with their coordinates swapped |
| RestroomRedoubt.Robot.MoveUnitBy | src/bin/14.rs:45-49 | the position becomes the old one moved `times` times with wrap-around; the velocity is unchanged |
| RestroomRedoubt.MinOr0 | src/bin/14.rs:86-88 | `min().unwrap_or(0)`: 0 for no robot, otherwise a member no larger than any |
| RestroomRedoubt.MaxOr0 | src/bin/14.rs:87-89 | `max().unwrap_or(0)`: 0 for no robot, otherwise a member no smaller than any |
| RestroomRedoubt.Start | src/bin/14.rs:53-57 | one start position per line, swapped |
| RestroomRedoubt.Extent | src/bin/14.rs:86-92 | the room is at least 1 by 1 and from the least coordinates on holds every start position |
| RestroomRedoubt.Jump | src/bin/14.rs:96-97 | every robot after `t` moves made at once is its start moved `t` times |
| RestroomRedoubt.JumpInRoom | src/bin/14.rs:96-97 | after any number of moves every robot is inside the room |
| RestroomRedoubt.Step | src/bin/14.rs:143-144 | one pass moves every robot once |
| RestroomRedoubt.Walk | src/bin/14.rs:142-163 | the positions after t passes, one per robot |
| RestroomRedoubt.WalkIsJump | src/bin/14.rs:97 | t passes of single moves reach the same cells as one move by t |
| RestroomRedoubt.Quadrant | src/bin/14.rs:99-114 | a robot on a middle line is in no quadrant; any other is in exactly the one its two comparisons with the middle give, numbered as the counters |
| RestroomRedoubt.CountInSnoc | src/bin/14.rs:99-114 | one more robot adds one to exactly the count of its quadrant |
| RestroomRedoubt.QuadrantsPartition | src/bin/14.rs:99-114 | every robot is counted once: on a middle line or in one of the four quadrants |
| RestroomRedoubt.Positions | src/bin/14.rs:122-124 | the robots' positions, in order |
| RestroomRedoubt.Spawn | src/bin/14.rs:53-57 | one new, separate robot per line, in order, as `Robot::parse` makes it |
| RestroomRedoubt.TreeTest | src/bin/14.rs:120-126 | `tree_test`: whether the positions are all unique; it has no contract of its own, and its meaning is `RestroomRedoubt.UniquePairwise` |
| RestroomRedoubt.UniquePairwise | src/bin/14.rs:125 | `all_unique` holds exactly when the positions are pairwise different |
| RestroomRedoubt.ElementsSnoc | src/bin/14.rs:125 | the set of positions grows by the last one, which was seen before exactly when it is in the earlier set |
| RestroomRedoubt.UniqueCount | src/bin/14.rs:125 | all positions are unique exactly when there are as many different positions as robots |
| RestroomRedoubt.ElementsBound | src/bin/14.rs:125 | there are never more different positions than robots |
| RestroomRedoubt.MoveAndTally | src/bin/14.rs:95-115 | each robot moves `times` times in place and the four counters hold the numbers of robots in the four quadrants of the new positions |
| RestroomRedoubt.Measure | src/bin/14.rs:86-92 | the room's height and width are computed from the least and greatest coordinates |
| RestroomRedoubt.RoomOf | src/bin/14.rs:84-92 | the room measured from the spawned robots is the room of the lines |
| RestroomRedoubt.PartOne | src/bin/14.rs:83-118 | the answer is the product of the four quadrant counts of the robots after 100 moves, with the middle at half the room |
| RestroomRedoubt.NoTreeAt | src/bin/14.rs:142-173 | before the answer, no pass leaves the robots on distinct cells |
| RestroomRedoubt.NoTreeFrom | src/bin/14.rs:142-173 | that holds whenever no pass from the first to the t-th leaves them on distinct cells |
| RestroomRedoubt.SearchedStep | src/bin/14.rs:163-172 | one more pass without a stop keeps the loop's account of the passes so far |
| RestroomRedoubt.SearchedDone | src/bin/14.rs:164-174 | where the loop stops, its account is the answer: the first pass with distinct cells, or none within the fuel |
| RestroomRedoubt.Tick | src/bin/14.rs:143-164 | one pass moves every robot once in place and tests whether they now stand on distinct cells |
| RestroomRedoubt.PartTwo | src/bin/14.rs:128-175 | an answer is the first pass count after which all robots stand on distinct cells; running out of fuel means no pass up to the fuel did |
| RestroomRedoubt.StepLoop | src/bin/14.rs:142-173 | the loop from the start positions ends with the first pass that gives distinct cells, or runs out of fuel with none |
| ClawContraption.Tokens | src/bin/13.rs:40-53 | panics exactly when the determinant is zero (`det_x / det`); a nonzero cost is 3x + y for presses x, y that put the claw exactly on the prize |
| ClawContraption.TruncDivExact | src/bin/13.rs:46-47 | Rust's truncating division of an exact multiple gives the factor back |
| ClawContraption.AbsMul | src/bin/13.rs:46-47 | the absolute value of a product is the product of the absolute values |
| ClawContraption.Cramer | src/bin/13.rs:43-45 | any exact solution fixes both numerators as the solution times the determinant |
| ClawContraption.WinnableIsWon | src/bin/13.rs:43-51 | a machine with independent buttons that some presses win is won, at the cost of its unique solution |
| ClawContraption.UnwinnableIsFree | src/bin/13.rs:49-53 | a machine no presses win costs nothing |
| ClawContraption.NegativePresses | src/bin/13.rs:46-51 | the candidates are not required to be non-negative: a machine won by 2 presses of A and -1 of B costs 5 |
| ClawContraption.Total | src/bin/13.rs:20-55 | the sum over the machines panics exactly when some machine's determinant is zero |
| ClawContraption.TotalSkipsUnwinnable | src/bin/13.rs:53 | a machine that cannot be won adds nothing to the total |
| ClawContraption.TotalOfWinnable | src/bin/13.rs:20-55 | when every machine can be won, the total is the sum of their winning costs |
| ClawContraption.PartOne | src/bin/13.rs:18-57 | panics exactly on a singular machine; the `as u32` answer is below 2^32 and equals the total whenever the total fits |
| ClawContraption.PartTwo | src/bin/13.rs:59-103 | the same with every prize moved by 10^13 in both coordinates and the `as u128` cast |
| HoofIt.Get | src/bin/10.rs:54 | `Grid::get` yields the height exactly when the signed coordinates are inside the grid |
| HoofIt.Up | src/bin/10.rs:49-57 | a neighbour the search may step to is inside the grid, orthogonally adjacent and exactly one higher |
| HoofIt.NothingAboveNine | src/bin/10.rs:55 | on a grid of digits no neighbour of a 9 is one higher |
| HoofIt.ClimbHeights | src/bin/10.rs:55 | along a climb the i-th cell is i higher than the first |
| HoofIt.TrailLength | src/bin/10.rs:41 | a climb from a 0 that ends on a 9 has exactly ten cells |
| HoofIt.ClimbOn | src/bin/10.rs:55-56 | a higher neighbour of the last cell is never already on the path, and appending it extends the climb |
| HoofIt.RatingAtLeastReach | src/bin/10.rs:72-115 | from any cell there are at least as many trails as reachable 9s |
| HoofIt.RatingFromAtLeastReachFrom | src/bin/10.rs:49-68 | the same for the directions from d on |
| HoofIt.ExtendsTrans | src/bin/10.rs:42 | appending trails that extend a longer prefix also appends trails that extend the shorter prefix |
| HoofIt.ExploreSound | src/bin/10.rs:39-70 | the search only appends to `all_paths`, and every path it appends is a trail that starts with the current path |
| HoofIt.ExploreFromSound | src/bin/10.rs:49-68 | the same for the loop over the directions from d on |
| HoofIt.ExploreScore | src/bin/10.rs:41-47 | with visited 9s recorded, the search marks exactly the 9s reachable from the position and records one path per newly reached 9 |
| HoofIt.NoReachAboveNine | src/bin/10.rs:49-68 | from a 9 no direction reaches anything |
| HoofIt.FreshSplit | src/bin/10.rs:41-46 | the newly marked 9s of two successive searches are those of the first plus those of the second not marked by the first |
| HoofIt.ExploreFromScore | src/bin/10.rs:49-68 | the directions from d on mark exactly the 9s they reach and record one path per newly marked 9 |
| HoofIt.ExploreRating | src/bin/10.rs:41-47 | with no 9 marked, the search records exactly one path per trail from the position |
| HoofIt.ExploreFromRating | src/bin/10.rs:49-68 | the directions from d on record one path per trail through them |
| HoofIt.AdjacentUp | src/bin/10.rs:49-56 | a step to an orthogonal neighbour one higher is one of the four directions the loop tries |
| HoofIt.ExploreComplete | src/bin/10.rs:41-68 | with no 9 marked, every trail that begins with the stack and the position is among the recorded paths |
| HoofIt.ExploreFromComplete | src/bin/10.rs:49-68 | the same for the directions from d on, when the trail's next cell lies in direction d or later |
| HoofIt.TrailsRecorded | src/bin/10.rs:41-68 | part two's search from a trailhead records every trail from it; with `ExploreSound` it records trails and nothing else |
| HoofIt.UpAt | src/bin/10.rs:50-56 | the signed lookup and the height test of one direction are the neighbour step |
| HoofIt.StepTaken | src/bin/10.rs:55-66 | a direction to a higher neighbour not on the path recurses and continues with the next direction |
| HoofIt.StepSkipped | src/bin/10.rs:54-57 | any other direction is passed over |
| HoofIt.NumPathsReaching9 | src/bin/10.rs:31-70 | the mutable path comes back as it was, and `all_paths` and `visited_nines` become what the search specification records |
| HoofIt.Direction | src/bin/10.rs:49-68 | one pass of the direction loop leaves the state the remaining directions continue from |
| HoofIt.TrailheadPaths | src/bin/10.rs:72-115 | a search from a 0 with nothing recorded records only trails of ten cells starting at it |
| HoofIt.Heights | src/bin/10.rs:14-27 | the grid has a row per line, as long as the line, of the lines' digits |
| HoofIt.RowZerosMeaning | src/bin/10.rs:18-22 | the 0s pushed for one line are exactly its 0s, left to right |
| HoofIt.ZerosMeaning | src/bin/10.rs:14-27 | the trailheads are exactly the 0s of the grid, in reading order without repeats |
| HoofIt.RowHeights | src/bin/10.rs:16-25 | each height is the value of its digit |
| HoofIt.RowOf | src/bin/10.rs:16-25 | the row panics (`unwrap` on `to_digit`) exactly when the line holds a non-digit, and otherwise yields its heights and appends its 0s to the positions |
| HoofIt.Matrix | src/bin/10.rs:12-28 | panics exactly when some line holds a non-digit, and otherwise yields the heights and the 0s in reading order |
| HoofIt.ParseIntoMatrix | src/bin/10.rs:11-29 | the same, on the lines of the input |
| HoofIt.RatingAtLeastScore | src/bin/10.rs:72-115 | part two's answer is at least part one's |
| HoofIt.Scores | src/bin/10.rs:74-91 | the sum over the trailheads of the number of paths a search records is the total score |
| HoofIt.Ratings | src/bin/10.rs:96-113 | the same without marking 9s is the total rating |
| HoofIt.PartOne | src/bin/10.rs:72-93 | panics exactly on a non-digit, and otherwise answers the sum over all 0s of the number of distinct 9s each reaches |
| HoofIt.PartTwo | src/bin/10.rs:94-115 | panics exactly on a non-digit, and otherwise answers the sum over all 0s of the number of trails from each |
| Text.DigitValue | src/bin/10.rs:19 | `to_digit(10)` gives a value below 10 |
| Text.DigitChar | src/bin/17.rs:61 | the digit character of a value below 10 is a digit with that value |
| Text.ParseUnsigned | src/bin/01.rs:13 | `parse::<uN>()` yields only values up to the type's maximum, and only from a digit or `+` at the front |
| Text.ParseSigned | src/bin/02.rs:11 | `parse::<iN>()` yields only values within the type's range |
| Text.NatToString | src/bin/17.rs:61 | `to_string` of a number is a non-empty run of digits |
| Text.NatToStringValue | src/bin/17.rs:61 | the rendered digits have the number's value |
| Text.NumDigits | src/bin/11.rs:22 | `checked_ilog10().unwrap_or(0) + 1` is at least 1 |
| Text.NumDigitsRange | src/bin/11.rs:22 | a number with d digits lies below 10^d and, unless it is 0, at or above 10^(d-1); its rendering has d characters |
| Text.NumDigitsUnique | src/bin/11.rs:22-34 | conversely a number in [10^(d-1), 10^d) has d digits |
| Text.DigitsPlain | src/bin/05.rs:9-20 | a run of digits has nothing to trim and no non-digit separator |
| Text.ParseTrimmedNatToString | src/bin/05.rs:20 | rendering a number, trimming and parsing it gives the number |
| Text.ParseNatToString | src/bin/17.rs:37-38 | rendering a number and parsing it gives the number |
| Text.IndexOfAny | src/bin/05.rs:9 | the first index holding a separator |
| Text.SplitAny | src/bin/11.rs:10 | `str::split` always gives at least one piece, none of them containing a separator |
| Text.JoinSplit | src/bin/17.rs:34 | joining the pieces of a split with the separator gives the input back |
| Text.SplitJoin | src/bin/17.rs:33-34 | splitting the join of separator-free pieces gives the pieces back |
| Text.SplitTwo | src/bin/05.rs:9 | a separator between two separator-free pieces splits into exactly those two |
| Text.DropEmpty | src/bin/02.rs:9 | dropping empty pieces leaves only non-empty ones, never more than before |
| Text.WhitespaceCharsAre | src/bin/02.rs:9 | the separator set is exactly the 25 code points with the Unicode property White_Space, which `char::is_whitespace` tests |
| Text.SplitWhitespace | src/bin/02.rs:9 | `split_whitespace` gives only non-empty tokens, none holding a White_Space character |
| Text.TrimStart | src/bin/05.rs:20 | what is left is a suffix of the input that does not start with White_Space, and everything removed is White_Space |
| Text.TrimEnd | src/bin/05.rs:20 | what is left is a prefix of the input that does not end with White_Space, and everything removed is White_Space |
| Text.DigitNotWhitespace | src/bin/05.rs:9-20 | no ASCII digit is White_Space |
| Text.Lines | src/bin/17.rs:57 | `str::lines`, used by every parser: no line holds a `\n`, and there are no more lines than pieces between `\n`s |
| Text.RemoveAll | src/bin/11.rs:9 | `replace(pat, "")` never lengthens the string |
| Text.RemoveAllAbsent | src/bin/17.rs:31 | a string without the pattern is left as it is |
| Common.Pow | src/bin/17.rs:125 | a power of a positive base is positive |
| Common.PowAdd | src/bin/11.rs:34 | powers multiply by adding exponents |
| Common.TruncDiv | src/bin/13.rs:46-47 | Rust's `/` on signed integers: the remainder has the dividend's sign and is smaller in magnitude than the divisor |
| Common.Wrap | src/bin/13.rs:55 | an `as` cast to an unsigned width lies below 2^bits and keeps any value that already fits |
| Common.CollectMeaning | src/bin/02.rs:7-14 | collecting parsed lines succeeds exactly when every line parses, and then gives one value per line, each the parse of its line |
| Common.CollectPanic | src/bin/02.rs:11 | the first line that does not parse decides the panic |
| Common.CollectStep | src/bin/02.rs:10-12 | one more line that parses appends its value |

## Left out

- Input files, the `advent_of_code::solution!` harness, printing, and the `Debug`/`Display` implementations (06.rs, 09.rs, 14.rs) produce output only. The model starts from the input text.
- 03.rs is not part of this model: the `regex` crate does all of its work.
- rayon's parallel iterators (06.rs, 07.rs, 10.rs) are modelled as sequential sums in source order. Addition is associative, so the answer is the same.
- The `topological_sort` call of 05.rs's `get_unsafe_order_middle` is a parameter `reorder` of part two. The model states what part two does with the middle page it returns, not how that page is found. Because `reorder` always returns a page, the index panic of `ts.collect::<Vec<u32>>()[middle]` is not modelled. That panic happens when fewer than middle + 1 pages enter the sort, for example a page named by no applicable rule, or a cycle.
- The regular-expression parsing of 13.rs and the nom parser of 14.rs are not modelled. `ClawContraption.Machine` holds the six parsed numbers, and `RestroomRedoubt.Line` holds the four numbers of one line.
- The `grid::Grid` of 10.rs is a sequence of rows. `push_row`'s check that all rows have one length is not modelled, so rows may be ragged; `Get` checks bounds per row.
- Machine widths: the `u32`, `u64`, `usize`, `u128`, `i32` and `i128` values are unbounded integers. Overflow in the solvers' additions and multiplications is not modelled. Examples are the sums of 01.rs, 07.rs and 11.rs, `num * 2024` of 11.rs, the determinants of 13.rs, `p + v * times` of 14.rs and `num * 8 + k` of 17.rs.
- Overflow that the model does cover: a `usize` subtraction below zero (04.rs, 06.rs, 07.rs, 09.rs) and `pow` at a shift of 31 or more (17.rs). It also covers the `as u32`/`as u128` casts of 13.rs and the `u32`/`u64`/`u8`/`i32`/`u128` ranges that `parse` checks.
- RedNosedReports.IsSequenceSafe: the difference of two neighbouring levels is computed exactly. Rust's `i32` subtraction would panic for levels more than 2^31 apart; that case is not modelled.
- Non-termination: 06.rs `part_one`, 14.rs `part_two` and 17.rs `run` loop without a bound. They take a `fuel` parameter and end with an `OutOfFuel` fault when it runs out. No termination is claimed for them.
- ChronospatialComputer.PartTwo: a candidate whose run panics ends the search with that panic, as in the program. A run that uses up the fuel ends the search with `OutOfFuel`, which the program does not have.
- ChronospatialComputer.Digits: keeps the ASCII digits '0' to '9' only. Rust's `char::is_numeric` also keeps the other Unicode numerals (general categories Nd, Nl and No, such as '³' or '٣'), which then make the `u64` parse panic; the model drops them instead. Unicode's numeral tables are not modelled.
- ChronospatialComputer.ParseDigits: inherits that: a register line holding a non-ASCII numeral parses in the model where the program panics.
- GuardPatrol.Walk: `OutOfFuel` stands for a walk that has not ended after `fuel` rounds. The program has no bound there; a guard that neither leaves nor repeats cannot exist on a finite grid, but that is not proved for part one.
- `Vec::sort` of 01.rs is modelled by its contract: the result is ascending and a permutation of the input. `HistorianHysteria.SortedUnique` shows that any algorithm meeting it gives the same answer.
- The iteration order of the `HashMap` of 08.rs is not modelled. `ResonantCollinearity.Antinodes` and `Harmonics` hold for every order of the frequencies, and `HashSet` insertions are set unions.
- `HashSet` and `HashMap` are `set` and `map` values. `moved_objects` of 09.rs and the memo of 11.rs are passed in and out as the source's `&mut` arguments, not shared.
- `split_terminator` of 07.rs is `split` here: the two differ only by a trailing empty piece, which the blank filter drops anyway.
- CeresSearch.PartOne: the count is stated for grids whose rows are shorter than 2^31. There `col as i32` is the column itself. Beyond that the cast wraps modulo 2^32, to a negative number that `max` maps to `usize::MAX` or to another real column, and `i32::MIN - 1` panics in debug builds. None of this is modelled.
- CeresSearch.PartTwo: `rows as i32 - 1` and `col as i32 - 1` for an index of 2^31 or more are not modelled; they wrap as in part one.
- DiskFragmenter.PartTwo: states that the answer is the checksum of a disk reached by a run of rightmost fits on which no file can move any more. It does not state the order in which the spans are taken, so it does not single out one such disk.
- DiskFragmenter.TrySwapping: the loop over `0..vec.len()` uses the length the disk had at the start, as Rust's range does. The ensures state that each move is the rightmost fit for its span, with the moved set of its moment. They do not state that the spans are taken left to right, nor that a span passed without a move had no fit at that moment.
- RestroomRedoubt.PartTwo: the quadrant counters of the step loop are not modelled, since only the printout uses them. They keep growing over every pass, and their product `first * second * third * fourth` at 14.rs:168 is taken on `i32`, so a debug build can overflow and panic there. The model does not have that panic.
- ClawContraption.PartOne: the `i32` total is cast with `as u32`, modelled as the remainder modulo 2^32. A total that overflows `i32` while adding is not modelled.
