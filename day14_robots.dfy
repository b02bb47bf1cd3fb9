/** Day 14, "Restroom Redoubt": robots move in straight lines across a
    wrapping room. The room's size is the bounding box of the robots' start
    positions. Part one moves every robot 100 times and multiplies the
    numbers of robots in the four quadrants; part two moves all robots one
    step at a time and stops at the first step after which no two robots
    share a position. */
module RestroomRedoubt {
  import opened Common

  /** A room cell or a velocity, in the robot's own order: the first
      coordinate is the input's second number (the row) and the second the
      input's first (the column). */
  type Pair = (int, int)

  /** The four numbers of one input line `p=x,y v=dx,dy`, in input order.
      The input parser is not part of this model. */
  datatype Line = Line(p: Pair, v: Pair)

  /** The coordinates swapped, as `Robot::parse` stores them. */
  function Swap(c: Pair): Pair
  {
    (c.1, c.0)
  }

  /** One coordinate after `times` moves: advanced and taken `rem_euclid`
      (Dafny's `%` is Euclidean, as `rem_euclid` is). */
  function Advance(p: int, v: int, times: nat, m: int): (r: int)
    requires m != 0
    ensures 0 <= r < Abs(m)
  {
    (p + v * times) % m
  }

  /** Where a robot at pos with velocity vel stands after `times` moves in a
      room of size max, each coordinate wrapping around. */
  function Moved(pos: Pair, vel: Pair, times: nat, max: Pair): (r: Pair)
    requires max.0 != 0 && max.1 != 0
    ensures 0 <= r.0 < Abs(max.0) && 0 <= r.1 < Abs(max.1)
  {
    (Advance(pos.0, vel.0, times, max.0), Advance(pos.1, vel.1, times, max.1))
  }

  /** Taking the remainder first or last gives the same remainder. */
  lemma ModShift(x: int, y: int, m: int)
    requires m > 0
    ensures (x % m + y) % m == (x + y) % m
  {
    var q, r := x / m, x % m;
    var q2, s := (r + y) / m, (r + y) % m;
    assert x + y == (q + q2) * m + s by {
      assert x == q * m + r;
      assert r + y == q2 * m + s;
      assert (q + q2) * m == q * m + q2 * m;
    }
    DivModOf(q + q2, s, m);
  }

  /** One coordinate of MovedTwice. */
  lemma WrapTwice(p: int, v: int, a: nat, b: nat, m: int)
    requires m > 0
    ensures Advance(Advance(p, v, a, m), v, b, m) == Advance(p, v, a + b, m)
  {
    var x, y := p + v * a, v * b;
    ModShift(x, y, m);
    assert x + y == p + v * (a + b) by {
      assert v * a + v * b == v * (a + b);
    }
  }

  /** Moves compose: `times` moves and then `more` reach the same cell as
      `times + more` moves at once. */
  lemma MovedTwice(pos: Pair, vel: Pair, times: nat, more: nat, max: Pair)
    requires max.0 > 0 && max.1 > 0
    ensures Moved(Moved(pos, vel, times, max), vel, more, max) == Moved(pos, vel, times + more, max)
  {
    WrapTwice(pos.0, vel.0, times, more, max.0);
    WrapTwice(pos.1, vel.1, times, more, max.1);
  }

  /** A robot whose position the moves update in place. */
  class Robot {
    var position: Pair
    const velocity: Pair

    /** `Robot::parse`: position and velocity from one input line, each
        with its coordinates swapped. */
    constructor (line: Line)
      ensures position == Swap(line.p) && velocity == Swap(line.v)
    {
      position := Swap(line.p);
      velocity := Swap(line.v);
    }

    /** `move_unit_by`: `times` moves at once, wrapping around the room. */
    method MoveUnitBy(times: nat, max: Pair)
      requires max.0 != 0 && max.1 != 0
      modifies this
      ensures position == Moved(old(position), velocity, times, max)
    {
      var x := (position.0 + velocity.0 * times) % max.0;
      var y := (position.1 + velocity.1 * times) % max.1;
      position := (x, y);
    }
  }

  // ---------------------------------------------------------------------------
  // The room and the robots' positions, as values

  /** `min().unwrap_or(0)`. */
  function MinOr0(s: seq<int>): (m: int)
    ensures s == [] ==> m == 0
    ensures s != [] ==> m in s && forall k :: 0 <= k < |s| ==> m <= s[k]
  {
    if s == [] then 0
    else if |s| == 1 then s[0]
    else
      var rest := MinOr0(s[1..]);
      assert forall k :: 1 <= k < |s| ==> s[k] == s[1..][k - 1];
      if s[0] <= rest then s[0] else rest
  }

  /** `max().unwrap_or(0)`. */
  function MaxOr0(s: seq<int>): (m: int)
    ensures s == [] ==> m == 0
    ensures s != [] ==> m in s && forall k :: 0 <= k < |s| ==> s[k] <= m
  {
    if s == [] then 0
    else if |s| == 1 then s[0]
    else
      var rest := MaxOr0(s[1..]);
      assert forall k :: 1 <= k < |s| ==> s[k] == s[1..][k - 1];
      if s[0] >= rest then s[0] else rest
  }

  /** The robots' start positions, each swapped. */
  function Start(lines: seq<Line>): (ps: seq<Pair>)
    ensures |ps| == |lines| && forall k :: 0 <= k < |lines| ==> ps[k] == Swap(lines[k].p)
  {
    seq(|lines|, k requires 0 <= k < |lines| => Swap(lines[k].p))
  }

  function Firsts(ps: seq<Pair>): seq<int>
  {
    seq(|ps|, k requires 0 <= k < |ps| => ps[k].0)
  }

  function Seconds(ps: seq<Pair>): seq<int>
  {
    seq(|ps|, k requires 0 <= k < |ps| => ps[k].1)
  }

  /** (height, width): the extent of the positions ps plus one in each
      coordinate, so the room holds every one of them. */
  function Extent(ps: seq<Pair>): (max: Pair)
    ensures max.0 >= 1 && max.1 >= 1
    ensures forall k :: 0 <= k < |ps| ==>
      MinOr0(Firsts(ps)) <= ps[k].0 < MinOr0(Firsts(ps)) + max.0 && MinOr0(Seconds(ps)) <= ps[k].1 < MinOr0(Seconds(ps)) + max.1
  {
    var ys, xs := Firsts(ps), Seconds(ps);
    assert forall k :: 0 <= k < |ps| ==> ys[k] == ps[k].0 && xs[k] == ps[k].1;
    assert ps != [] ==> MinOr0(ys) <= ys[0] <= MaxOr0(ys) && MinOr0(xs) <= xs[0] <= MaxOr0(xs);
    (MaxOr0(ys) - MinOr0(ys) + 1, MaxOr0(xs) - MinOr0(xs) + 1)
  }

  /** The room: the extent of the start positions. */
  function Room(lines: seq<Line>): Pair
  {
    Extent(Start(lines))
  }

  /** Every robot's position after `t` moves made at once in a room of size
      max, as `part_one` makes them. */
  function Jump(lines: seq<Line>, max: Pair, t: nat): (ps: seq<Pair>)
    requires max.0 > 0 && max.1 > 0
    ensures |ps| == |lines|
    ensures forall k :: 0 <= k < |lines| ==> ps[k] == Moved(Swap(lines[k].p), Swap(lines[k].v), t, max)
  {
    seq(|lines|, k requires 0 <= k < |lines| => Moved(Swap(lines[k].p), Swap(lines[k].v), t, max))
  }

  /** After any number of moves, every robot is inside the room. */
  lemma JumpInRoom(lines: seq<Line>, max: Pair, t: nat, k: nat)
    requires max.0 > 0 && max.1 > 0 && k < |lines|
    ensures 0 <= Jump(lines, max, t)[k].0 < max.0 && 0 <= Jump(lines, max, t)[k].1 < max.1
  {
  }

  /** Every robot moved once from the positions ps. */
  function Step(ps: seq<Pair>, lines: seq<Line>, max: Pair): (next: seq<Pair>)
    requires max.0 > 0 && max.1 > 0 && |ps| == |lines|
    ensures |next| == |lines|
    ensures forall k :: 0 <= k < |lines| ==> next[k] == Moved(ps[k], Swap(lines[k].v), 1, max)
  {
    seq(|ps|, k requires 0 <= k < |ps| => Moved(ps[k], Swap(lines[k].v), 1, max))
  }

  /** Every robot's position after `t` single moves, as `part_two` makes
      them. */
  function Walk(lines: seq<Line>, max: Pair, t: nat): (ps: seq<Pair>)
    requires max.0 > 0 && max.1 > 0
    ensures |ps| == |lines|
  {
    if t == 0 then Start(lines) else Step(Walk(lines, max, t - 1), lines, max)
  }

  /** Moving by one t times reaches the same cells as one move by t. */
  lemma {:induction false} WalkIsJump(lines: seq<Line>, max: Pair, t: nat)
    requires max.0 > 0 && max.1 > 0 && t >= 1
    ensures Walk(lines, max, t) == Jump(lines, max, t)
  {
    if t > 1 {
      WalkIsJump(lines, max, t - 1);
      forall k | 0 <= k < |lines|
        ensures Walk(lines, max, t)[k] == Jump(lines, max, t)[k]
      {
        MovedTwice(Swap(lines[k].p), Swap(lines[k].v), t - 1, 1, max);
      }
    }
  }

  // ---------------------------------------------------------------------------
  // Quadrants

  /** The quadrant `part_one` counts a position in, numbered as its
      counters are (first: above and left, second: below and right, third:
      above and right, fourth: below and left), or None on the middle row
      or column. */
  function Quadrant(p: Pair, midX: int, midY: int): (q: Option<nat>)
    ensures q.None? <==> (p.0 == midX || p.1 == midY)
    ensures q.Some? ==> 1 <= q.value <= 4
    ensures q == Some(1) <==> (p.0 < midX && p.1 < midY)
    ensures q == Some(2) <==> (p.0 > midX && p.1 > midY)
    ensures q == Some(3) <==> (p.0 < midX && p.1 > midY)
    ensures q == Some(4) <==> (p.0 > midX && p.1 < midY)
  {
    if p.0 == midX || p.1 == midY then None
    else if p.0 < midX then (if p.1 < midY then Some(1) else Some(3))
    else if p.1 < midY then Some(4) else Some(2)
  }

  /** The number of positions in quadrant q (or on the middle lines, for
      None). */
  function CountIn(ps: seq<Pair>, midX: int, midY: int, q: Option<nat>): nat
  {
    if ps == [] then 0
    else CountIn(ps[..|ps| - 1], midX, midY, q) + (if Quadrant(ps[|ps| - 1], midX, midY) == q then 1 else 0)
  }

  lemma CountInSnoc(ps: seq<Pair>, p: Pair, midX: int, midY: int, q: Option<nat>)
    ensures CountIn(ps + [p], midX, midY, q) == CountIn(ps, midX, midY, q) + (if Quadrant(p, midX, midY) == q then 1 else 0)
  {
    assert (ps + [p])[..|ps|] == ps;
  }

  /** Every robot is on a middle line or in exactly one quadrant. */
  lemma {:induction false} QuadrantsPartition(ps: seq<Pair>, midX: int, midY: int)
    ensures CountIn(ps, midX, midY, None) + CountIn(ps, midX, midY, Some(1)) + CountIn(ps, midX, midY, Some(2))
      + CountIn(ps, midX, midY, Some(3)) + CountIn(ps, midX, midY, Some(4)) == |ps|
  {
    if ps != [] {
      QuadrantsPartition(ps[..|ps| - 1], midX, midY);
    }
  }

  /** The product of the four quadrant counts. */
  function SafetyFactor(ps: seq<Pair>, midX: int, midY: int): int
  {
    CountIn(ps, midX, midY, Some(1)) * CountIn(ps, midX, midY, Some(2))
    * CountIn(ps, midX, midY, Some(3)) * CountIn(ps, midX, midY, Some(4))
  }

  // ---------------------------------------------------------------------------
  // The robots as objects

  /** Separate robots are separate objects. */
  ghost predicate Distinct(robots: seq<Robot>)
  {
    forall i, j :: 0 <= i < j < |robots| ==> robots[i] != robots[j]
  }

  function Positions(robots: seq<Robot>): (ps: seq<Pair>)
    reads robots
    ensures |ps| == |robots| && forall k :: 0 <= k < |robots| ==> ps[k] == robots[k].position
  {
    seq(|robots|, k reads robots requires 0 <= k < |robots| => robots[k].position)
  }

  /** `parse_input`: one new robot per line, in order. */
  method Spawn(lines: seq<Line>) returns (robots: seq<Robot>)
    ensures |robots| == |lines| && Distinct(robots)
    ensures forall k :: 0 <= k < |robots| ==> fresh(robots[k])
    ensures forall k :: 0 <= k < |robots| ==> robots[k].position == Swap(lines[k].p) && robots[k].velocity == Swap(lines[k].v)
  {
    robots := [];
    for k := 0 to |lines|
      invariant |robots| == k && Distinct(robots)
      invariant forall j :: 0 <= j < k ==> fresh(robots[j])
      invariant forall j :: 0 <= j < k ==> robots[j].position == Swap(lines[j].p) && robots[j].velocity == Swap(lines[j].v)
    {
      var r := new Robot(lines[k]);
      robots := robots + [r];
    }
  }

  /** `tree_test`: no two robots stand on the same cell. */
  function TreeTest(robots: seq<Robot>): bool
    reads robots
  {
    Unique(Positions(robots))
  }

  /** No value of ps occurs twice (`all_unique`): each one is new when it
      is reached. */
  predicate Unique<T(==)>(ps: seq<T>)
  {
    ps == [] || (Unique(ps[..|ps| - 1]) && ps[|ps| - 1] !in ps[..|ps| - 1])
  }

  /** Unique means pairwise different. */
  lemma {:induction false} UniquePairwise<T>(ps: seq<T>)
    ensures Unique(ps) <==> forall i, j :: 0 <= i < j < |ps| ==> ps[i] != ps[j]
  {
    if ps != [] {
      var init, x := ps[..|ps| - 1], ps[|ps| - 1];
      UniquePairwise(init);
      if x in init {
        var k :| 0 <= k < |init| && init[k] == x;
        assert ps[k] == ps[|ps| - 1];
      } else if Unique(init) {
        forall i, j | 0 <= i < j < |ps| ensures ps[i] != ps[j] {
          if j < |ps| - 1 {
            assert init[i] == ps[i] && init[j] == ps[j];
          } else {
            assert init[i] == ps[i];
          }
        }
      } else {
        var i, j :| 0 <= i < j < |init| && init[i] == init[j];
        assert ps[i] == ps[j];
      }
    }
  }

  function Elements<T(==)>(ps: seq<T>): set<T>
  {
    set k | 0 <= k < |ps| :: ps[k]
  }

  lemma ElementsSnoc<T>(ps: seq<T>)
    requires ps != []
    ensures Elements(ps) == Elements(ps[..|ps| - 1]) + {ps[|ps| - 1]}
    ensures ps[|ps| - 1] in ps[..|ps| - 1] <==> ps[|ps| - 1] in Elements(ps[..|ps| - 1])
  {
    var init, x := ps[..|ps| - 1], ps[|ps| - 1];
    forall y | y in Elements(ps) ensures y in Elements(init) + {x} {
      var k :| 0 <= k < |ps| && ps[k] == y;
      if k < |ps| - 1 {
        assert init[k] == y;
      }
    }
    forall y | y in Elements(init) ensures y in Elements(ps) {
      var k :| 0 <= k < |init| && init[k] == y;
      assert ps[k] == y;
    }
    if x in init {
      var k :| 0 <= k < |init| && init[k] == x;
      assert x in Elements(init);
    }
  }

  /** All positions are distinct exactly when there are as many distinct
      positions as robots. */
  lemma {:induction false} UniqueCount<T>(ps: seq<T>)
    ensures Unique(ps) <==> |Elements(ps)| == |ps|
  {
    if ps != [] {
      var init, x := ps[..|ps| - 1], ps[|ps| - 1];
      UniqueCount(init);
      ElementsSnoc(ps);
      ElementsBound(init);
      if x in init {
        assert Elements(ps) == Elements(init);
      }
    }
  }

  lemma {:induction false} ElementsBound<T>(ps: seq<T>)
    ensures |Elements(ps)| <= |ps|
  {
    if ps != [] {
      ElementsBound(ps[..|ps| - 1]);
      ElementsSnoc(ps);
    }
  }

  /** The loop over `&mut robots` of `part_one` and `part_two`: each robot
      moved `times` moves at once and then, unless it is on a middle line,
      counted in its quadrant. */
  method MoveAndTally(robots: seq<Robot>, times: nat, max: Pair, midX: int, midY: int)
    returns (first: nat, second: nat, third: nat, fourth: nat)
    requires max.0 != 0 && max.1 != 0 && Distinct(robots)
    modifies robots
    ensures forall k :: 0 <= k < |robots| ==> robots[k].position == Moved(old(robots[k].position), robots[k].velocity, times, max)
    ensures first == CountIn(Positions(robots), midX, midY, Some(1)) && second == CountIn(Positions(robots), midX, midY, Some(2))
    ensures third == CountIn(Positions(robots), midX, midY, Some(3)) && fourth == CountIn(Positions(robots), midX, midY, Some(4))
  {
    first, second, third, fourth := 0, 0, 0, 0;
    ghost var moved: seq<Pair> := [];
    for k := 0 to |robots|
      invariant |moved| == k
      invariant forall j :: 0 <= j < k ==> moved[j] == robots[j].position
      invariant forall j :: 0 <= j < k ==> robots[j].position == Moved(old(robots[j].position), robots[j].velocity, times, max)
      invariant forall j :: k <= j < |robots| ==> robots[j].position == old(robots[j].position)
      invariant first == CountIn(moved, midX, midY, Some(1)) && second == CountIn(moved, midX, midY, Some(2))
      invariant third == CountIn(moved, midX, midY, Some(3)) && fourth == CountIn(moved, midX, midY, Some(4))
    {
      robots[k].MoveUnitBy(times, max);
      var p := robots[k].position;
      CountInSnoc(moved, p, midX, midY, Some(1));
      CountInSnoc(moved, p, midX, midY, Some(2));
      CountInSnoc(moved, p, midX, midY, Some(3));
      CountInSnoc(moved, p, midX, midY, Some(4));
      moved := moved + [p];
      if p.0 == midX || p.1 == midY {
        continue;
      }
      if p.0 < midX && p.1 < midY {
        first := first + 1;
      }
      if p.0 < midX && p.1 > midY {
        third := third + 1;
      }
      if p.0 > midX && p.1 < midY {
        fourth := fourth + 1;
      }
      if p.0 > midX && p.1 > midY {
        second := second + 1;
      }
    }
    assert moved == Positions(robots);
  }

  // ---------------------------------------------------------------------------
  // part_one and part_two

  /** The bounds computed at the start of `part_one` and `part_two`: the
      least and greatest of each coordinate, and the room's size from
      them. */
  method Measure(start: seq<Pair>) returns (height: int, width: int)
    ensures (height, width) == Extent(start)
  {
    var ys, xs := Firsts(start), Seconds(start);
    var minY, maxY, minX, maxX := MinOr0(ys), MaxOr0(ys), MinOr0(xs), MaxOr0(xs);
    width, height := maxX - minX + 1, maxY - minY + 1;
  }

  lemma RoomOf(lines: seq<Line>, start: seq<Pair>)
    requires |start| == |lines| && forall k :: 0 <= k < |lines| ==> start[k] == Swap(lines[k].p)
    ensures Room(lines) == Extent(start)
  {
    assert start == Start(lines);
  }

  /** `part_one`: every robot moved 100 times, and the product of the four
      quadrant counts of where they end up. */
  method PartOne(lines: seq<Line>) returns (r: Option<int>)
    ensures r == Some(SafetyFactor(Jump(lines, Room(lines), 100), Room(lines).0 / 2, Room(lines).1 / 2))
  {
    var robots := Spawn(lines);
    var start := Positions(robots);
    var height, width := Measure(start);
    RoomOf(lines, start);
    var midX, midY := height / 2, width / 2;
    var first, second, third, fourth := MoveAndTally(robots, 100, (height, width), midX, midY);
    assert Positions(robots) == Jump(lines, (height, width), 100);
    return Some((first as int) * second * third * fourth);
  }

  /** How the step loop of `part_two` ends: at step `steps`, or not within
      the fuel given (the source's loop has no bound). */
  datatype Search = Found(steps: nat) | OutOfFuel

  /** No step from the first to the t-th leaves the robots on distinct
      cells. */
  ghost predicate NoTreeUpTo(lines: seq<Line>, max: Pair, t: nat)
    requires max.0 > 0 && max.1 > 0
  {
    t == 0 || (NoTreeUpTo(lines, max, t - 1) && !Unique(Walk(lines, max, t)))
  }

  /** NoTreeUpTo says what its name says, in two directions: under it no
      step count from 1 to t passes `tree_test` ... */
  lemma {:induction false} NoTreeAt(lines: seq<Line>, max: Pair, t: nat, j: nat)
    requires max.0 > 0 && max.1 > 0
    requires NoTreeUpTo(lines, max, t) && 1 <= j <= t
    ensures !Unique(Walk(lines, max, j))
  {
    if j < t {
      NoTreeAt(lines, max, t - 1, j);
    }
  }

  /** ... and it holds whenever no step count from 1 to t passes. */
  lemma {:induction false} NoTreeFrom(lines: seq<Line>, max: Pair, t: nat)
    requires max.0 > 0 && max.1 > 0
    requires forall j :: 1 <= j <= t ==> !Unique(Walk(lines, max, j))
    ensures NoTreeUpTo(lines, max, t)
  {
    if t > 0 {
      NoTreeFrom(lines, max, t - 1);
    }
  }

  /** The robots are separate objects, one per line, each with its line's
      velocity. */
  ghost predicate Crew(robots: seq<Robot>, lines: seq<Line>)
  {
    Distinct(robots) && |robots| == |lines| && forall k :: 0 <= k < |robots| ==> robots[k].velocity == Swap(lines[k].v)
  }

  /** Where the step loop stands after i passes: if the last pass found the
      robots on distinct cells (tree), it was the first to do so. */
  ghost predicate Searched(lines: seq<Line>, max: Pair, i: nat, tree: bool)
    requires max.0 > 0 && max.1 > 0
  {
    if tree then i >= 1 && Unique(Walk(lines, max, i)) && NoTreeUpTo(lines, max, i - 1)
    else NoTreeUpTo(lines, max, i)
  }

  /** What `part_two` answers within `fuel` passes: the first number of
      steps, at least one, after which the robots stand on distinct cells,
      or that no number up to `fuel` does. */
  ghost predicate FirstTree(lines: seq<Line>, max: Pair, fuel: nat, r: Search)
    requires max.0 > 0 && max.1 > 0
  {
    match r
    case Found(steps) => 1 <= steps <= fuel && Unique(Walk(lines, max, steps)) && NoTreeUpTo(lines, max, steps - 1)
    case OutOfFuel => NoTreeUpTo(lines, max, fuel)
  }

  /** One more pass keeps Searched. */
  lemma SearchedStep(lines: seq<Line>, max: Pair, i: nat, tree: bool)
    requires max.0 > 0 && max.1 > 0
    requires Searched(lines, max, i, false) && tree == Unique(Walk(lines, max, i + 1))
    ensures Searched(lines, max, i + 1, tree)
  {
  }

  /** Where the loop stops, Searched is the answer. */
  lemma SearchedDone(lines: seq<Line>, max: Pair, fuel: nat, i: nat, tree: bool)
    requires max.0 > 0 && max.1 > 0
    requires Searched(lines, max, i, tree) && i <= fuel && (tree || i == fuel)
    ensures FirstTree(lines, max, fuel, if tree then Found(i) else OutOfFuel)
  {
  }

  /** One pass of the step loop of `part_two`: every robot moved once, and
      then `tree_test`. */
  method Tick(robots: seq<Robot>, height: int, width: int, lines: seq<Line>, t: nat) returns (tree: bool)
    requires height > 0 && width > 0 && Crew(robots, lines)
    requires Positions(robots) == Walk(lines, (height, width), t)
    modifies robots
    ensures Positions(robots) == Walk(lines, (height, width), t + 1)
    ensures tree == Unique(Walk(lines, (height, width), t + 1))
  {
    var _, _, _, _ := MoveAndTally(robots, 1, (height, width), height / 2, width / 2);
    assert Positions(robots) == Walk(lines, (height, width), t + 1);
    tree := TreeTest(robots);
  }

  /** `part_two`: all robots moved one step at a time; the first number of
      steps, at least one, after which `tree_test` holds. The quadrant
      counts the loop also keeps are only printed. */
  method PartTwo(lines: seq<Line>, fuel: nat) returns (r: Search)
    ensures r.Found? ==> 1 <= r.steps <= fuel && Unique(Walk(lines, Room(lines), r.steps))
    ensures r.Found? ==> NoTreeUpTo(lines, Room(lines), r.steps - 1)
    ensures r.OutOfFuel? ==> NoTreeUpTo(lines, Room(lines), fuel)
  {
    var robots := Spawn(lines);
    var start := Positions(robots);
    var height, width := Measure(start);
    RoomOf(lines, start);
    assert start == Start(lines);
    assert Crew(robots, lines);
    r := StepLoop(robots, lines, height, width, fuel);
  }

  /** The `loop` of `part_two`, cut off after `fuel` passes. */
  method StepLoop(robots: seq<Robot>, lines: seq<Line>, height: int, width: int, fuel: nat) returns (r: Search)
    requires height > 0 && width > 0 && Crew(robots, lines)
    requires Positions(robots) == Start(lines)
    modifies robots
    ensures FirstTree(lines, (height, width), fuel, r)
  {
    var i := 0;
    var tree := false;
    while i < fuel && !tree
      invariant i <= fuel
      invariant Positions(robots) == Walk(lines, (height, width), i)
      invariant Searched(lines, (height, width), i, tree)
    {
      tree := Tick(robots, height, width, lines, i);
      SearchedStep(lines, (height, width), i, tree);
      i := i + 1;
    }
    SearchedDone(lines, (height, width), fuel, i, tree);
    if tree {
      r := Found(i);
    } else {
      r := OutOfFuel;
    }
  }
}
