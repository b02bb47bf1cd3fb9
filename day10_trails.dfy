/** Day 10, "Hoof It": a map of heights 0 to 9. A hiking trail starts at a
    0 (a trailhead), steps to an orthogonal neighbour exactly one higher at
    every move, and ends on a 9. Part one sums, over the trailheads, the
    number of 9s each reaches; part two sums the number of distinct trails
    from each. Both run the same depth-first search, which keeps the current
    path on a stack, records every path that reaches a 9, and in part one
    records each 9 reached so that it is counted once. */
module HoofIt {
  import opened Common
  import opened Text

  /** A (row, column) position, as the `(usize, usize)` of the source. */
  type Cell = (nat, nat)

  /** The height map, row by row. The `grid::Grid` type is modelled as a
      sequence of rows. */
  type Grid = seq<seq<nat>>

  datatype Fault = NotADigit

  predicate Inside(g: Grid, c: Cell)
  {
    c.0 < |g| && c.1 < |g[c.0]|
  }

  function Height(g: Grid, c: Cell): nat
    requires Inside(g, c)
  {
    g[c.0][c.1]
  }

  /** Every height is a decimal digit, as `parse_into_matrix` makes them. */
  predicate Digits(g: Grid)
  {
    forall r, c :: 0 <= r < |g| && 0 <= c < |g[r]| ==> g[r][c] <= 9
  }

  /** `Grid::get` with signed coordinates: None outside the grid. */
  function Get(g: Grid, r: int, c: int): (v: Option<nat>)
    ensures v.Some? <==> 0 <= r < |g| && 0 <= c < |g[r]|
    ensures v.Some? ==> v.value == g[r][c]
  {
    if 0 <= r < |g| && 0 <= c < |g[r]| then Some(g[r][c]) else None
  }

  /** `DIRECTIONS`, in the order the search tries them. */
  const DIRECTIONS: seq<(int, int)> := [(0, 1), (0, -1), (1, 0), (-1, 0)]

  /** a and b are orthogonal neighbours. */
  predicate Adjacent(a: Cell, b: Cell)
  {
    Abs(a.0 - b.0) + Abs(a.1 - b.1) == 1
  }

  /** The neighbour of c in direction d when it is inside the grid and
      exactly one higher than c. */
  function Up(g: Grid, c: Cell, d: nat): (n: Option<Cell>)
    requires Inside(g, c) && d < 4
    ensures n.Some? ==> Inside(g, n.value) && Height(g, n.value) == Height(g, c) + 1 && Adjacent(c, n.value)
  {
    var r, col := c.0 + DIRECTIONS[d].0, c.1 + DIRECTIONS[d].1;
    match Get(g, r, col)
    case Some(num) => if num == Height(g, c) + 1 then Some((r, col)) else None
    case None => None
  }

  /** No neighbour of a 9 is one higher. */
  lemma NothingAboveNine(g: Grid, c: Cell, d: nat)
    requires Digits(g) && Inside(g, c) && d < 4 && Height(g, c) == 9
    ensures Up(g, c, d) == None
  {
    var r, col := c.0 + DIRECTIONS[d].0, c.1 + DIRECTIONS[d].1;
    if 0 <= r < |g| && 0 <= col < |g[r]| {
      assert g[r][col] <= 9;
    }
  }

  // ---------------------------------------------------------------------------
  // Trails

  /** p rises by one at every step between orthogonal neighbours inside the
      grid. */
  predicate Climb(g: Grid, p: seq<Cell>)
  {
    (forall i :: 0 <= i < |p| ==> Inside(g, p[i]))
    && forall i :: 0 <= i < |p| - 1 ==> Adjacent(p[i], p[i + 1]) && Height(g, p[i + 1]) == Height(g, p[i]) + 1
  }

  /** A climb that ends on a 9. */
  predicate Trail(g: Grid, p: seq<Cell>)
  {
    |p| > 0 && Climb(g, p) && Height(g, p[|p| - 1]) == 9
  }

  /** Along a climb each cell is one higher than the one before. */
  lemma {:induction false} ClimbHeights(g: Grid, p: seq<Cell>, i: nat)
    requires Climb(g, p) && i < |p|
    ensures Height(g, p[i]) == Height(g, p[0]) + i
  {
    if i > 0 {
      ClimbHeights(g, p, i - 1);
    }
  }

  /** A climb from a 0 to a 9 has exactly ten cells. */
  lemma TrailLength(g: Grid, p: seq<Cell>)
    requires Trail(g, p) && Height(g, p[0]) == 0
    ensures |p| == 10
  {
    ClimbHeights(g, p, |p| - 1);
  }

  /** A climb goes on to a higher neighbour of its last cell, which the
      climb has not visited. */
  lemma ClimbOn(g: Grid, p: seq<Cell>, d: nat)
    requires |p| > 0 && Climb(g, p) && d < 4 && Up(g, p[|p| - 1], d).Some?
    ensures Up(g, p[|p| - 1], d).value !in p
    ensures Climb(g, p + [Up(g, p[|p| - 1], d).value])
  {
    var last := p[|p| - 1];
    var n := Up(g, last, d).value;
    ClimbHeights(g, p, |p| - 1);
    forall i | 0 <= i < |p|
      ensures p[i] != n
    {
      ClimbHeights(g, p, i);
    }
    var q := p + [n];
    assert forall i :: 0 <= i < |p| ==> q[i] == p[i];
  }

  /** The 9s reachable from c by climbing. */
  function Reach(g: Grid, c: Cell): set<Cell>
    requires Digits(g) && Inside(g, c)
    decreases 9 - Height(g, c), 1
  {
    if Height(g, c) == 9 then {c} else ReachFrom(g, c, 0)
  }

  function ReachFrom(g: Grid, c: Cell, d: nat): set<Cell>
    requires Digits(g) && Inside(g, c) && d <= 4
    decreases 9 - Height(g, c), 0, 4 - d
  {
    if d == 4 then {}
    else
      match Up(g, c, d)
      case Some(n) => Reach(g, n) + ReachFrom(g, c, d + 1)
      case None => ReachFrom(g, c, d + 1)
  }

  /** The number of trails from c. */
  function Rating(g: Grid, c: Cell): nat
    requires Digits(g) && Inside(g, c)
    decreases 9 - Height(g, c), 1
  {
    if Height(g, c) == 9 then 1 else RatingFrom(g, c, 0)
  }

  function RatingFrom(g: Grid, c: Cell, d: nat): nat
    requires Digits(g) && Inside(g, c) && d <= 4
    decreases 9 - Height(g, c), 0, 4 - d
  {
    if d == 4 then 0
    else
      match Up(g, c, d)
      case Some(n) => Rating(g, n) + RatingFrom(g, c, d + 1)
      case None => RatingFrom(g, c, d + 1)
  }

  /** Every reachable 9 ends at least one trail, so there are at least as
      many trails as reachable 9s. */
  lemma {:induction false} RatingAtLeastReach(g: Grid, c: Cell)
    requires Digits(g) && Inside(g, c)
    ensures Rating(g, c) >= |Reach(g, c)|
    decreases 9 - Height(g, c), 1
  {
    if Height(g, c) != 9 {
      RatingFromAtLeastReachFrom(g, c, 0);
    }
  }

  lemma {:induction false} RatingFromAtLeastReachFrom(g: Grid, c: Cell, d: nat)
    requires Digits(g) && Inside(g, c) && d <= 4
    ensures RatingFrom(g, c, d) >= |ReachFrom(g, c, d)|
    decreases 9 - Height(g, c), 0, 4 - d
  {
    if d < 4 {
      RatingFromAtLeastReachFrom(g, c, d + 1);
      match Up(g, c, d)
      case Some(n) =>
        RatingAtLeastReach(g, n);
        var a, b := Reach(g, n), ReachFrom(g, c, d + 1);
        assert |a + b| <= |a| + |b| by {
          assert |a + b| + |a * b| == |a| + |b|;
        }
      case None =>
    }
  }

  // ---------------------------------------------------------------------------
  // The search, as a function

  /** What the search has recorded: the paths that reached a 9 and the 9s
      marked as visited. */
  datatype Record = Record(paths: seq<seq<Cell>>, nines: set<Cell>)

  /** `num_paths_reaching_9` entered at pos with path on the stack. */
  function Explore(g: Grid, path: seq<Cell>, pos: Cell, rec: Record, check: bool): Record
    requires Digits(g) && Inside(g, pos)
    decreases 9 - Height(g, pos), 1
  {
    var p := path + [pos];
    if Height(g, pos) == 9 && pos !in rec.nines then
      Record(rec.paths + [p], if check then rec.nines + {pos} else rec.nines)
    else ExploreFrom(g, p, pos, 0, rec, check)
  }

  /** The loop over the directions from index d on, with p on the stack. */
  function ExploreFrom(g: Grid, p: seq<Cell>, pos: Cell, d: nat, rec: Record, check: bool): Record
    requires Digits(g) && Inside(g, pos) && d <= 4
    decreases 9 - Height(g, pos), 0, 4 - d
  {
    if d == 4 then rec
    else
      match Up(g, pos, d)
      case Some(n) =>
        if n !in p then ExploreFrom(g, p, pos, d + 1, Explore(g, p, n, rec, check), check)
        else ExploreFrom(g, p, pos, d + 1, rec, check)
      case None => ExploreFrom(g, p, pos, d + 1, rec, check)
  }

  /** The search only appends paths, and every path it appends is a trail
      that begins with the stack and pos. */
  predicate Extends(old_: seq<seq<Cell>>, new_: seq<seq<Cell>>, g: Grid, prefix: seq<Cell>)
  {
    |old_| <= |new_| && new_[..|old_|] == old_
    && forall k :: |old_| <= k < |new_| ==> Trail(g, new_[k]) && |prefix| <= |new_[k]| && new_[k][..|prefix|] == prefix
  }

  lemma ExtendsTrans(a: seq<seq<Cell>>, b: seq<seq<Cell>>, c: seq<seq<Cell>>, g: Grid, prefix: seq<Cell>, longer: seq<Cell>)
    requires |prefix| <= |longer| && longer[..|prefix|] == prefix
    requires Extends(a, b, g, longer) && Extends(b, c, g, prefix)
    ensures Extends(a, c, g, prefix)
  {
    forall k | |a| <= k < |b|
      ensures Trail(g, c[k]) && |prefix| <= |c[k]| && c[k][..|prefix|] == prefix
    {
      assert c[k] == c[..|b|][k];
      assert c[k][..|prefix|] == c[k][..|longer|][..|prefix|];
    }
    assert c[..|a|] == c[..|b|][..|a|];
  }

  lemma {:induction false} ExploreSound(g: Grid, path: seq<Cell>, pos: Cell, rec: Record, check: bool)
    requires Digits(g) && Inside(g, pos) && Climb(g, path + [pos])
    ensures Extends(rec.paths, Explore(g, path, pos, rec, check).paths, g, path + [pos])
    decreases 9 - Height(g, pos), 1
  {
    var p := path + [pos];
    if !(Height(g, pos) == 9 && pos !in rec.nines) {
      ExploreFromSound(g, p, pos, 0, rec, check);
    }
  }

  lemma {:induction false} ExploreFromSound(g: Grid, p: seq<Cell>, pos: Cell, d: nat, rec: Record, check: bool)
    requires Digits(g) && Inside(g, pos) && d <= 4
    requires |p| > 0 && p[|p| - 1] == pos && Climb(g, p)
    ensures Extends(rec.paths, ExploreFrom(g, p, pos, d, rec, check).paths, g, p)
    decreases 9 - Height(g, pos), 0, 4 - d
  {
    if d < 4 {
      match Up(g, pos, d)
      case Some(n) =>
        if n !in p {
          var mid := Explore(g, p, n, rec, check);
          ClimbOn(g, p, d);
          ExploreSound(g, p, n, rec, check);
          ExploreFromSound(g, p, pos, d + 1, mid, check);
          ExtendsTrans(rec.paths, mid.paths, ExploreFrom(g, p, pos, d, rec, check).paths, g, p, p + [n]);
        } else {
          ExploreFromSound(g, p, pos, d + 1, rec, check);
        }
      case None =>
        ExploreFromSound(g, p, pos, d + 1, rec, check);
    }
  }

  /** With visited 9s recorded (part one), the search marks every 9 it can
      reach and records one path for each one not marked before. */
  lemma {:induction false} ExploreScore(g: Grid, path: seq<Cell>, pos: Cell, rec: Record)
    requires Digits(g) && Inside(g, pos) && Climb(g, path + [pos])
    ensures Explore(g, path, pos, rec, true).nines == rec.nines + Reach(g, pos)
    ensures |Explore(g, path, pos, rec, true).paths| == |rec.paths| + |Reach(g, pos) - rec.nines|
    decreases 9 - Height(g, pos), 1
  {
    var p := path + [pos];
    if !(Height(g, pos) == 9 && pos !in rec.nines) {
      ExploreFromScore(g, p, pos, 0, rec);
      if Height(g, pos) == 9 {
        NoReachAboveNine(g, pos, 0);
      }
    }
  }

  /** From a 9 the loop over the directions reaches nothing. */
  lemma {:induction false} NoReachAboveNine(g: Grid, c: Cell, d: nat)
    requires Digits(g) && Inside(g, c) && d <= 4 && Height(g, c) == 9
    ensures ReachFrom(g, c, d) == {}
    decreases 4 - d
  {
    if d < 4 {
      NothingAboveNine(g, c, d);
      NoReachAboveNine(g, c, d + 1);
    }
  }

  /** The cells of a + b not in s: those of a, then those of b not in
      s + a. */
  lemma FreshSplit<T>(s: set<T>, a: set<T>, b: set<T>)
    ensures |(a + b) - s| == |a - s| + |b - (s + a)|
    ensures (s + a) + b == s + (a + b)
  {
    assert (a + b) - s == (a - s) + (b - (s + a));
    assert (a - s) * (b - (s + a)) == {};
  }

  lemma {:induction false} ExploreFromScore(g: Grid, p: seq<Cell>, pos: Cell, d: nat, rec: Record)
    requires Digits(g) && Inside(g, pos) && d <= 4
    requires |p| > 0 && p[|p| - 1] == pos && Climb(g, p)
    ensures ExploreFrom(g, p, pos, d, rec, true).nines == rec.nines + ReachFrom(g, pos, d)
    ensures |ExploreFrom(g, p, pos, d, rec, true).paths| == |rec.paths| + |ReachFrom(g, pos, d) - rec.nines|
    decreases 9 - Height(g, pos), 0, 4 - d
  {
    if d < 4 {
      match Up(g, pos, d)
      case Some(n) =>
        ClimbOn(g, p, d);
        var mid := Explore(g, p, n, rec, true);
        ExploreScore(g, p, n, rec);
        ExploreFromScore(g, p, pos, d + 1, mid);
        StepTaken(g, p, pos, d, rec, true);
        var s, a, b := rec.nines, Reach(g, n), ReachFrom(g, pos, d + 1);
        assert ReachFrom(g, pos, d) == a + b;
        FreshSplit(s, a, b);
      case None =>
        StepSkipped(g, p, pos, d, rec, true);
        ExploreFromScore(g, p, pos, d + 1, rec);
    }
  }

  /** Without visited 9s recorded (part two), the search records one path
      per trail and marks nothing. */
  lemma {:induction false} ExploreRating(g: Grid, path: seq<Cell>, pos: Cell, rec: Record)
    requires Digits(g) && Inside(g, pos) && Climb(g, path + [pos]) && rec.nines == {}
    ensures Explore(g, path, pos, rec, false).nines == {}
    ensures |Explore(g, path, pos, rec, false).paths| == |rec.paths| + Rating(g, pos)
    decreases 9 - Height(g, pos), 1
  {
    if Height(g, pos) != 9 {
      ExploreFromRating(g, path + [pos], pos, 0, rec);
    }
  }

  lemma {:induction false} ExploreFromRating(g: Grid, p: seq<Cell>, pos: Cell, d: nat, rec: Record)
    requires Digits(g) && Inside(g, pos) && d <= 4 && rec.nines == {}
    requires |p| > 0 && p[|p| - 1] == pos && Climb(g, p)
    ensures ExploreFrom(g, p, pos, d, rec, false).nines == {}
    ensures |ExploreFrom(g, p, pos, d, rec, false).paths| == |rec.paths| + RatingFrom(g, pos, d)
    decreases 9 - Height(g, pos), 0, 4 - d
  {
    if d < 4 {
      match Up(g, pos, d)
      case Some(n) =>
        ClimbOn(g, p, d);
        ExploreRating(g, p, n, rec);
        ExploreFromRating(g, p, pos, d + 1, Explore(g, p, n, rec, false));
      case None =>
        ExploreFromRating(g, p, pos, d + 1, rec);
    }
  }

  /** The step from c to an adjacent cell one higher is one of the four
      directions. */
  lemma AdjacentUp(g: Grid, c: Cell, n: Cell) returns (d: nat)
    requires Inside(g, c) && Inside(g, n) && Adjacent(c, n) && Height(g, n) == Height(g, c) + 1
    ensures d < 4 && Up(g, c, d) == Some(n)
  {
    if n.0 == c.0 {
      d := if n.1 == c.1 + 1 then 0 else 1;
    } else {
      d := if n.0 == c.0 + 1 then 2 else 3;
    }
  }

  /** Without visited 9s (part two), every trail that begins with the stack
      and pos is among the recorded paths. */
  lemma {:induction false} ExploreComplete(g: Grid, path: seq<Cell>, pos: Cell, rec: Record, t: seq<Cell>)
    requires Digits(g) && Inside(g, pos) && Climb(g, path + [pos]) && rec.nines == {}
    requires Trail(g, t) && |path| + 1 <= |t| && t[..|path| + 1] == path + [pos]
    ensures t in Explore(g, path, pos, rec, false).paths
    decreases 9 - Height(g, pos), 1
  {
    var p := path + [pos];
    assert t[|p| - 1] == pos;
    if |t| > |p| {
      assert Adjacent(t[|p| - 1], t[|p|]) && Height(g, t[|p|]) == Height(g, pos) + 1;
      assert Inside(g, t[|p|]);
      var d := AdjacentUp(g, pos, t[|p|]);
      ExploreFromComplete(g, p, pos, 0, rec, t, d);
    } else {
      assert t == p;
    }
  }

  lemma {:induction false} ExploreFromComplete(g: Grid, p: seq<Cell>, pos: Cell, d0: nat, rec: Record, t: seq<Cell>, d: nat)
    requires Digits(g) && Inside(g, pos) && d0 <= d < 4 && rec.nines == {}
    requires |p| > 0 && p[|p| - 1] == pos && Climb(g, p)
    requires Trail(g, t) && |p| < |t| && t[..|p|] == p && Up(g, pos, d) == Some(t[|p|])
    ensures t in ExploreFrom(g, p, pos, d0, rec, false).paths
    decreases 9 - Height(g, pos), 0, 4 - d0
  {
    match Up(g, pos, d0)
    case Some(n) =>
      ClimbOn(g, p, d0);
      var mid := Explore(g, p, n, rec, false);
      if d0 < d {
        ExploreRating(g, p, n, rec);
        ExploreFromComplete(g, p, pos, d0 + 1, mid, t, d);
      } else {
        assert t[..|p| + 1] == p + [n];
        ExploreComplete(g, p, n, rec, t);
        ExploreFromSound(g, p, pos, d0 + 1, mid, false);
        KeptIn(mid.paths, ExploreFrom(g, p, pos, d0 + 1, mid, false).paths, t);
      }
    case None =>
      ExploreFromComplete(g, p, pos, d0 + 1, rec, t, d);
  }

  /** What a prefix holds, the whole sequence holds. */
  lemma KeptIn(a: seq<seq<Cell>>, b: seq<seq<Cell>>, t: seq<Cell>)
    requires t in a && |a| <= |b| && b[..|a|] == a
    ensures t in b
  {
    var k :| 0 <= k < |a| && a[k] == t;
    assert b[k] == b[..|a|][k];
  }

  /** Part two's search from a trailhead records every trail from it. */
  lemma TrailsRecorded(g: Grid, pos: Cell, t: seq<Cell>)
    requires Digits(g) && Inside(g, pos) && Trail(g, t) && t[0] == pos
    ensures t in Explore(g, [], pos, Record([], {}), false).paths
  {
    assert [] + [pos] == [pos];
    assert t[..1] == [pos];
    ExploreComplete(g, [], pos, Record([], {}), t);
  }

  // ---------------------------------------------------------------------------
  // The search, as the source runs it

  /** Up, in terms of the lookup the loop makes. */
  lemma UpAt(g: Grid, pos: Cell, d: nat)
    requires Inside(g, pos) && d < 4
    ensures var r, col := pos.0 + DIRECTIONS[d].0, pos.1 + DIRECTIONS[d].1;
      if Get(g, r, col).Some? && Get(g, r, col).value == Height(g, pos) + 1
      then Up(g, pos, d) == Some((r, col)) else Up(g, pos, d) == None
  {
  }

  /** One direction of the loop, taken. */
  lemma StepTaken(g: Grid, p: seq<Cell>, pos: Cell, d: nat, rec: Record, check: bool)
    requires Digits(g) && Inside(g, pos) && d < 4
    requires Up(g, pos, d).Some? && Up(g, pos, d).value !in p
    ensures ExploreFrom(g, p, pos, d, rec, check) == ExploreFrom(g, p, pos, d + 1, Explore(g, p, Up(g, pos, d).value, rec, check), check)
  {
  }

  /** One direction of the loop, passed over. */
  lemma StepSkipped(g: Grid, p: seq<Cell>, pos: Cell, d: nat, rec: Record, check: bool)
    requires Digits(g) && Inside(g, pos) && d < 4
    requires Up(g, pos, d).None? || Up(g, pos, d).value in p
    ensures ExploreFrom(g, p, pos, d, rec, check) == ExploreFrom(g, p, pos, d + 1, rec, check)
  {
  }

  /** `num_paths_reaching_9`: path, all_paths and visited_nines are the
      three `&mut` arguments, passed in and handed back. */
  method NumPathsReaching9(position: Cell, g: Grid, path: seq<Cell>, allPaths: seq<seq<Cell>>,
                           visitedNines: set<Cell>, checkVisitedNine: bool)
    returns (path': seq<Cell>, allPaths': seq<seq<Cell>>, visitedNines': set<Cell>)
    requires Digits(g) && Inside(g, position)
    ensures path' == path
    ensures Record(allPaths', visitedNines') == Explore(g, path, position, Record(allPaths, visitedNines), checkVisitedNine)
    decreases 9 - Height(g, position), 1
  {
    path' := path + [position];
    allPaths' := allPaths;
    visitedNines' := visitedNines;
    var currentNum := g[position.0][position.1];
    if currentNum == 9 && position !in visitedNines' {
      allPaths' := allPaths' + [path'];
      path' := path'[..|path'| - 1];
      if checkVisitedNine {
        visitedNines' := visitedNines' + {position};
      }
      return;
    }
    ghost var p := path';
    for d := 0 to 4
      invariant path' == p
      invariant ExploreFrom(g, p, position, d, Record(allPaths', visitedNines'), checkVisitedNine)
             == ExploreFrom(g, p, position, 0, Record(allPaths, visitedNines), checkVisitedNine)
    {
      allPaths', visitedNines' := Direction(position, d, g, path', allPaths', visitedNines', checkVisitedNine);
    }
    path' := path'[..|path'| - 1];
  }

  /** One pass of the `for direction in DIRECTIONS` loop of
      `num_paths_reaching_9`, with path holding the stack including
      position; the stack is the same afterwards. */
  method Direction(position: Cell, d: nat, g: Grid, path: seq<Cell>, allPaths: seq<seq<Cell>>,
                   visitedNines: set<Cell>, checkVisitedNine: bool)
    returns (allPaths': seq<seq<Cell>>, visitedNines': set<Cell>)
    requires Digits(g) && Inside(g, position) && d < 4
    ensures ExploreFrom(g, path, position, d + 1, Record(allPaths', visitedNines'), checkVisitedNine)
         == ExploreFrom(g, path, position, d, Record(allPaths, visitedNines), checkVisitedNine)
    decreases 9 - Height(g, position), 0
  {
    allPaths', visitedNines' := allPaths, visitedNines;
    var currentNum := g[position.0][position.1];
    var newPosition := (position.0 + DIRECTIONS[d].0, position.1 + DIRECTIONS[d].1);
    var cell := Get(g, newPosition.0, newPosition.1);
    UpAt(g, position, d);
    if cell.Some? {
      if cell.value == currentNum + 1 && (newPosition.0, newPosition.1) !in path {
        StepTaken(g, path, position, d, Record(allPaths, visitedNines), checkVisitedNine);
        var path';
        path', allPaths', visitedNines' :=
          NumPathsReaching9((newPosition.0, newPosition.1), g, path, allPaths, visitedNines, checkVisitedNine);
      } else {
        StepSkipped(g, path, position, d, Record(allPaths, visitedNines), checkVisitedNine);
      }
    } else {
      StepSkipped(g, path, position, d, Record(allPaths, visitedNines), checkVisitedNine);
    }
  }

  /** A search from a trailhead, with nothing recorded yet, records only
      ten-cell trails that begin at the trailhead. */
  lemma TrailheadPaths(g: Grid, head: Cell, check: bool)
    requires Digits(g) && Inside(g, head) && Height(g, head) == 0
    ensures forall t :: t in Explore(g, [], head, Record([], {}), check).paths ==> Trail(g, t) && |t| == 10 && t[0] == head
  {
    ExploreSound(g, [], head, Record([], {}), check);
    var paths := Explore(g, [], head, Record([], {}), check).paths;
    forall t | t in paths
      ensures Trail(g, t) && |t| == 10 && t[0] == head
    {
      var k :| 0 <= k < |paths| && paths[k] == t;
      assert t[..1] == [head];
      TrailLength(g, t);
    }
  }

  // ---------------------------------------------------------------------------
  // Parsing

  predicate DigitLines(lines: seq<string>)
  {
    forall r, c :: 0 <= r < |lines| && 0 <= c < |lines[r]| ==> IsDigit(lines[r][c])
  }

  /** The heights the digits of the lines stand for. */
  function Heights(lines: seq<string>): (g: Grid)
    requires DigitLines(lines)
    ensures |g| == |lines| && Digits(g)
    ensures forall r :: 0 <= r < |g| ==> |g[r]| == |lines[r]|
  {
    seq(|lines|, r requires 0 <= r < |lines| => seq(|lines[r]|, c requires 0 <= c < |lines[r]| => DigitValue(lines[r][c])))
  }

  /** (r, c) comes before (r', c') in reading order. */
  predicate Before(a: Cell, b: Cell)
  {
    a.0 < b.0 || (a.0 == b.0 && a.1 < b.1)
  }

  /** The 0s of row r, left to right. */
  function RowZeros(row: seq<nat>, r: nat): seq<Cell>
  {
    if row == [] then []
    else RowZeros(row[..|row| - 1], r) + (if row[|row| - 1] == 0 then [(r, |row| - 1)] else [])
  }

  /** The 0s of the grid in reading order: the trailheads. */
  function Zeros(g: Grid): seq<Cell>
  {
    if g == [] then [] else Zeros(g[..|g| - 1]) + RowZeros(g[|g| - 1], |g| - 1)
  }

  /** RowZeros lists exactly the 0s of the row, left to right. */
  lemma {:induction false} RowZerosMeaning(row: seq<nat>, r: nat)
    ensures forall k :: 0 <= k < |RowZeros(row, r)| ==>
      RowZeros(row, r)[k].0 == r && RowZeros(row, r)[k].1 < |row| && row[RowZeros(row, r)[k].1] == 0
    ensures forall c :: 0 <= c < |row| && row[c] == 0 ==> (r, c) in RowZeros(row, r)
    ensures forall i, j :: 0 <= i < j < |RowZeros(row, r)| ==> RowZeros(row, r)[i].1 < RowZeros(row, r)[j].1
  {
    if row != [] {
      var init := row[..|row| - 1];
      RowZerosMeaning(init, r);
      assert forall c :: 0 <= c < |init| ==> row[c] == init[c];
    }
  }

  /** Zeros lists exactly the 0s of the grid, in reading order, so each
      trailhead once. */
  lemma {:induction false} ZerosMeaning(g: Grid)
    ensures forall k :: 0 <= k < |Zeros(g)| ==> Inside(g, Zeros(g)[k]) && Height(g, Zeros(g)[k]) == 0
    ensures forall r, c :: 0 <= r < |g| && 0 <= c < |g[r]| && g[r][c] == 0 ==> (r, c) in Zeros(g)
    ensures forall i, j :: 0 <= i < j < |Zeros(g)| ==> Before(Zeros(g)[i], Zeros(g)[j])
  {
    if g != [] {
      var n := |g| - 1;
      var init := g[..n];
      ZerosMeaning(init);
      RowZerosMeaning(g[n], n);
      assert forall r :: 0 <= r < n ==> g[r] == init[r];
    }
  }

  /** The heights of one line. */
  function RowHeights(line: string): (row: seq<nat>)
    requires forall c :: 0 <= c < |line| ==> IsDigit(line[c])
    ensures |row| == |line| && forall c :: 0 <= c < |line| ==> row[c] == DigitValue(line[c])
  {
    seq(|line|, c requires 0 <= c < |line| => DigitValue(line[c]))
  }

  /** The closure of `parse_into_matrix` over the characters of line `row`:
      the heights, with the 0s pushed onto positions. */
  method RowOf(line: string, row: nat, positions: seq<Cell>) returns (r: Outcome<(seq<nat>, seq<Cell>), Fault>)
    ensures r.Panic? <==> exists c :: 0 <= c < |line| && !IsDigit(line[c])
    ensures r.Ok? ==> (forall c :: 0 <= c < |line| ==> IsDigit(line[c])) && r.value.0 == RowHeights(line)
    ensures r.Ok? ==> r.value.1 == positions + RowZeros(r.value.0, row)
  {
    var nums: seq<nat> := [];
    var found := positions;
    for idx := 0 to |line|
      invariant forall c :: 0 <= c < idx ==> IsDigit(line[c])
      invariant nums == RowHeights(line[..idx])
      invariant found == positions + RowZeros(nums, row)
    {
      if !IsDigit(line[idx]) {
        return Panic(NotADigit);
      }
      var num := DigitValue(line[idx]);
      if num == 0 {
        found := found + [(row, idx)];
      }
      assert (nums + [num])[..idx] == nums;
      nums := nums + [num];
    }
    assert line[..|line|] == line;
    r := Ok((nums, found));
  }

  /** The loop over the lines of `parse_into_matrix`, on the lines. */
  method Matrix(lines: seq<string>) returns (r: Outcome<(seq<Cell>, Grid), Fault>)
    ensures r.Panic? <==> !DigitLines(lines)
    ensures r.Ok? ==> r.value.1 == Heights(lines) && r.value.0 == Zeros(r.value.1)
  {
    var grid: Grid := [];
    var positions: seq<Cell> := [];
    for row := 0 to |lines|
      invariant DigitLines(lines[..row])
      invariant |grid| == row && forall k :: 0 <= k < row ==> grid[k] == RowHeights(lines[k])
      invariant positions == Zeros(grid)
    {
      var next := RowOf(lines[row], row, positions);
      if next.Panic? {
        return Panic(next.reason);
      }
      var (nums, found) := next.value;
      assert (grid + [nums])[..row] == grid;
      grid, positions := grid + [nums], found;
    }
    assert lines[..|lines|] == lines;
    assert grid == Heights(lines);
    r := Ok((positions, grid));
  }

  /** `parse_into_matrix`. */
  method ParseIntoMatrix(input: string) returns (r: Outcome<(seq<Cell>, Grid), Fault>)
    ensures r.Panic? <==> !DigitLines(Lines(input))
    ensures r.Ok? ==> r.value.1 == Heights(Lines(input)) && r.value.0 == Zeros(r.value.1)
  {
    r := Matrix(Lines(input));
  }

  // ---------------------------------------------------------------------------
  // The two parts

  predicate AllInside(g: Grid, heads: seq<Cell>)
  {
    forall k :: 0 <= k < |heads| ==> Inside(g, heads[k])
  }

  /** The sum over the trailheads of the number of 9s each reaches. */
  function TotalScore(g: Grid, heads: seq<Cell>): nat
    requires Digits(g) && AllInside(g, heads)
  {
    if heads == [] then 0 else TotalScore(g, heads[..|heads| - 1]) + |Reach(g, heads[|heads| - 1])|
  }

  /** The sum over the trailheads of the number of trails from each. */
  function TotalRating(g: Grid, heads: seq<Cell>): nat
    requires Digits(g) && AllInside(g, heads)
  {
    if heads == [] then 0 else TotalRating(g, heads[..|heads| - 1]) + Rating(g, heads[|heads| - 1])
  }

  /** Part two's answer is at least part one's. */
  lemma {:induction false} RatingAtLeastScore(g: Grid, heads: seq<Cell>)
    requires Digits(g) && AllInside(g, heads)
    ensures TotalRating(g, heads) >= TotalScore(g, heads)
  {
    if heads != [] {
      RatingAtLeastScore(g, heads[..|heads| - 1]);
      RatingAtLeastReach(g, heads[|heads| - 1]);
    }
  }

  /** The `map` of `part_one` over the trailheads, summed in order: the
      paths recorded by a search from each that marks visited 9s. */
  method Scores(grid: Grid, zeroPoints: seq<Cell>) returns (total: nat)
    requires Digits(grid) && AllInside(grid, zeroPoints)
    ensures total == TotalScore(grid, zeroPoints)
  {
    total := 0;
    for i := 0 to |zeroPoints|
      invariant total == TotalScore(grid, zeroPoints[..i])
    {
      var path, allPaths, visitedNine := NumPathsReaching9(zeroPoints[i], grid, [], [], {}, true);
      ExploreScore(grid, [], zeroPoints[i], Record([], {}));
      assert zeroPoints[..i + 1][..i] == zeroPoints[..i];
      total := total + |allPaths|;
    }
    assert zeroPoints[..|zeroPoints|] == zeroPoints;
  }

  /** The same for `part_two`, with no 9 ever marked. */
  method Ratings(grid: Grid, zeroPoints: seq<Cell>) returns (total: nat)
    requires Digits(grid) && AllInside(grid, zeroPoints)
    ensures total == TotalRating(grid, zeroPoints)
  {
    total := 0;
    for i := 0 to |zeroPoints|
      invariant total == TotalRating(grid, zeroPoints[..i])
    {
      var path, allPaths, visitedNine := NumPathsReaching9(zeroPoints[i], grid, [], [], {}, false);
      ExploreRating(grid, [], zeroPoints[i], Record([], {}));
      assert zeroPoints[..i + 1][..i] == zeroPoints[..i];
      total := total + |allPaths|;
    }
    assert zeroPoints[..|zeroPoints|] == zeroPoints;
  }

  /** `part_one`. */
  method PartOne(input: string) returns (r: Outcome<Option<nat>, Fault>)
    ensures r.Panic? <==> !DigitLines(Lines(input))
    ensures r.Ok? ==> var g := Heights(Lines(input));
      AllInside(g, Zeros(g)) && r.value == Some(TotalScore(g, Zeros(g)))
  {
    var parsed := ParseIntoMatrix(input);
    if parsed.Panic? {
      return Panic(parsed.reason);
    }
    var (zeroPoints, grid) := parsed.value;
    ZerosMeaning(grid);
    var total := Scores(grid, zeroPoints);
    r := Ok(Some(total));
  }

  /** `part_two`. */
  method PartTwo(input: string) returns (r: Outcome<Option<nat>, Fault>)
    ensures r.Panic? <==> !DigitLines(Lines(input))
    ensures r.Ok? ==> var g := Heights(Lines(input));
      AllInside(g, Zeros(g)) && r.value == Some(TotalRating(g, Zeros(g)))
  {
    var parsed := ParseIntoMatrix(input);
    if parsed.Panic? {
      return Panic(parsed.reason);
    }
    var (zeroPoints, grid) := parsed.value;
    ZerosMeaning(grid);
    var total := Ratings(grid, zeroPoints);
    r := Ok(Some(total));
  }
}
