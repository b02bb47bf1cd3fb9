/** The guard's patrol on a grid of obstacles and floor cells: the walk that
    marks every cell the guard steps on (`part_one`), and the loop check run
    once per candidate obstruction (`check_if_loop`, `part_two`). */
module GuardPatrol {
  import opened Common
  import opened Text

  /** A direction as (row step, column step), `(i32, i32)` in the program. */
  type Dir = (int, int)

  const North: Dir := (-1, 0)
  const South: Dir := (1, 0)
  const East: Dir := (0, 1)
  const West: Dir := (0, -1)

  /** A grid cell. `Path(true)` is a floor cell the guard has already stood on. */
  datatype Cell = Guard(d1: int, d2: int) | Obstacle | Path(visited: bool)

  type Grid = seq<seq<Cell>>

  /** (row, column), `(usize, usize)`. */
  type Pos = (nat, nat)

  datatype Fault =
    | UnexpectedCharacter(ch: char)
    | IndexOutOfBounds
    | UnknownDirection
    | NotObstacleOrPath
    | Loop
    | OutOfFuel

  // ---------------------------------------------------------------------------
  // Coordinates

  /** `add`: a signed step from an unsigned coordinate. It fails exactly when
      the step would go below zero or past `usize::MAX`
      (`i.wrapping_abs() as u32` is |i| for every `i32`). */
  function Add(u: nat, i: int): (r: Option<nat>)
    ensures r.Some? <==> 0 <= u + i && (i >= 0 ==> u + i <= USIZE_MAX)
    ensures r.Some? ==> r.value == u + i
  {
    if i < 0 then
      if Abs(i) <= u then Some(u - Abs(i)) else None
    else if u + i <= USIZE_MAX then Some(u + i) else None
  }

  /** `add_tuple`: both coordinates stepped; None if either fails. */
  function AddTuple(u: Pos, d: Dir): (r: Option<Pos>)
    ensures r.Some? <==> Add(u.0, d.0).Some? && Add(u.1, d.1).Some?
    ensures r.Some? ==> r.value.0 == u.0 + d.0 && r.value.1 == u.1 + d.1
  {
    match Add(u.0, d.0)
    case None => None
    case Some(row) =>
      match Add(u.1, d.1)
      case None => None
      case Some(col) => Some((row, col))
  }

  predicate InGrid(g: Grid, p: Pos)
  {
    p.0 < |g| && p.1 < |g[p.0]|
  }

  /** `get_next_pos`: the cell at p, None when p is off the grid. */
  function Get(g: Grid, p: Pos): (r: Option<Cell>)
    ensures r.Some? <==> InGrid(g, p)
    ensures r.Some? ==> r.value == g[p.0][p.1]
  {
    if InGrid(g, p) then Some(g[p.0][p.1]) else None
  }

  predicate IsCompass(d: Dir)
  {
    d == North || d == East || d == South || d == West
  }

  /** The turn at an obstacle, N -> E -> S -> W -> N: a clockwise quarter
      rotation (dr, dc) -> (dc, -dr) of the four compass directions. Any other
      direction has no turn (the program panics). */
  function TurnRight(d: Dir): (r: Option<Dir>)
    ensures r.Some? <==> IsCompass(d)
    ensures r.Some? ==> r.value == (d.1, -d.0) && IsCompass(r.value)
  {
    if d == North then Some(East)
    else if d == East then Some(South)
    else if d == South then Some(West)
    else if d == West then Some(North)
    else None
  }

  function SetCell(g: Grid, p: Pos, v: Cell): Grid
    requires InGrid(g, p)
  {
    g[p.0 := g[p.0][p.1 := v]]
  }



  // ---------------------------------------------------------------------------
  // Parsing

  /** The cell a character stands for; the four arrows are the guard facing
      N, W, E, S. */
  function ParseCell(ch: char): (r: Option<Cell>)
    ensures r.Some? <==> ch in {'.', 'X', '#', '^', '<', '>', 'v'}
    ensures r.Some? && r.value.Guard? ==> IsCompass((r.value.d1, r.value.d2))
    ensures r == Some(Path(false)) <==> ch == '.'
    ensures r == Some(Path(true)) <==> ch == 'X'
    ensures r == Some(Obstacle) <==> ch == '#'
  {
    match ch
    case '.' => Some(Path(false))
    case 'X' => Some(Path(true))
    case '#' => Some(Obstacle)
    case '^' => Some(Guard(North.0, North.1))
    case '<' => Some(Guard(West.0, West.1))
    case '>' => Some(Guard(East.0, East.1))
    case 'v' => Some(Guard(South.0, South.1))
    case _ => None
  }

  /** One line as a row of cells; the first character that is not a cell
      panics. */
  function ParseRow(line: string): (r: Outcome<seq<Cell>, Fault>)
    ensures r.Ok? <==> forall i :: 0 <= i < |line| ==> ParseCell(line[i]).Some?
    ensures r.Ok? ==> |r.value| == |line| && forall i :: 0 <= i < |line| ==> ParseCell(line[i]) == Some(r.value[i])
    ensures r.Panic? ==> exists i :: 0 <= i < |line| && ParseCell(line[i]).None? && r.reason == UnexpectedCharacter(line[i])
  {
    if line == [] then Ok([])
    else
      match ParseCell(line[0])
      case None => Panic(UnexpectedCharacter(line[0]))
      case Some(c) =>
        match ParseRow(line[1..])
        case Panic(f) => Panic(f)
        case Ok(rest) =>
          assert forall i :: 1 <= i < |line| ==> line[i] == line[1..][i - 1];
          Ok([c] + rest)
  }

  function ParseRows(lines: seq<string>): (r: Outcome<Grid, Fault>)
    ensures r.Ok? <==> forall k :: 0 <= k < |lines| ==> ParseRow(lines[k]).Ok?
    ensures r.Ok? ==> |r.value| == |lines| && forall k :: 0 <= k < |lines| ==> ParseRow(lines[k]) == Ok(r.value[k])
  {
    if lines == [] then Ok([])
    else
      match ParseRow(lines[0])
      case Panic(f) => Panic(f)
      case Ok(row) =>
        match ParseRows(lines[1..])
        case Panic(f) => Panic(f)
        case Ok(rest) =>
          assert forall k :: 1 <= k < |lines| ==> lines[k] == lines[1..][k - 1];
          Ok([row] + rest)
  }

  predicate IsGuardAt(g: Grid, r: nat, c: nat)
  {
    r < |g| && c < |g[r]| && g[r][c].Guard?
  }

  /** (r, c) comes before p in row-major order. */
  predicate Before(r: nat, c: nat, p: Pos)
  {
    r < p.0 || (r == p.0 && c < p.1)
  }

  function LastGuardInRow(row: seq<Cell>): (r: Option<nat>)
    ensures r.Some? ==>
      r.value < |row| && row[r.value].Guard? && forall c :: r.value < c < |row| ==> !row[c].Guard?
    ensures r.None? ==> forall c :: 0 <= c < |row| ==> !row[c].Guard?
  {
    if row == [] then None
    else if row[|row| - 1].Guard? then Some(|row| - 1)
    else LastGuardInRow(row[..|row| - 1])
  }

  /** Where the guard stands: the last guard cell in row-major order (each one
      overwrites `guard_position`), `(usize::MAX, usize::MAX)` when there is
      none. */
  function GuardPosition(g: Grid): (p: Pos)
    ensures (exists r: nat, c: nat :: IsGuardAt(g, r, c)) ==>
      IsGuardAt(g, p.0, p.1) && forall r: nat, c: nat :: IsGuardAt(g, r, c) ==> (r, c) == p || Before(r, c, p)
    ensures (forall r: nat, c: nat :: !IsGuardAt(g, r, c)) ==> p == (USIZE_MAX, USIZE_MAX)
  {
    if g == [] then (USIZE_MAX, USIZE_MAX)
    else
      var last := |g| - 1;
      match LastGuardInRow(g[last])
      case Some(c) =>
        assert IsGuardAt(g, last, c);
        (last, c)
      case None =>
        var p := GuardPosition(g[..last]);
        assert forall r: nat, c: nat :: IsGuardAt(g, r, c) <==> IsGuardAt(g[..last], r, c);
        p
  }

  /** `parse_into_matrix`: one row per line and the guard's position. */
  function ParseIntoMatrix(input: string): (r: Outcome<(Pos, Grid), Fault>)
    ensures r.Ok? ==> r.value.0 == GuardPosition(r.value.1) && ParseRows(Lines(input)) == Ok(r.value.1)
    ensures r.Panic? ==> ParseRows(Lines(input)).Panic?
  {
    match ParseRows(Lines(input))
    case Panic(f) => Panic(f)
    case Ok(g) => Ok((GuardPosition(g), g))
  }

  // ---------------------------------------------------------------------------
  // The walk as a state machine

  /** The loop state: the matrix with its marks, position, direction and the
      number of cells counted so far. */
  datatype Patrol = Patrol(grid: Grid, pos: Pos, dir: Dir, count: nat)

  /** What a repeated state is made of. */
  function Key(p: Patrol): (Pos, Dir)
  {
    (p.pos, p.dir)
  }

  /** The direction read from the start cell: a guard's own, otherwise north. */
  function StartDir(c: Cell): Dir
  {
    if c.Guard? then (c.d1, c.d2) else North
  }

  /** The start of both walks: the start cell's direction is read, the cell is
      overwritten with `Path(true)`, and the count is 1. */
  function Start(g: Grid, position: Pos): (r: Outcome<Patrol, Fault>)
    ensures r.Ok? <==> InGrid(g, position)
    ensures r.Ok? ==>
      && r.value.pos == position && r.value.count == 1
      && r.value.grid == SetCell(g, position, Path(true))
      && r.value.dir == StartDir(g[position.0][position.1])
  {
    if !InGrid(g, position) then Panic(IndexOutOfBounds)
    else Ok(Patrol(SetCell(g, position, Path(true)), position, StartDir(g[position.0][position.1]), 1))
  }

  /** `check_if_loop`'s start: an obstacle at idx, then `Start`. */
  function Setup(g: Grid, position: Pos, idx: Pos): (r: Outcome<Patrol, Fault>)
    ensures r.Ok? <==> InGrid(g, idx) && InGrid(g, position)
    ensures r.Ok? ==> r == Start(SetCell(g, idx, Obstacle), position)
  {
    if !InGrid(g, idx) then Panic(IndexOutOfBounds)
    else Start(SetCell(g, idx, Obstacle), position)
  }

  /** The next cell in the walking direction, when it is on the grid. */
  function Ahead(p: Patrol): (r: Option<Pos>)
    ensures r.Some? ==> InGrid(p.grid, r.value) && AddTuple(p.pos, p.dir) == r
    ensures r.None? <==> AddTuple(p.pos, p.dir).None? || !InGrid(p.grid, AddTuple(p.pos, p.dir).value)
  {
    match AddTuple(p.pos, p.dir)
    case None => None
    case Some(np) => if InGrid(p.grid, np) then Some(np) else None
  }

  /** One round of the walking loop (after its loop checks): leave when the
      next cell is off the grid; turn at an obstacle; step onto a floor cell,
      marking and counting it if it was unmarked; panic on a guard cell. */
  function Advance(p: Patrol): (r: Outcome<Option<Patrol>, Fault>)
    ensures r == Ok(None) <==> Ahead(p).None?
  {
    match Ahead(p)
    case None => Ok(None)
    case Some(np) =>
      match p.grid[np.0][np.1]
      case Obstacle =>
        (match TurnRight(p.dir)
         case None => Panic(UnknownDirection)
         case Some(d) => Ok(Some(p.(dir := d))))
      case Path(b) =>
        if b then Ok(Some(p.(pos := np)))
        else Ok(Some(p.(grid := SetCell(p.grid, np, Path(true)), pos := np, count := p.count + 1)))
      case Guard(_, _) => Panic(NotObstacleOrPath)
  }

  /** A round at an obstacle turns clockwise in place (a direction that has
      no turn panics); a round at a floor cell steps onto it, marking and
      counting it exactly when it was unmarked; a round at a guard cell
      panics. */
  lemma AdvanceCases(p: Patrol)
    requires Ahead(p).Some?
    ensures var np := Ahead(p).value;
      var cell := p.grid[np.0][np.1];
      var r := Advance(p);
      (cell.Obstacle? ==>
        (r.Ok? <==> IsCompass(p.dir)) &&
        (r.Ok? ==> r.value == Some(Patrol(p.grid, p.pos, (p.dir.1, -p.dir.0), p.count)))) &&
      (cell.Path? ==>
        r == Ok(Some(Patrol(if cell.visited then p.grid else SetCell(p.grid, np, Path(true)),
                            np, p.dir, if cell.visited then p.count else p.count + 1)))) &&
      (cell.Guard? ==> r == Panic(NotObstacleOrPath))
  {
  }

  /** The state after n rounds; once the guard has left (None) or the walk has
      panicked, that is the result for every later n. */
  function Follow(p: Patrol, n: nat): Outcome<Option<Patrol>, Fault>
  {
    if n == 0 then Ok(Some(p))
    else
      match Follow(p, n - 1)
      case Ok(Some(q)) => Advance(q)
      case other => other
  }

  predicate Walking(o: Outcome<Option<Patrol>, Fault>)
  {
    o.Ok? && o.value.Some?
  }

  /** After round t the guard, with count c, is about to leave the grid. */
  predicate EndsAt(p: Patrol, t: nat, c: nat)
  {
    Walking(Follow(p, t)) && Follow(p, t).value.value.count == c && Follow(p, t + 1) == Ok(None)
  }

  /** At round t >= 1 the guard is back at its start state with a count other
      than 1 (`part_one`'s "Loop" test). */
  predicate ReturnsAt(p: Patrol, t: nat)
  {
    t >= 1 && Walking(Follow(p, t)) && Key(Follow(p, t).value.value) == Key(p) &&
    Follow(p, t).value.value.count != 1
  }

  // ---------------------------------------------------------------------------
  // What the walk keeps

  /** The cells marked `Path(true)`. */
  ghost function Marked(g: Grid): set<Pos>
  {
    MarkedRows(g, |g|)
  }

  /** The marked cells of the first n rows. */
  ghost function MarkedRows(g: Grid, n: nat): set<Pos>
    requires n <= |g|
  {
    if n == 0 then {} else MarkedRows(g, n - 1) + MarkedRow(g[n - 1], n - 1, |g[n - 1]|)
  }

  /** The marked cells among the first n of row r. */
  ghost function MarkedRow(row: seq<Cell>, r: nat, n: nat): set<Pos>
    requires n <= |row|
  {
    if n == 0 then {}
    else MarkedRow(row, r, n - 1) + (if row[n - 1] == Path(true) then {(r, n - 1)} else {})
  }

  lemma {:induction false} MarkedRowIff(row: seq<Cell>, r: nat, n: nat, x: Pos)
    requires n <= |row|
    ensures x in MarkedRow(row, r, n) <==> x.0 == r && x.1 < n && row[x.1] == Path(true)
  {
    if n > 0 {
      MarkedRowIff(row, r, n - 1, x);
    }
  }

  lemma {:induction false} MarkedRowsIff(g: Grid, n: nat, x: Pos)
    requires n <= |g|
    ensures x in MarkedRows(g, n) <==> x.0 < n && x.1 < |g[x.0]| && g[x.0][x.1] == Path(true)
  {
    if n > 0 {
      MarkedRowsIff(g, n - 1, x);
      MarkedRowIff(g[n - 1], n - 1, |g[n - 1]|, x);
    }
  }

  /** Marked holds exactly the cells of g that are `Path(true)`. */
  lemma MarkedIff(g: Grid, x: Pos)
    ensures x in Marked(g) <==> InGrid(g, x) && g[x.0][x.1] == Path(true)
  {
    MarkedRowsIff(g, |g|, x);
  }

  /** A floor cell counts as a floor cell whether marked or not. */
  function Plain(c: Cell): Cell
  {
    if c.Path? then Path(false) else c
  }

  /** The grid with every mark erased. */
  function Layout(g: Grid): Grid
  {
    seq(|g|, r requires 0 <= r < |g| => seq(|g[r]|, c requires 0 <= c < |g[r]| => Plain(g[r][c])))
  }

  /** g and h differ at most in marks. */
  predicate SameLayout(g: Grid, h: Grid)
  {
    Layout(g) == Layout(h)
  }

  lemma LayoutAt(g: Grid, h: Grid, p: Pos)
    requires SameLayout(g, h)
    ensures InGrid(g, p) <==> InGrid(h, p)
    ensures InGrid(g, p) ==> Plain(g[p.0][p.1]) == Plain(h[p.0][p.1])
  {
    assert |g| == |Layout(g)| == |Layout(h)| == |h|;
    if p.0 < |g| {
      assert Layout(g)[p.0] == Layout(h)[p.0];
      assert |g[p.0]| == |Layout(g)[p.0]|;
      if p.1 < |g[p.0]| {
        assert Layout(g)[p.0][p.1] == Layout(h)[p.0][p.1];
      }
    }
  }

  /** Marking a cell adds it to the marked cells. */
  lemma MarkAdds(g: Grid, p: Pos)
    requires InGrid(g, p)
    ensures Marked(SetCell(g, p, Path(true))) == Marked(g) + {p}
  {
    var h := SetCell(g, p, Path(true));
    forall x ensures x in Marked(h) <==> x in Marked(g) + {p} {
      MarkedIff(g, x);
      MarkedIff(h, x);
    }
  }

  /** Marking a floor cell keeps the layout. */
  lemma MarkCell(g: Grid, p: Pos)
    requires InGrid(g, p) && g[p.0][p.1].Path?
    ensures SameLayout(g, SetCell(g, p, Path(true)))
    ensures Marked(SetCell(g, p, Path(true))) == Marked(g) + {p}
  {
    MarkAdds(g, p);
    MarkKeepsLayout(g, p);
  }

  lemma MarkKeepsLayout(g: Grid, p: Pos)
    requires InGrid(g, p) && g[p.0][p.1].Path?
    ensures SameLayout(g, SetCell(g, p, Path(true)))
  {
    var h := SetCell(g, p, Path(true));
    forall r | 0 <= r < |g| ensures Layout(g)[r] == Layout(h)[r] {
      assert forall c | 0 <= c < |g[r]| :: Layout(g)[r][c] == Layout(h)[r][c];
    }
  }

  /** A round never changes the layout. */
  lemma AdvanceLayout(p: Patrol)
    requires Walking(Advance(p))
    ensures SameLayout(p.grid, Advance(p).value.value.grid)
  {
    var np := Ahead(p).value;
    if p.grid[np.0][np.1] == Path(false) {
      MarkKeepsLayout(p.grid, np);
    }
  }

  /** The visited positions up to round n. */
  function Visited(p: Patrol, n: nat): set<Pos>
  {
    if n == 0 then {p.pos}
    else Visited(p, n - 1) + (if Walking(Follow(p, n)) then {Follow(p, n).value.value.pos} else {})
  }

  /** One round keeps the layout, marks exactly the cell the guard then stands
      on, and counts one exactly when that cell was unmarked. */
  lemma AdvanceTally(p: Patrol)
    requires p.pos in Marked(p.grid)
    requires Walking(Advance(p))
    ensures var q := Advance(p).value.value;
      SameLayout(p.grid, q.grid) &&
      Marked(q.grid) == Marked(p.grid) + {q.pos} &&
      q.count == p.count + (if q.pos in Marked(p.grid) then 0 else 1)
  {
    var np := Ahead(p).value;
    MarkedIff(p.grid, np);
    if p.grid[np.0][np.1] == Path(false) {
      MarkCell(p.grid, np);
      assert np !in Marked(p.grid);
    } else if p.grid[np.0][np.1] == Path(true) {
      assert np in Marked(p.grid);
    }
  }

  /** q, reached after n rounds from p, keeps p's layout, stands on a
      marked cell, has the cells marked at p or visited marked, and counted
      the visited cells not marked at p. */
  ghost predicate Tallied(p: Patrol, q: Patrol, n: nat)
  {
    SameLayout(p.grid, q.grid) &&
    Marked(q.grid) == Marked(p.grid) + Visited(p, n) &&
    q.pos in Marked(q.grid) &&
    q.count == p.count + |Visited(p, n) - Marked(p.grid)|
  }

  /** The visited positions grow by where round n stands. */
  lemma VisitedStep(p: Patrol, n: nat)
    requires n > 0 && Walking(Follow(p, n))
    ensures Visited(p, n) == Visited(p, n - 1) + {Follow(p, n).value.value.pos}
  {
  }

  /** The set arithmetic of one round of Tallied. */
  lemma TallySets(m: set<Pos>, v: set<Pos>, before: set<Pos>, after: set<Pos>, x: Pos, c0: nat, c: nat, c': nat)
    requires before == m + v && after == before + {x}
    requires c == c0 + |v - m| && c' == c + (if x in before then 0 else 1)
    ensures after == m + (v + {x}) && c' == c0 + |(v + {x}) - m|
  {
    CardAddOne(m, v, x);
  }

  /** Tallied carries over one more round. */
  lemma TallyStep(p: Patrol, n: nat, q': Patrol, q: Patrol)
    requires n > 0 && Follow(p, n - 1) == Ok(Some(q')) && Follow(p, n) == Ok(Some(q))
    requires Tallied(p, q', n - 1)
    ensures Tallied(p, q, n)
  {
    assert Advance(q') == Ok(Some(q));
    AdvanceTally(q');
    VisitedStep(p, n);
    TallyRound(p, q', q, Visited(p, n - 1));
  }

  /** One round of Tallied, on the states alone: q' tallied the visited
      cells v, and the round to q marked q's cell. */
  lemma TallyRound(p: Patrol, q': Patrol, q: Patrol, v: set<Pos>)
    requires SameLayout(p.grid, q'.grid) && Marked(q'.grid) == Marked(p.grid) + v
    requires q'.count == p.count + |v - Marked(p.grid)|
    requires SameLayout(q'.grid, q.grid) && Marked(q.grid) == Marked(q'.grid) + {q.pos}
    requires q.count == q'.count + (if q.pos in Marked(q'.grid) then 0 else 1)
    ensures SameLayout(p.grid, q.grid) && Marked(q.grid) == Marked(p.grid) + (v + {q.pos})
    ensures q.pos in Marked(q.grid) && q.count == p.count + |(v + {q.pos}) - Marked(p.grid)|
  {
    TallySets(Marked(p.grid), v, Marked(q'.grid), Marked(q.grid), q.pos, p.count, q'.count, q.count);
  }

  /** Before any round, p is tallied against itself. */
  lemma TallyStart(p: Patrol)
    requires p.pos in Marked(p.grid)
    ensures Tallied(p, p, 0)
  {
    assert {p.pos} - Marked(p.grid) == {};
  }

  /** Along the walk the layout stays fixed, the guard stands on a marked
      cell, the marked cells are the initially marked ones plus the visited
      ones, and the count grew by the number of visited cells that were not
      marked at the start. */
  lemma {:induction false} FollowMarks(p: Patrol, n: nat)
    requires Tallied(p, p, 0)
    requires Walking(Follow(p, n))
    ensures Tallied(p, Follow(p, n).value.value, n)
  {
    if n > 0 {
      FollowPrev(p, n);
      FollowMarks(p, n - 1);
      TallyStep(p, n, Follow(p, n - 1).value.value, Follow(p, n).value.value);
    }
  }

  /** The walk never changes the layout. */
  lemma {:induction false} FollowLayout(p: Patrol, n: nat)
    requires Walking(Follow(p, n))
    ensures SameLayout(p.grid, Follow(p, n).value.value.grid)
  {
    if n > 0 {
      var prev := Follow(p, n - 1);
      assert Walking(prev);
      FollowLayout(p, n - 1);
      var q := prev.value.value;
      assert Follow(p, n) == Advance(q);
      AdvanceLayout(q);
      SameLayoutTrans(p.grid, q.grid, Advance(q).value.value.grid);
    }
  }

  lemma SameLayoutTrans(g: Grid, h: Grid, k: Grid)
    requires SameLayout(g, h) && SameLayout(h, k)
    ensures SameLayout(g, k)
  {
  }

  lemma FollowPrev(p: Patrol, n: nat)
    requires n > 0 && Walking(Follow(p, n))
    ensures Walking(Follow(p, n - 1))
  {
  }

  /** A walk that has left the grid or panicked stays so. */
  lemma {:induction false} FollowStuck(p: Patrol, n: nat, m: nat)
    requires !Walking(Follow(p, n))
    ensures Follow(p, n + m) == Follow(p, n)
    decreases m
  {
    if m > 0 {
      FollowStuck(p, n, m - 1);
    }
  }

  lemma CardAddOne<T>(m: set<T>, v: set<T>, x: T)
    ensures |(v + {x}) - m| == |v - m| + (if x in m + v then 0 else 1)
  {
    if x in m + v {
      assert (v + {x}) - m == v - m;
    } else {
      assert (v + {x}) - m == (v - m) + {x};
    }
  }

  /** `part_one`'s count, from a parsed grid whose start cell is not already
      marked: the number of distinct cells the guard stood on that were not
      marked `X` in the input. */
  lemma WalkCount(g: Grid, position: Pos, n: nat)
    requires Start(g, position).Ok?
    requires g[position.0][position.1] != Path(true)
    requires Walking(Follow(Start(g, position).value, n))
    ensures Follow(Start(g, position).value, n).value.value.count ==
      |Visited(Start(g, position).value, n) - Marked(g)|
  {
    var p := Start(g, position).value;
    MarkAdds(g, position);
    MarkedIff(g, position);
    TallyStart(p);
    FollowMarks(p, n);
    VisitedHasStart(p, n);
    CountFromStart(Marked(g), Visited(p, n), position);
  }

  /** Counting from 1 at an unmarked start counts the start itself. */
  lemma CountFromStart(m: set<Pos>, v: set<Pos>, x: Pos)
    requires x in v && x !in m
    ensures 1 + |v - (m + {x})| == |v - m|
  {
    assert v - (m + {x}) == (v - m) - {x};
  }

  lemma {:induction false} VisitedHasStart(p: Patrol, n: nat)
    ensures p.pos in Visited(p, n)
  {
    if n > 0 {
      VisitedHasStart(p, n - 1);
    }
  }

  // ---------------------------------------------------------------------------
  // The walk as seen from the layout alone

  /** One round on a fixed grid, from a (position, direction): what `Advance`
      does to the position and direction, which depends only on the layout. */
  function Move(g: Grid, k: (Pos, Dir)): Outcome<Option<(Pos, Dir)>, Fault>
  {
    match AddTuple(k.0, k.1)
    case None => Ok(None)
    case Some(np) =>
      if !InGrid(g, np) then Ok(None)
      else
        match g[np.0][np.1]
        case Obstacle =>
          (match TurnRight(k.1)
           case None => Panic(UnknownDirection)
           case Some(d) => Ok(Some((k.0, d))))
        case Path(_) => Ok(Some((np, k.1)))
        case Guard(_, _) => Panic(NotObstacleOrPath)
  }

  /** The (position, direction) after n rounds on the fixed grid g. */
  function Trace(g: Grid, k: (Pos, Dir), n: nat): Outcome<Option<(Pos, Dir)>, Fault>
  {
    if n == 0 then Ok(Some(k))
    else
      match Trace(g, k, n - 1)
      case Ok(Some(k')) => Move(g, k')
      case other => other
  }

  predicate Going(o: Outcome<Option<(Pos, Dir)>, Fault>)
  {
    o.Ok? && o.value.Some?
  }

  /** A walk state reduced to its key. */
  function Project(o: Outcome<Option<Patrol>, Fault>): (r: Outcome<Option<(Pos, Dir)>, Fault>)
    ensures Going(r) <==> Walking(o)
  {
    match o
    case Panic(f) => Panic(f)
    case Ok(None) => Ok(None)
    case Ok(Some(q)) => Ok(Some(Key(q)))
  }

  /** Marks do not steer the guard: a round of the full walk moves the key as
      `Move` does on any grid of the same layout. */
  lemma AdvanceProject(q: Patrol, g: Grid)
    requires SameLayout(g, q.grid)
    ensures Project(Advance(q)) == Move(g, Key(q))
  {
    if AddTuple(q.pos, q.dir).Some? {
      LayoutAt(g, q.grid, AddTuple(q.pos, q.dir).value);
    }
  }

  /** The full walk, reduced to keys, is the walk on its starting layout. */
  lemma {:induction false} FollowProject(p: Patrol, n: nat)
    ensures Project(Follow(p, n)) == Trace(p.grid, Key(p), n)
  {
    if n > 0 {
      FollowProject(p, n - 1);
      FollowStepProject(p, n - 1);
    }
  }

  /** Where the walk's keys agree with `Trace` after n rounds, they agree
      after n + 1. */
  lemma FollowStepProject(p: Patrol, n: nat)
    requires Project(Follow(p, n)) == Trace(p.grid, Key(p), n)
    ensures Project(Follow(p, n + 1)) == Trace(p.grid, Key(p), n + 1)
  {
    var prev := Follow(p, n);
    if Walking(prev) {
      var q := prev.value.value;
      FollowLayout(p, n);
      AdvanceProject(q, p.grid);
      assert Follow(p, n + 1) == Advance(q);
    } else {
      assert Follow(p, n + 1) == prev;
    }
  }

  /** The guard starting from p never leaves the grid and the walk never
      panics. */
  ghost predicate NeverLeaves(p: Patrol)
  {
    forall n: nat :: Going(Trace(p.grid, Key(p), n))
  }

  /** ... which is the same as saying that the full walk, marks and count
      included, goes on forever. */
  lemma NeverLeavesWalking(p: Patrol)
    requires p.pos in Marked(p.grid)
    ensures NeverLeaves(p) <==> forall n: nat :: Walking(Follow(p, n))
  {
    if !NeverLeaves(p) {
      var n: nat :| !Going(Trace(p.grid, Key(p), n));
      FollowProject(p, n);
      assert !Walking(Follow(p, n));
    } else {
      forall n: nat ensures Walking(Follow(p, n)) {
        FollowProject(p, n);
      }
    }
  }

  /** The keys seen before round t. */
  function SeenKeys(g: Grid, k: (Pos, Dir), t: nat): set<(Pos, Dir)>
  {
    if t == 0 then {}
    else SeenKeys(g, k, t - 1) + (if Going(Trace(g, k, t - 1)) then {Trace(g, k, t - 1).value.value} else {})
  }

  /** At round t the guard, with count c, is in a state it was in before. */
  predicate RepeatsAt(p: Patrol, t: nat, c: nat)
  {
    Walking(Follow(p, t)) && Follow(p, t).value.value.count == c &&
    Key(Follow(p, t).value.value) in SeenKeys(p.grid, Key(p), t)
  }

  /** The round after round n. */
  lemma TraceOn(g: Grid, k: (Pos, Dir), n: nat)
    ensures Trace(g, k, n + 1) == if Going(Trace(g, k, n)) then Move(g, Trace(g, k, n).value.value) else Trace(g, k, n)
  {
  }

  /** Following i + m rounds is following m rounds from where i rounds led. */
  lemma {:induction false} TraceSplit(g: Grid, k: (Pos, Dir), i: nat, m: nat)
    requires Going(Trace(g, k, i))
    ensures Trace(g, k, i + m) == Trace(g, Trace(g, k, i).value.value, m)
  {
    if m > 0 {
      var mid := Trace(g, k, i).value.value;
      var n := i + m - 1;
      TraceSplit(g, k, i, m - 1);
      assert Trace(g, k, n) == Trace(g, mid, m - 1);
      TraceOn(g, k, n);
      TraceOn(g, mid, m - 1);
    }
  }

  /** Once the walk has stopped, it stays where it stopped. */
  lemma {:induction false} TraceStuck(g: Grid, k: (Pos, Dir), n: nat, m: nat)
    requires !Going(Trace(g, k, n)) && n <= m
    ensures Trace(g, k, m) == Trace(g, k, n)
    decreases m - n
  {
    if n < m {
      TraceStuck(g, k, n, m - 1);
    }
  }

  /** If round j repeats the key of an earlier round i, every round is
      walking. */
  lemma {:induction false} PeriodicAt(g: Grid, k: (Pos, Dir), i: nat, j: nat, n: nat)
    requires i < j && Going(Trace(g, k, i)) && Trace(g, k, j) == Trace(g, k, i)
    ensures Going(Trace(g, k, n))
    decreases n
  {
    if n <= j {
      GoingBefore(g, k, n, j);
    } else {
      var m := n - j;
      TraceSplit(g, k, i, m);
      TraceSplit(g, k, j, m);
      PeriodicAt(g, k, i, j, i + m);
      assert Trace(g, k, j + m) == Trace(g, k, i + m);
    }
  }

  /** A walk still going at round j was going at every earlier round. */
  lemma GoingBefore(g: Grid, k: (Pos, Dir), n: nat, j: nat)
    requires n <= j && Going(Trace(g, k, j))
    ensures Going(Trace(g, k, n))
  {
    if !Going(Trace(g, k, n)) {
      TraceStuck(g, k, n, j);
    }
  }

  lemma Periodic(p: Patrol, i: nat, j: nat)
    requires i < j && Going(Trace(p.grid, Key(p), i)) && Trace(p.grid, Key(p), j) == Trace(p.grid, Key(p), i)
    ensures NeverLeaves(p)
  {
    forall n: nat ensures Going(Trace(p.grid, Key(p), n)) {
      PeriodicAt(p.grid, Key(p), i, j, n);
    }
  }

  lemma {:induction false} SeenKeysHas(g: Grid, k: (Pos, Dir), t: nat, key: (Pos, Dir))
    requires key in SeenKeys(g, k, t)
    ensures exists i: nat :: i < t && Trace(g, k, i) == Ok(Some(key))
  {
    if key !in SeenKeys(g, k, t - 1) {
      assert Trace(g, k, t - 1) == Ok(Some(key));
    } else {
      SeenKeysHas(g, k, t - 1, key);
    }
  }

  // ---------------------------------------------------------------------------
  // check_if_loop

  /** Every (position, direction) the loop can be in. */
  ghost function Universe(g: Grid, d0: Dir): set<(Pos, Dir)>
  {
    UniverseRows(g, d0, |g|)
  }

  /** The pairs on the first n rows. */
  ghost function UniverseRows(g: Grid, d0: Dir, n: nat): set<(Pos, Dir)>
    requires n <= |g|
  {
    if n == 0 then {} else UniverseRows(g, d0, n - 1) + UniverseRow(n - 1, |g[n - 1]|, d0)
  }

  /** The pairs on the first w cells of row r. */
  ghost function UniverseRow(r: nat, w: nat, d0: Dir): set<(Pos, Dir)>
  {
    if w == 0 then {}
    else
      var x := (r, w - 1);
      UniverseRow(r, w - 1, d0) + {(x, d0), (x, North), (x, East), (x, South), (x, West)}
  }

  /** The start direction or one of the four compass directions. */
  predicate Heading(d: Dir, d0: Dir)
  {
    d == d0 || IsCompass(d)
  }

  lemma InUniverse(g: Grid, d0: Dir, key: (Pos, Dir))
    requires InGrid(g, key.0) && Heading(key.1, d0)
    ensures key in Universe(g, d0)
  {
    InUniverseRows(g, d0, |g|, key);
  }

  lemma {:induction false} InUniverseRows(g: Grid, d0: Dir, n: nat, key: (Pos, Dir))
    requires n <= |g| && key.0.0 < n && key.0.1 < |g[key.0.0]| && Heading(key.1, d0)
    ensures key in UniverseRows(g, d0, n)
  {
    if key.0.0 < n - 1 {
      InUniverseRows(g, d0, n - 1, key);
    } else {
      InUniverseRow(n - 1, |g[n - 1]|, d0, key);
    }
  }

  lemma {:induction false} InUniverseRow(r: nat, w: nat, d0: Dir, key: (Pos, Dir))
    requires key.0.0 == r && key.0.1 < w && Heading(key.1, d0)
    ensures key in UniverseRow(r, w, d0)
  {
    if key.0.1 < w - 1 {
      InUniverseRow(r, w - 1, d0, key);
    }
  }

  /** What `check_if_loop` reports about the walk from p0. */
  ghost predicate LoopReport(p0: Patrol, r: Outcome<(nat, bool), Fault>)
  {
    (r.Ok? ==> (r.value.1 <==> NeverLeaves(p0))) &&
    (r.Ok? && r.value.1 ==> exists t: nat :: RepeatsAt(p0, t, r.value.0)) &&
    (r.Ok? && !r.value.1 ==> exists t: nat :: EndsAt(p0, t, r.value.0)) &&
    (r.Panic? ==> exists t: nat :: Follow(p0, t) == Panic(r.reason))
  }

  /** `check_if_loop`: an obstacle is put at idx in its own copy of the matrix
      and the guard walks, recording each (position, direction) it turns or
      steps from; meeting a recorded one reports a loop, leaving the grid
      reports none. The loop always stops: there are finitely many such pairs. */
  method CheckIfLoop(matrix: Grid, position: Pos, idx: Pos) returns (r: Outcome<(nat, bool), Fault>)
    ensures Setup(matrix, position, idx).Panic? ==> r == Panic(Setup(matrix, position, idx).reason)
    ensures Setup(matrix, position, idx).Ok? ==> LoopReport(Setup(matrix, position, idx).value, r)
    ensures r.Ok? ==> Setup(matrix, position, idx).Ok? && (r.value.1 <==> NeverLeaves(Setup(matrix, position, idx).value))
  {
    if !InGrid(matrix, idx) {
      return Panic(IndexOutOfBounds);
    }
    var grid := SetCell(matrix, idx, Obstacle);
    if !InGrid(grid, position) {
      return Panic(IndexOutOfBounds);
    }
    var dir := StartDir(grid[position.0][position.1]);
    grid := SetCell(grid, position, Path(true));
    MarkedIff(grid, position);
    r := LoopFrom(grid, position, dir);
  }

  /** The `match` that ends a round of both walks: turn at an obstacle, step
      onto a floor cell (marking and counting it when it was unmarked), panic
      at a guard cell. */
  method Round(p: Patrol, np: Pos, obj: Cell) returns (r: Outcome<Option<Patrol>, Fault>)
    requires Ahead(p) == Some(np) && obj == p.grid[np.0][np.1]
    ensures r == Advance(p)
  {
    match obj {
      case Obstacle =>
        var d := TurnRight(p.dir);
        if d.None? {
          return Panic(UnknownDirection);
        }
        r := Ok(Some(p.(dir := d.value)));
      case Path(b) =>
        var grid, count := p.grid, p.count;
        if !b {
          count := count + 1;
          grid := SetCell(grid, np, Path(true));
        }
        r := Ok(Some(Patrol(grid, np, p.dir, count)));
      case Guard(_, _) =>
        r := Panic(NotObstacleOrPath);
    }
  }

  /** A round keeps the direction or turns it into a compass direction. */
  lemma AdvanceDir(p: Patrol)
    requires Walking(Advance(p))
    ensures var d := Advance(p).value.value.dir; d == p.dir || IsCompass(d)
  {
  }

  /** The `while let` loop of `check_if_loop`, from the guard's start state
      with count 1. */
  method LoopFrom(start: Grid, position: Pos, startDir: Dir) returns (r: Outcome<(nat, bool), Fault>)
    requires position in Marked(start)
    ensures LoopReport(Patrol(start, position, startDir, 1), r)
  {
    var p := Patrol(start, position, startDir, 1);
    var visited: set<(Pos, Dir)> := {};
    ghost var p0 := p;
    ghost var universe := Universe(start, startDir);
    ghost var t: nat := 0;
    while true
      invariant Walked(p0, t, p, visited)
      decreases |universe - visited|
    {
      var pass := Pass(p, visited);
      if pass.Leave? {
        break;
      }
      if pass.Repeat? {
        ReportRepeat(p0, t);
        return Ok((p.count, true));
      }
      FollowNext(p0, t);
      if pass.round.Panic? {
        ReportPanic(p0, t + 1);
        return Panic(pass.round.reason);
      }
      WalkedStep(p0, t, p, visited);
      visited := visited + {(p.pos, p.dir)};
      p := pass.round.value.value;
      t := t + 1;
    }
    FollowNext(p0, t);
    ReportEnd(p0, t);
    r := Ok((p.count, false));
  }

  /** What one pass of `check_if_loop`'s loop body does. */
  datatype Turn = Leave | Repeat | Went(round: Outcome<Option<Patrol>, Fault>)

  /** One pass of the loop body: leave when the next cell is off the grid,
      report a repeat when the current (position, direction) was recorded,
      otherwise take the round. */
  method Pass(p: Patrol, visited: set<(Pos, Dir)>) returns (r: Turn)
    ensures r.Leave? <==> Ahead(p).None?
    ensures r.Repeat? <==> Ahead(p).Some? && Key(p) in visited
    ensures r.Went? ==> r.round == Advance(p)
  {
    var next := AddTuple(p.pos, p.dir);
    if next.None? {
      return Leave;
    }
    var np := next.value;
    var obj := Get(p.grid, np);
    if obj.None? {
      return Leave;
    }
    if (p.pos, p.dir) in visited {
      return Repeat;
    }
    var o := Round(p, np, obj.value);
    r := Went(o);
  }

  /** The state of `check_if_loop`'s loop after t rounds from p0: p is the
      state those rounds reach and visited holds the keys seen before. */
  ghost predicate Walked(p0: Patrol, t: nat, p: Patrol, visited: set<(Pos, Dir)>)
  {
    p0.pos in Marked(p0.grid) &&
    Follow(p0, t) == Ok(Some(p)) &&
    visited == SeenKeys(p0.grid, Key(p0), t) &&
    visited <= Universe(p0.grid, p0.dir) &&
    Heading(p.dir, p0.dir)
  }

  /** A round from an unseen key keeps the loop's state and shrinks the keys
      not yet seen. */
  lemma WalkedStep(p0: Patrol, t: nat, p: Patrol, visited: set<(Pos, Dir)>)
    requires Walked(p0, t, p, visited) && Key(p) !in visited && Walking(Advance(p))
    ensures Walked(p0, t + 1, Advance(p).value.value, visited + {Key(p)})
    ensures |Universe(p0.grid, p0.dir) - (visited + {Key(p)})| < |Universe(p0.grid, p0.dir) - visited|
  {
    OnTrack(p0, t);
    InUniverse(p0.grid, p0.dir, Key(p));
    Shrinks(Universe(p0.grid, p0.dir), visited, Key(p));
    SeenStep(p0.grid, Key(p0), t, Key(p));
    FollowNext(p0, t);
    AdvanceDir(p);
  }

  /** The state a walk from p0 reaches is on p0's grid, with the key the
      walk on p0's layout reaches. */
  lemma OnTrack(p0: Patrol, t: nat)
    requires p0.pos in Marked(p0.grid)
    requires Walking(Follow(p0, t))
    ensures var p := Follow(p0, t).value.value;
      InGrid(p0.grid, p.pos) && Trace(p0.grid, Key(p0), t) == Ok(Some(Key(p)))
  {
    var p := Follow(p0, t).value.value;
    TallyStart(p0);
    MarkedIff(p.grid, p.pos);
    FollowMarks(p0, t);
    FollowProject(p0, t);
    LayoutAt(p.grid, p0.grid, p.pos);
  }

  lemma ReportRepeat(p0: Patrol, t: nat)
    requires p0.pos in Marked(p0.grid)
    requires Walking(Follow(p0, t)) && Key(Follow(p0, t).value.value) in SeenKeys(p0.grid, Key(p0), t)
    ensures LoopReport(p0, Ok((Follow(p0, t).value.value.count, true)))
  {
    RepeatFound(p0, t);
  }

  lemma ReportEnd(p0: Patrol, t: nat)
    requires p0.pos in Marked(p0.grid)
    requires Walking(Follow(p0, t)) && Follow(p0, t + 1) == Ok(None)
    ensures LoopReport(p0, Ok((Follow(p0, t).value.value.count, false)))
  {
    FollowProject(p0, t + 1);
    assert EndsAt(p0, t, Follow(p0, t).value.value.count);
  }

  lemma ReportPanic(p0: Patrol, t: nat)
    requires p0.pos in Marked(p0.grid)
    requires Follow(p0, t).Panic?
    ensures LoopReport(p0, Panic(Follow(p0, t).reason))
  {
    FollowProject(p0, t);
  }

  lemma SeenStep(g: Grid, k: (Pos, Dir), t: nat, key: (Pos, Dir))
    requires Trace(g, k, t) == Ok(Some(key))
    ensures SeenKeys(g, k, t + 1) == SeenKeys(g, k, t) + {key}
  {
  }

  lemma FollowNext(p: Patrol, t: nat)
    requires Walking(Follow(p, t))
    ensures Follow(p, t + 1) == Advance(Follow(p, t).value.value)
  {
  }

  /** The state at round t has a key seen before: a loop. */
  lemma RepeatFound(p0: Patrol, t: nat)
    requires p0.pos in Marked(p0.grid)
    requires Walking(Follow(p0, t)) && Key(Follow(p0, t).value.value) in SeenKeys(p0.grid, Key(p0), t)
    ensures NeverLeaves(p0) && RepeatsAt(p0, t, Follow(p0, t).value.value.count)
  {
    var key := Key(Follow(p0, t).value.value);
    SeenKeysHas(p0.grid, Key(p0), t, key);
    var i: nat :| i < t && Trace(p0.grid, Key(p0), i) == Ok(Some(key));
    FollowProject(p0, t);
    Periodic(p0, i, t);
  }

  lemma Shrinks<T>(universe: set<T>, visited: set<T>, x: T)
    requires visited <= universe && x in universe && x !in visited
    ensures visited + {x} <= universe
    ensures |universe - (visited + {x})| < |universe - visited|
  {
    assert universe - (visited + {x}) == (universe - visited) - {x};
  }

  // ---------------------------------------------------------------------------
  // part_one

  /** What the walk of `part_one` reports about the walk from p0, given
      `fuel` rounds: running out of fuel means the guard is still on the grid
      after that many rounds, with the next cell on it too. */
  ghost predicate WalkReport(p0: Patrol, fuel: nat, r: Outcome<nat, Fault>)
  {
    (r.Ok? ==> exists t: nat :: EndsAt(p0, t, r.value)) &&
    (r == Panic(Loop) ==> NeverLeaves(p0) && exists t: nat :: ReturnsAt(p0, t)) &&
    (r == Panic(OutOfFuel) ==> Walking(Follow(p0, fuel)) && Follow(p0, fuel + 1) != Ok(None)) &&
    (r.Panic? && r.reason != Loop && r.reason != OutOfFuel ==> exists t: nat :: Follow(p0, t) == Panic(r.reason))
  }

  /** A guard about to leave after t rounds was walking at every round up
      to t and has left at every later one. */
  lemma EndsAfter(p0: Patrol, t: nat, c: nat, n: nat)
    requires EndsAt(p0, t, c)
    ensures n <= t ==> Walking(Follow(p0, n))
    ensures n > t ==> Follow(p0, n) == Ok(None)
  {
    if n <= t {
      if !Walking(Follow(p0, n)) {
        FollowStuck(p0, n, t - n);
        assert false;
      }
    } else {
      FollowStuck(p0, t + 1, n - t - 1);
    }
  }

  lemma NeverLeavesAt(p0: Patrol, n: nat)
    requires p0.pos in Marked(p0.grid) && NeverLeaves(p0)
    ensures Walking(Follow(p0, n))
  {
    NeverLeavesWalking(p0);
  }

  /** A guard that leaves the grid after t rounds, t within the fuel, is
      reported with the count it has then: no other outcome meets the
      report. */
  lemma WalkLeaves(g: Grid, position: Pos, fuel: nat, r: Outcome<nat, Fault>, t: nat, c: nat)
    requires Start(g, position).Ok? && WalkReport(Start(g, position).value, fuel, r)
    requires EndsAt(Start(g, position).value, t, c) && t <= fuel
    ensures r == Ok(c)
  {
    var p0 := Start(g, position).value;
    MarkedIff(p0.grid, p0.pos);
    LeavesReported(p0, fuel, r, t, c);
  }

  lemma LeavesReported(p0: Patrol, fuel: nat, r: Outcome<nat, Fault>, t: nat, c: nat)
    requires p0.pos in Marked(p0.grid)
    requires WalkReport(p0, fuel, r)
    requires EndsAt(p0, t, c) && t <= fuel
    ensures r == Ok(c)
  {
    if r.Ok? {
      var t': nat :| EndsAt(p0, t', r.value);
      EndsOnce(p0, t, c, t', r.value);
    } else if r == Panic(Loop) {
      NeverLeavesAt(p0, t + 1);
      assert false;
    } else if r == Panic(OutOfFuel) {
      EndsAfter(p0, t, c, fuel + 1);
      EndsAfter(p0, t, c, fuel);
    } else {
      var t': nat :| Follow(p0, t') == Panic(r.reason);
      EndsAfter(p0, t, c, t');
    }
  }

  /** The guard leaves the grid only once. */
  lemma EndsOnce(p0: Patrol, t: nat, c: nat, t': nat, c': nat)
    requires EndsAt(p0, t, c) && EndsAt(p0, t', c')
    ensures t == t' && c == c'
  {
    EndsAfter(p0, t, c, t' + 1);
    EndsAfter(p0, t', c', t + 1);
  }

  /** The walk of `part_one`: the guard walks until the next cell is off the
      grid, or panics with "Loop" when back at the start state with a count
      other than 1. A walk that never leaves and never meets that test runs
      forever; `fuel` bounds the rounds of the model. */
  method Walk(matrix: Grid, position: Pos, fuel: nat) returns (r: Outcome<nat, Fault>)
    ensures Start(matrix, position).Panic? ==> r == Panic(Start(matrix, position).reason)
    ensures Start(matrix, position).Ok? ==> WalkReport(Start(matrix, position).value, fuel, r)
  {
    if !InGrid(matrix, position) {
      return Panic(IndexOutOfBounds);
    }
    var startDir := StartDir(matrix[position.0][position.1]);
    var p := Patrol(SetCell(matrix, position, Path(true)), position, startDir, 1);
    ghost var p0 := p;
    MarkedIff(p0.grid, p0.pos);
    ghost var t: nat := 0;
    var left := fuel;
    while true
      invariant Follow(p0, t) == Ok(Some(p))
      invariant t + left == fuel
      decreases left
    {
      var next := AddTuple(p.pos, p.dir);
      if next.None? {
        break;
      }
      var np := next.value;
      var obj := Get(p.grid, np);
      if obj.None? {
        break;
      }
      if p.pos == position && p.dir == startDir && p.count != 1 {
        assert t != 0;
        assert ReturnsAt(p0, t);
        FollowProject(p0, t);
        Periodic(p0, 0, t);
        return Panic(Loop);
      }
      if left == 0 {
        FollowNext(p0, t);
        return Panic(OutOfFuel);
      }
      left := left - 1;
      var o := Round(p, np, obj.value);
      FollowNext(p0, t);
      if o.Panic? {
        return Panic(o.reason);
      }
      p := o.value.value;
      t := t + 1;
    }
    assert Follow(p0, t + 1) == Ok(None);
    assert EndsAt(p0, t, p.count);
    r := Ok(p.count);
  }

  /** `part_one`: parse, then walk from the guard's position. */
  method PartOne(input: string, fuel: nat) returns (r: Outcome<nat, Fault>)
    ensures ParseIntoMatrix(input).Panic? ==> r == Panic(ParseIntoMatrix(input).reason)
    ensures ParseIntoMatrix(input).Ok? ==>
      var (position, g) := ParseIntoMatrix(input).value;
      (Start(g, position).Panic? ==> r == Panic(IndexOutOfBounds)) &&
      (Start(g, position).Ok? ==> WalkReport(Start(g, position).value, fuel, r))
  {
    var parsed := ParseIntoMatrix(input);
    if parsed.Panic? {
      return Panic(parsed.reason);
    }
    r := Walk(parsed.value.1, parsed.value.0, fuel);
  }

  // ---------------------------------------------------------------------------
  // part_two

  /** An obstruction at (r, c), a cell that is `Path(false)` in the parsed
      grid, makes the guard walk forever. */
  ghost predicate MakesLoop(g: Grid, position: Pos, r: nat, c: nat)
    requires InGrid(g, (r, c))
  {
    g[r][c] == Path(false) && Setup(g, position, (r, c)).Ok? && NeverLeaves(Setup(g, position, (r, c)).value)
  }

  /** The walk with an obstruction at (r, c) panics somewhere. */
  ghost predicate CheckFails(g: Grid, position: Pos, r: nat, c: nat)
  {
    var s := Setup(g, position, (r, c));
    s.Panic? || exists t: nat :: Follow(s.value, t).Panic?
  }

  /** The loop-making cells among the first n of row r. */
  ghost function LoopsInRow(g: Grid, position: Pos, r: nat, n: nat): nat
    requires r < |g| && n <= |g[r]|
  {
    if n == 0 then 0
    else LoopsInRow(g, position, r, n - 1) + (if MakesLoop(g, position, r, n - 1) then 1 else 0)
  }

  /** The loop-making cells among the first n rows. */
  ghost function LoopsInRows(g: Grid, position: Pos, n: nat): nat
    requires n <= |g|
  {
    if n == 0 then 0
    else LoopsInRows(g, position, n - 1) + LoopsInRow(g, position, n - 1, |g[n - 1]|)
  }

  /** A loop check that panicked shows a walk that panics. */
  lemma CheckPanics(g: Grid, position: Pos, row: nat, col: nat, res: Outcome<(nat, bool), Fault>)
    requires Setup(g, position, (row, col)).Panic? ==> res.Panic?
    requires Setup(g, position, (row, col)).Ok? ==> LoopReport(Setup(g, position, (row, col)).value, res)
    requires res.Panic?
    ensures CheckFails(g, position, row, col)
  {
  }

  /** A loop check that answered adds one to the row's tally exactly when
      the obstruction makes a loop. */
  lemma CheckCounts(g: Grid, position: Pos, row: nat, col: nat, res: Outcome<(nat, bool), Fault>)
    requires row < |g| && col < |g[row]| && g[row][col] == Path(false)
    requires res.Ok? ==> Setup(g, position, (row, col)).Ok? && (res.value.1 <==> NeverLeaves(Setup(g, position, (row, col)).value))
    requires res.Ok?
    ensures LoopsInRow(g, position, row, col + 1) == LoopsInRow(g, position, row, col) + (if res.value.1 then 1 else 0)
  {
  }

  /** `part_two`: for every cell that is `Path(false)` in the parsed grid, the
      loop check with an obstruction there; the answer is the number that loop.
      A panicking check makes the whole answer panic. */
  method PartTwo(input: string) returns (r: Outcome<nat, Fault>)
    ensures ParseIntoMatrix(input).Panic? ==> r == Panic(ParseIntoMatrix(input).reason)
    ensures ParseIntoMatrix(input).Ok? ==>
      var (position, g) := ParseIntoMatrix(input).value;
      (r.Ok? ==> r.value == LoopsInRows(g, position, |g|)) &&
      (r.Panic? ==> exists row: nat, col: nat :: InGrid(g, (row, col)) && g[row][col] == Path(false) &&
                      CheckFails(g, position, row, col))
  {
    var parsed := ParseIntoMatrix(input);
    if parsed.Panic? {
      return Panic(parsed.reason);
    }
    r := CountLoops(parsed.value.1, parsed.value.0);
  }

  /** The sum over the rows of the loop-making cells. */
  method CountLoops(g: Grid, position: Pos) returns (r: Outcome<nat, Fault>)
    ensures r.Ok? ==> r.value == LoopsInRows(g, position, |g|)
    ensures r.Panic? ==> exists row: nat, col: nat :: InGrid(g, (row, col)) && g[row][col] == Path(false) &&
                           CheckFails(g, position, row, col)
  {
    var count := 0;
    for row := 0 to |g|
      invariant count == LoopsInRows(g, position, row)
    {
      for col := 0 to |g[row]|
        invariant count == LoopsInRows(g, position, row) + LoopsInRow(g, position, row, col)
      {
        if g[row][col] == Path(false) {
          var res := CheckIfLoop(g, position, (row, col));
          if res.Panic? {
            CheckPanics(g, position, row, col, res);
            return Panic(res.reason);
          }
          CheckCounts(g, position, row, col, res);
          if res.value.1 {
            count := count + 1;
          }
        }
      }
    }
    r := Ok(count);
  }
}
