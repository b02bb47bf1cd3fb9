/** Day 4, "Ceres Search": a word search over a grid of letters, one row per
    input line. Part one counts every reading of XMAS in any of the eight
    compass directions; part two counts every A that is the centre of two
    crossing diagonals, each reading MAS one way or the other. */
module CeresSearch {
  import opened Common
  import opened Text

  /** The letter matrix: rows need not all have the same length. */
  type Grid = seq<seq<char>>

  /** The one panic: `len() - 1` on a `usize` that is 0 (part two). */
  datatype Fault = Underflow

  // ---------------------------------------------------------------------------
  // Lookups

  /** `Vec::get`. */
  function Get<T>(s: seq<T>, i: nat): Option<T>
  {
    if i < |s| then Some(s[i]) else None
  }

  /** `max`: a negative index becomes `usize::MAX`, so that `get` misses. */
  function Max(i: int): nat
  {
    if i < 0 then USIZE_MAX else i
  }

  /** `matrix.get(r)?.get(c)`: the outer None is the `?` returning early from
      `part_one` or `part_two`. */
  function Probe(m: Grid, r: nat, c: nat): Option<Option<char>>
  {
    if r < |m| then Some(Get(m[r], c)) else None
  }

  /** The cell at (r, c) of the grid, for any integer coordinates. */
  function Cell(m: Grid, r: int, c: int): Option<char>
  {
    if 0 <= r < |m| && 0 <= c < |m[r]| then Some(m[r][c]) else None
  }

  /** Every row is shorter than 2^31, so that `col as i32` in the diagonal
      lookups is the column itself. */
  predicate Fits(m: Grid)
  {
    forall r :: 0 <= r < |m| ==> |m[r]| < 0x8000_0000
  }

  /** Through `max`, `get` behaves as a lookup at a signed index. */
  lemma MaxLookup(row: seq<char>, i: int)
    requires |row| < USIZE_MAX
    ensures Get(row, Max(i)) == (if 0 <= i < |row| then Some(row[i]) else None)
  {
  }

  lemma {:induction false} ProbeCell(m: Grid, r: int, c: int)
    requires Fits(m) && 0 <= r < |m|
    ensures Probe(m, r, Max(c)) == Some(Cell(m, r, c))
  {
    MaxLookup(m[r], c);
  }

  /** One row per line of the input, each the line's characters in order
      (the `push` loop at the start of both parts). */
  method Matrix(input: string) returns (m: Grid)
    ensures |m| == |Lines(input)|
    ensures forall r :: 0 <= r < |m| ==> m[r] == Lines(input)[r]
  {
    var lines := Lines(input);
    m := [];
    for k := 0 to |lines|
      invariant m == lines[..k]
    {
      m := m + [lines[k]];
    }
  }

  // ---------------------------------------------------------------------------
  // Part one

  const XMAS: (Option<char>, Option<char>, Option<char>, Option<char>) := (Some('X'), Some('M'), Some('A'), Some('S'))

  function Ind(b: bool): nat
  {
    if b then 1 else 0
  }

  /** XMAS reads from (r, c) one step (dr, dc) at a time, every letter inside
      the grid. */
  predicate Spells(m: Grid, r: int, c: int, dr: int, dc: int)
  {
    && Cell(m, r, c) == Some('X')
    && Cell(m, r + dr, c + dc) == Some('M')
    && Cell(m, r + 2 * dr, c + 2 * dc) == Some('A')
    && Cell(m, r + 3 * dr, c + 3 * dc) == Some('S')
  }

  /** The number of compass directions in which XMAS reads from (r, c). */
  function XmasAt(m: Grid, r: int, c: int): nat
  {
    Ind(Spells(m, r, c, 0, 1)) + Ind(Spells(m, r, c, 0, -1))
    + Ind(Spells(m, r, c, 1, 0)) + Ind(Spells(m, r, c, -1, 0))
    + Ind(Spells(m, r, c, -1, -1)) + Ind(Spells(m, r, c, 1, -1))
    + Ind(Spells(m, r, c, -1, 1)) + Ind(Spells(m, r, c, 1, 1))
  }

  /** The four letters a vertical or diagonal check compares with XMAS: the
      first from the current row, the others through `Probe`, or None when
      a `?` returns early. */
  function Reach(m: Grid, first: Option<char>, r1: nat, c1: nat, r2: nat, c2: nat, r3: nat, c3: nat)
    : Option<(Option<char>, Option<char>, Option<char>, Option<char>)>
  {
    match (Probe(m, r1, c1), Probe(m, r2, c2), Probe(m, r3, c3))
    case (Some(a), Some(b), Some(c)) => Some((first, a, b, c))
    case _ => None
  }

  /** The row k steps up (dr = -1) or down (dr = 1) from rows. */
  function Row(rows: nat, dr: int, k: nat): nat
    requires dr == 1 || rows >= k
  {
    if dr == 1 then rows + k else rows - k
  }

  /** The column k steps from col as the source writes it: col itself,
      `col + k`, or `max(col as i32 - k)` to the left. */
  function Col(col: nat, dc: int, k: nat): nat
  {
    if dc == 0 then col else if dc == 1 then col + k else Max(col - k)
  }

  /** One of the six checks of `part_one` that leave the row (dr up or
      down, dc left, straight or right): the row guard (`rows > 2` or
      `rows + 3 < len`) and then the four letters compared with XMAS. The
      guard keeps every `?` from returning early, and with the lookups of
      `max` the check is exactly a reading of XMAS in that direction. */
  function Toward(m: Grid, rows: nat, col: nat, dr: int, dc: int): (r: Option<bool>)
    requires rows < |m| && col < |m[rows]|
    requires (dr == 1 || dr == -1) && (dc == -1 || dc == 0 || dc == 1)
    ensures r.Some?
    ensures Fits(m) ==> r == Some(Spells(m, rows, col, dr, dc))
  {
    if !(if dr == 1 then rows + 3 < |m| else rows > 2) then Some(false)
    else
      var t := Reach(m, Get(m[rows], col), Row(rows, dr, 1), Col(col, dc, 1), Row(rows, dr, 2), Col(col, dc, 2), Row(rows, dr, 3), Col(col, dc, 3));
      assert t.Some?;
      if Fits(m) then (
        TowardCells(m, rows, col, dr, dc);
        Some(t.value == XMAS)
      )
      else Some(t.value == XMAS)
  }

  /** The three lookups of a check that leaves the row are the cells one,
      two and three steps along its direction. */
  lemma TowardCells(m: Grid, rows: nat, col: nat, dr: int, dc: int)
    requires Fits(m) && (dr == 1 || dr == -1) && (dc == -1 || dc == 0 || dc == 1)
    requires rows < |m| && 0 <= rows + 3 * dr < |m|
    ensures Probe(m, Row(rows, dr, 1), Col(col, dc, 1)) == Some(Cell(m, rows + dr, col + dc))
    ensures Probe(m, Row(rows, dr, 2), Col(col, dc, 2)) == Some(Cell(m, rows + 2 * dr, col + 2 * dc))
    ensures Probe(m, Row(rows, dr, 3), Col(col, dc, 3)) == Some(Cell(m, rows + 3 * dr, col + 3 * dc))
  {
    if dr == 1 {
      assert rows + 3 < |m|;
      ProbeCell(m, rows + 1, col + dc);
      ProbeCell(m, rows + 2, col + 2 * dc);
      ProbeCell(m, rows + 3, col + 3 * dc);
    } else {
      assert rows >= 3;
      ProbeCell(m, rows - 1, col + dc);
      ProbeCell(m, rows - 2, col + 2 * dc);
      ProbeCell(m, rows - 3, col + 3 * dc);
    }
  }

  /** The eight checks of one cell of `part_one`, in the source's order, each
      adding one for a reading of XMAS. */
  method CountAt(m: Grid, rows: nat, col: nat) returns (count: nat)
    requires rows < |m| && col < |m[rows]|
    ensures Fits(m) ==> count == XmasAt(m, rows, col)
  {
    var row := m[rows];
    count := 0;
    // forwards
    if (Get(row, col), Get(row, col + 1), Get(row, col + 2), Get(row, col + 3)) == XMAS {
      count := count + 1;
    }
    assert count == Ind(Spells(m, rows, col, 0, 1));
    // backwards
    if col > 2 && (Get(row, col), Get(row, col - 1), Get(row, col - 2), Get(row, col - 3)) == XMAS {
      count := count + 1;
    }
    assert count == Ind(Spells(m, rows, col, 0, 1)) + Ind(Spells(m, rows, col, 0, -1));
    // downwards, upwards, then the diagonals left top, left bottom, right
    // top and right bottom
    var down := Toward(m, rows, col, 1, 0);
    if down.value {
      count := count + 1;
    }
    var up := Toward(m, rows, col, -1, 0);
    if up.value {
      count := count + 1;
    }
    var leftTop := Toward(m, rows, col, -1, -1);
    if leftTop.value {
      count := count + 1;
    }
    var leftBottom := Toward(m, rows, col, 1, -1);
    if leftBottom.value {
      count := count + 1;
    }
    var rightTop := Toward(m, rows, col, -1, 1);
    if rightTop.value {
      count := count + 1;
    }
    var rightBottom := Toward(m, rows, col, 1, 1);
    if rightBottom.value {
      count := count + 1;
    }
  }

  /** The readings of XMAS from the first n cells of row r. */
  function RowXmas(m: Grid, r: nat, n: nat): nat
    requires r < |m| && n <= |m[r]|
  {
    if n == 0 then 0 else RowXmas(m, r, n - 1) + XmasAt(m, r, n - 1)
  }

  /** The readings of XMAS from every cell of the first k rows. */
  function GridXmas(m: Grid, k: nat): nat
    requires k <= |m|
  {
    if k == 0 then 0 else GridXmas(m, k - 1) + RowXmas(m, k - 1, |m[k - 1]|)
  }

  /** The number of cells in the first k rows. */
  function Cells(m: Grid, k: nat): nat
    requires k <= |m|
  {
    if k == 0 then 0 else Cells(m, k - 1) + |m[k - 1]|
  }

  /** Each cell starts at most eight readings, one per direction. */
  lemma XmasAtMost(m: Grid, r: int, c: int)
    ensures XmasAt(m, r, c) <= 8
    ensures Cell(m, r, c) != Some('X') ==> XmasAt(m, r, c) == 0
  {
  }

  lemma {:induction false} RowXmasBound(m: Grid, r: nat, n: nat)
    requires r < |m| && n <= |m[r]|
    ensures RowXmas(m, r, n) <= 8 * n
  {
    if n > 0 {
      RowXmasBound(m, r, n - 1);
      XmasAtMost(m, r, n - 1);
    }
  }

  /** The whole count is at most eight per cell of the grid. */
  lemma {:induction false} GridXmasBound(m: Grid, k: nat)
    requires k <= |m|
    ensures GridXmas(m, k) <= 8 * Cells(m, k)
  {
    if k > 0 {
      GridXmasBound(m, k - 1);
      RowXmasBound(m, k - 1, |m[k - 1]|);
    }
  }

  /** `part_one`: every cell of every row checked in eight directions; the
      answer is always Some, the number of readings of XMAS in the grid. */
  method PartOne(input: string) returns (r: Option<nat>)
    ensures r.Some?
    ensures Fits(Lines(input)) ==> r == Some(GridXmas(Lines(input), |Lines(input)|))
  {
    var m := Matrix(input);
    assert m == Lines(input);
    var count := 0;
    for rows := 0 to |m|
      invariant Fits(m) ==> count == GridXmas(m, rows)
    {
      var row := m[rows];
      var cols := |row|;
      for col := 0 to cols
        invariant Fits(m) ==> count == GridXmas(m, rows) + RowXmas(m, rows, col)
      {
        var c := CountAt(m, rows, col);
        count := count + c;
      }
    }
    return Some(count);
  }

  // ---------------------------------------------------------------------------
  // Part two

  /** Two ends of a diagonal read M and S, in either order. */
  predicate Crossed(a: Option<char>, b: Option<char>)
  {
    (a == Some('M') && b == Some('S')) || (a == Some('S') && b == Some('M'))
  }

  /** (r, c) is an A whose two diagonals both read MAS, forwards or
      backwards. */
  predicate CentreAt(m: Grid, r: int, c: int)
  {
    && Cell(m, r, c) == Some('A')
    && Crossed(Cell(m, r - 1, c - 1), Cell(m, r + 1, c + 1))
    && Crossed(Cell(m, r + 1, c - 1), Cell(m, r - 1, c + 1))
  }

  /** One interior cell of `part_two`: 1 for an X-MAS centre, else 0. The
      rows above and below exist, so no `?` returns early. */
  method CrossAt(m: Grid, rows: nat, col: nat) returns (r: nat)
    requires 1 <= rows < |m| - 1 && 1 <= col < |m[rows]|
    ensures r == Ind(CentreAt(m, rows, col))
  {
    var row := m[rows];
    r := 0;
    if Get(row, col) == Some('A') {
      var above, below := Probe(m, Max(rows - 1), Max(col - 1)), Probe(m, rows + 1, col + 1);
      assert above.Some? && below.Some?;
      if Crossed(above.value, below.value) {
        var left, right := Probe(m, rows + 1, Max(col - 1)), Probe(m, Max(rows - 1), col + 1);
        assert left.Some? && right.Some?;
        if Crossed(left.value, right.value) {
          r := 1;
        }
      }
    }
  }

  /** The X-MAS centres among the first n cells of row r. */
  function RowCentres(m: Grid, r: nat, n: nat): nat
    requires r < |m| && n <= |m[r]|
  {
    if n == 0 then 0 else RowCentres(m, r, n - 1) + Ind(CentreAt(m, r, n - 1))
  }

  /** The centres of row r that `part_two` visits: all but the last cell. */
  function Clipped(m: Grid, r: nat): nat
    requires r < |m|
  {
    if |m[r]| == 0 then 0 else RowCentres(m, r, |m[r]| - 1)
  }

  /** The centres `part_two` counts in the first k rows. */
  function ClippedCentres(m: Grid, k: nat): nat
    requires k <= |m|
  {
    if k == 0 then 0 else ClippedCentres(m, k - 1) + Clipped(m, k - 1)
  }

  /** The X-MAS centres among all cells of the first k rows. */
  function AllCentres(m: Grid, k: nat): nat
    requires k <= |m|
  {
    if k == 0 then 0 else AllCentres(m, k - 1) + RowCentres(m, k - 1, |m[k - 1]|)
  }

  /** A centre needs a row above, a row below and a column to the left. */
  lemma NoCentreOnBorder(m: Grid, r: int, c: int)
    ensures (r <= 0 || r >= |m| - 1 || c <= 0) ==> !CentreAt(m, r, c)
  {
  }

  lemma {:induction false} EdgeRowEmpty(m: Grid, r: nat, n: nat)
    requires r < |m| && n <= |m[r]| && (r == 0 || r == |m| - 1)
    ensures RowCentres(m, r, n) == 0
  {
    if n > 0 {
      EdgeRowEmpty(m, r, n - 1);
      NoCentreOnBorder(m, r, n - 1);
    }
  }

  /** All rows of the same length. */
  predicate Rectangular(m: Grid)
  {
    forall r :: 0 <= r < |m| ==> |m[r]| == |m[0]|
  }

  /** On a rectangular grid the last cell of a row is never a centre, so
      skipping it loses nothing: `part_two` counts every centre. */
  lemma {:induction false} ClippedAll(m: Grid, k: nat)
    requires Rectangular(m) && k <= |m|
    ensures ClippedCentres(m, k) == AllCentres(m, k)
  {
    if k > 0 {
      ClippedAll(m, k - 1);
      var r := k - 1;
      if |m[r]| > 0 {
        var c := |m[r]| - 1;
        assert Cell(m, r - 1, c + 1) == None;
        assert !CentreAt(m, r, c);
      }
    }
  }

  /** The rows and columns of the loops of `part_two`, guarded as Rust
      guards them: `len() - 1` needs a row, and `cols - 1` a cell in
      every row it meets. */
  predicate Underflows(m: Grid)
  {
    |m| == 0 || exists r :: 1 <= r < |m| - 1 && |m[r]| == 0
  }

  /** The inner loop of `part_two` over the columns of one row, first and
      last left out. */
  method CountRow(m: Grid, rows: nat) returns (count: nat)
    requires 1 <= rows < |m| - 1 && |m[rows]| > 0
    ensures count == Clipped(m, rows)
  {
    var cols := |m[rows]|;
    NoCentreOnBorder(m, rows, 0);
    count := 0;
    var col := 1;
    while col < cols - 1
      invariant 1 <= col <= cols - 1 || col == cols == 1
      invariant count == RowCentres(m, rows, col)
    {
      var c := CrossAt(m, rows, col);
      count := count + c;
      col := col + 1;
    }
  }

  /** The loops of `part_two` over the matrix. */
  method CountCentres(m: Grid) returns (r: Outcome<nat, Fault>)
    ensures r.Panic? <==> Underflows(m)
    ensures r.Ok? ==> r.value == ClippedCentres(m, |m|)
  {
    if |m| == 0 {
      return Panic(Underflow);
    }
    var count := 0;
    EdgeRowEmpty(m, 0, if |m[0]| == 0 then 0 else |m[0]| - 1);
    var rows := 1;
    while rows < |m| - 1
      invariant 1 <= rows <= |m|
      invariant rows <= |m| - 1 || |m| == 1
      invariant forall k :: 1 <= k < rows ==> |m[k]| > 0
      invariant count == ClippedCentres(m, rows)
    {
      if |m[rows]| == 0 {
        return Panic(Underflow);
      }
      var c := CountRow(m, rows);
      count := count + c;
      rows := rows + 1;
    }
    if rows == |m| - 1 {
      var last := |m| - 1;
      EdgeRowEmpty(m, last, if |m[last]| == 0 then 0 else |m[last]| - 1);
    }
    return Ok(count);
  }

  /** `part_two`: the interior cells of each row checked for an X-MAS
      centre. It panics exactly when one of the `- 1`s underflows, and
      otherwise answers Some. */
  method PartTwo(input: string) returns (r: Outcome<Option<nat>, Fault>)
    ensures r.Panic? <==> Underflows(Lines(input))
    ensures r.Ok? ==> r.value == Some(ClippedCentres(Lines(input), |Lines(input)|))
  {
    var m := Matrix(input);
    assert m == Lines(input);
    var c := CountCentres(m);
    if c.Panic? {
      return Panic(c.reason);
    }
    return Ok(Some(c.value));
  }
}
