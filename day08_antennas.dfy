/** Day 8, "Resonant Collinearity": antennas are the non-'.' characters of a
    map, grouped by their character (the frequency). Two antennas of the same
    frequency create antinodes: in part one the two points twice as far from
    one antenna as from the other, in part two every grid point on their line
    at a whole multiple of their distance. The answers count the distinct
    antinodes inside the map. */
module ResonantCollinearity {
  import opened Text

  /** A (row, column) position; antinodes may fall outside the map. */
  type Cell = (int, int)

  /** What `parse_input` returns: the map's size (line count, longest line)
      and the cells of each frequency. */
  datatype Layout = Layout(height: nat, width: nat, antennas: map<char, set<Cell>>)

  // ---------------------------------------------------------------------------
  // parse_input

  /** The length of the longest line (`size.1`), 0 for no lines. */
  function MaxLen(lines: seq<string>): (m: nat)
    ensures forall r :: 0 <= r < |lines| ==> |lines[r]| <= m
    ensures lines == [] ==> m == 0
    ensures lines != [] ==> exists r :: 0 <= r < |lines| && |lines[r]| == m
  {
    if lines == [] then 0
    else
      var init := MaxLen(lines[..|lines| - 1]);
      assert forall r :: 0 <= r < |lines| - 1 ==> lines[..|lines| - 1][r] == lines[r];
      if init < |lines[|lines| - 1]| then |lines[|lines| - 1]| else init
  }

  /** The character at cell is the antenna frequency freq. */
  predicate IsAntenna(lines: seq<string>, freq: char, cell: Cell)
  {
    freq != '.' && 0 <= cell.0 < |lines| && 0 <= cell.1 < |lines[cell.0]| && lines[cell.0][cell.1] == freq
  }

  /** cell comes before (row, col) in reading order. */
  predicate Earlier(cell: Cell, row: int, col: int)
  {
    cell.0 < row || (cell.0 == row && cell.1 < col)
  }

  /** The antennas recorded after reading every cell before (row, col): one
      non-empty entry per frequency seen, holding exactly its cells. */
  ghost predicate Recorded(lines: seq<string>, antennas: map<char, set<Cell>>, row: int, col: int)
  {
    (forall freq :: freq in antennas ==> antennas[freq] != {}) &&
    (forall freq, cell :: (freq in antennas && cell in antennas[freq]) <==> (IsAntenna(lines, freq, cell) && Earlier(cell, row, col)))
  }

  /** layout is what the map's lines describe. */
  ghost predicate Describes(layout: Layout, lines: seq<string>)
  {
    layout.height == |lines| && layout.width == MaxLen(lines) &&
    (forall freq :: freq in layout.antennas ==> layout.antennas[freq] != {}) &&
    (forall freq, cell :: (freq in layout.antennas && cell in layout.antennas[freq]) <==> IsAntenna(lines, freq, cell))
  }

  /** `parse_input`: the line count, the longest line, and for each
      character other than '.' the set of cells holding it. */
  method ParseInput(input: string) returns (layout: Layout)
    ensures Describes(layout, Lines(input))
  {
    var lines := Lines(input);
    var width := 0;
    var antennas: map<char, set<Cell>> := map[];
    for row := 0 to |lines|
      invariant width == MaxLen(lines[..row])
      invariant Recorded(lines, antennas, row, 0)
    {
      var line := lines[row];
      assert lines[..row + 1][..row] == lines[..row];
      width := if width < |line| then |line| else width;
      antennas := RecordLine(lines, row, antennas);
    }
    assert lines[..|lines|] == lines;
    layout := Layout(|lines|, width, antennas);
  }

  /** The inner loop of `parse_input` over one line's characters: each
      antenna's cell joins the set of its frequency, created if absent. */
  method RecordLine(lines: seq<string>, row: nat, antennas: map<char, set<Cell>>) returns (antennas': map<char, set<Cell>>)
    requires row < |lines| && Recorded(lines, antennas, row, 0)
    ensures Recorded(lines, antennas', row + 1, 0)
  {
    var line := lines[row];
    antennas' := antennas;
    for col := 0 to |line|
      invariant Recorded(lines, antennas', row, col)
    {
      var c := line[col];
      ghost var before := antennas';
      if c != '.' {
        if c in antennas' {
          antennas' := antennas'[c := antennas'[c] + {(row, col)}];
        } else {
          antennas' := antennas'[c := {(row, col)}];
        }
      }
      RecordCell(lines, row, col, before, antennas');
    }
    NextRow(lines, row, antennas');
  }

  /** Reading cell (row, col) adds it under its frequency, or nothing for
      a '.'. */
  lemma RecordCell(lines: seq<string>, row: nat, col: nat, before: map<char, set<Cell>>, after: map<char, set<Cell>>)
    requires row < |lines| && col < |lines[row]| && Recorded(lines, before, row, col)
    requires lines[row][col] == '.' ==> after == before
    requires lines[row][col] != '.' && lines[row][col] in before ==> after == before[lines[row][col] := before[lines[row][col]] + {(row, col)}]
    requires lines[row][col] != '.' && lines[row][col] !in before ==> after == before[lines[row][col] := {(row, col)}]
    ensures Recorded(lines, after, row, col + 1)
  {
    forall freq, cell
      ensures (freq in after && cell in after[freq]) <==> (IsAntenna(lines, freq, cell) && Earlier(cell, row, col + 1))
    {
      if cell == (row, col) {
        assert IsAntenna(lines, freq, cell) <==> freq == lines[row][col] && freq != '.';
      } else {
        assert Earlier(cell, row, col + 1) <==> Earlier(cell, row, col);
      }
    }
  }

  /** The cells past the end of a line hold no antenna. */
  lemma NextRow(lines: seq<string>, row: nat, antennas: map<char, set<Cell>>)
    requires row < |lines| && Recorded(lines, antennas, row, |lines[row]|)
    ensures Recorded(lines, antennas, row + 1, 0)
  {
    forall freq, cell
      ensures (freq in antennas && cell in antennas[freq]) <==> (IsAntenna(lines, freq, cell) && Earlier(cell, row + 1, 0))
    {
      if IsAntenna(lines, freq, cell) {
        assert Earlier(cell, row + 1, 0) <==> Earlier(cell, row, |lines[row]|);
      }
    }
  }

  // ---------------------------------------------------------------------------
  // What the two parts count

  /** The range test on both coordinates; a negative coordinate cast to
      `usize` becomes a huge value and fails it too. */
  predicate InBox(h: nat, w: nat, p: Cell)
  {
    0 <= p.0 < h && 0 <= p.1 < w
  }

  /** Two distinct cells that hold the same frequency. */
  predicate Partners(lines: seq<string>, a: Cell, b: Cell)
  {
    a != b && 0 <= a.0 < |lines| && 0 <= a.1 < |lines[a.0]| && IsAntenna(lines, lines[a.0][a.1], b)
  }

  /** The point reached from start after n steps of step. */
  function Ahead(start: Cell, step: Cell, n: nat): Cell
  {
    (start.0 + n * step.0, start.1 + n * step.1)
  }

  function Sub(a: Cell, b: Cell): Cell
  {
    (a.0 - b.0, a.1 - b.1)
  }

  /** Part one's antinode: past antenna a, as far from a as a is from b. */
  ghost predicate IsAntinode(lines: seq<string>, p: Cell)
  {
    exists a, b :: Partners(lines, a, b) && p == Ahead(a, Sub(a, b), 1)
  }

  /** Part two's antinode: on the line through a and b, a whole number of
      their distances from a, on the far side from b (or a itself). */
  ghost predicate IsHarmonic(lines: seq<string>, p: Cell)
  {
    exists a, b, n: nat :: Partners(lines, a, b) && p == Ahead(a, Sub(a, b), n)
  }

  ghost function AntinodeSet(lines: seq<string>): set<Cell>
  {
    set r, c | 0 <= r < |lines| && 0 <= c < MaxLen(lines) && IsAntinode(lines, (r, c)) :: (r, c)
  }

  ghost function HarmonicSet(lines: seq<string>): set<Cell>
  {
    set r, c | 0 <= r < |lines| && 0 <= c < MaxLen(lines) && IsHarmonic(lines, (r, c)) :: (r, c)
  }

  lemma InAntinodeSet(lines: seq<string>, p: Cell)
    requires InBox(|lines|, MaxLen(lines), p) && IsAntinode(lines, p)
    ensures p in AntinodeSet(lines)
  {
    var r, c := p.0, p.1;
    assert p == (r, c);
  }

  lemma InHarmonicSet(lines: seq<string>, p: Cell)
    requires InBox(|lines|, MaxLen(lines), p) && IsHarmonic(lines, p)
    ensures p in HarmonicSet(lines)
  {
    var r, c := p.0, p.1;
    assert p == (r, c);
  }

  /** Every part-one antinode is a part-two antinode, so part two counts at
      least as many. */
  lemma AntinodesAreHarmonics(lines: seq<string>)
    ensures AntinodeSet(lines) <= HarmonicSet(lines)
    ensures |AntinodeSet(lines)| <= |HarmonicSet(lines)|
  {
    forall p | p in AntinodeSet(lines)
      ensures p in HarmonicSet(lines)
    {
      var a, b :| Partners(lines, a, b) && p == Ahead(a, Sub(a, b), 1);
      assert IsHarmonic(lines, p);
    }
    SubsetCard(AntinodeSet(lines), HarmonicSet(lines));
  }

  lemma SubsetCard<T>(a: set<T>, b: set<T>)
    requires a <= b
    ensures |a| <= |b|
  {
    assert b == a + (b - a);
  }

  /** In part two every antenna that shares its frequency is an antinode. */
  lemma AntennasAreHarmonics(lines: seq<string>, a: Cell, b: Cell)
    requires Partners(lines, a, b)
    ensures a in HarmonicSet(lines)
  {
    assert a == Ahead(a, Sub(a, b), 0);
    assert IsHarmonic(lines, a);
  }

  // ---------------------------------------------------------------------------
  // part_one

  /** Orders cells as the `BTreeSet` of (row, column) pairs iterates them. */
  predicate Before(a: Cell, b: Cell)
  {
    a.0 < b.0 || (a.0 == b.0 && a.1 < b.1)
  }

  /** The two candidates of a pair, kept when inside the map. */
  predicate Candidate(h: nat, w: nat, prev: Cell, curr: Cell, p: Cell)
  {
    InBox(h, w, p) && (p == Ahead(curr, Sub(curr, prev), 1) || p == Ahead(prev, Sub(prev, curr), 1))
  }

  /** The positions of one pair in `part_one`: with diff = 2·(prev − curr),
      prev − diff and curr + diff, each inserted when inside the map. */
  method AddAntinodes(h: nat, w: nat, prev: Cell, curr: Cell, unique: set<Cell>) returns (unique': set<Cell>)
    ensures forall p :: p in unique' <==> p in unique || Candidate(h, w, prev, curr, p)
  {
    var diff := (2 * (prev.0 - curr.0), 2 * (prev.1 - curr.1));
    var positions := [(prev.0 - diff.0, prev.1 - diff.1), (curr.0 + diff.0, curr.1 + diff.1)];
    unique' := unique;
    for t := 0 to 2
      invariant forall p :: p in unique' <==> p in unique || (InBox(h, w, p) && p in positions[..t])
    {
      var p := positions[t];
      if InBox(h, w, p) {
        unique' := unique' + {p};
      }
    }
    assert positions[..2] == positions;
  }

  /** Some pair of s gives p. */
  ghost predicate FromPairs(h: nat, w: nat, s: set<Cell>, p: Cell)
  {
    exists prev, curr :: prev in s && curr in s && Before(prev, curr) && Candidate(h, w, prev, curr, p)
  }

  /** The loop over `tuple_combinations` of one frequency's cells: every
      pair prev < curr once; the visiting order does not change the set. */
  method PairAntinodes(h: nat, w: nat, s: set<Cell>, unique: set<Cell>) returns (unique': set<Cell>)
    ensures forall p :: p in unique' <==> p in unique || FromPairs(h, w, s, p)
  {
    var pairs := set prev, curr | prev in s && curr in s && Before(prev, curr) :: (prev, curr);
    var todo := pairs;
    unique' := unique;
    while todo != {}
      invariant todo <= pairs
      invariant forall p :: p in unique' <==>
        p in unique || exists q :: q in pairs - todo && Candidate(h, w, q.0, q.1, p)
      decreases |todo|
    {
      var q :| q in todo;
      unique' := AddAntinodes(h, w, q.0, q.1, unique');
      todo := todo - {q};
    }
    forall p | FromPairs(h, w, s, p)
      ensures exists q :: q in pairs && Candidate(h, w, q.0, q.1, p)
    {
      var prev, curr :| prev in s && curr in s && Before(prev, curr) && Candidate(h, w, prev, curr, p);
      assert (prev, curr) in pairs;
    }
  }

  /** Some pair of one of the frequencies in freqs gives p. */
  ghost predicate FromFrequencies(layout: Layout, freqs: set<char>, p: Cell)
  {
    exists freq :: freq in freqs && freq in layout.antennas && FromPairs(layout.height, layout.width, layout.antennas[freq], p)
  }

  /** The loop of `part_one` over the frequencies, in any order. */
  method Antinodes(layout: Layout) returns (unique: set<Cell>)
    ensures forall p :: p in unique <==> FromFrequencies(layout, layout.antennas.Keys, p)
  {
    var todo := layout.antennas.Keys;
    unique := {};
    while todo != {}
      invariant todo <= layout.antennas.Keys
      invariant forall p :: p in unique <==> FromFrequencies(layout, layout.antennas.Keys - todo, p)
      decreases |todo|
    {
      var freq :| freq in todo;
      unique := PairAntinodes(layout.height, layout.width, layout.antennas[freq], unique);
      todo := todo - {freq};
    }
  }

  /** What the loops gather is exactly the antinodes of the map. */
  lemma AntinodesMeaning(layout: Layout, lines: seq<string>, p: Cell)
    requires Describes(layout, lines)
    ensures FromFrequencies(layout, layout.antennas.Keys, p) <==> p in AntinodeSet(lines)
  {
    if FromFrequencies(layout, layout.antennas.Keys, p) {
      AntinodesSound(layout, lines, p);
    }
    if p in AntinodeSet(lines) {
      AntinodesComplete(layout, lines, p);
    }
  }

  /** Every point the loops gather is an antinode. */
  lemma AntinodesSound(layout: Layout, lines: seq<string>, p: Cell)
    requires Describes(layout, lines)
    requires FromFrequencies(layout, layout.antennas.Keys, p)
    ensures p in AntinodeSet(lines)
  {
    var h, w := layout.height, layout.width;
    var freq :| freq in layout.antennas && FromPairs(h, w, layout.antennas[freq], p);
    var prev, curr :| prev in layout.antennas[freq] && curr in layout.antennas[freq] && Before(prev, curr)
      && Candidate(h, w, prev, curr, p);
    assert IsAntenna(lines, freq, prev) && IsAntenna(lines, freq, curr);
    if p == Ahead(curr, Sub(curr, prev), 1) {
      assert Partners(lines, curr, prev);
    } else {
      assert Partners(lines, prev, curr);
    }
    assert IsAntinode(lines, p) && InBox(|lines|, MaxLen(lines), p);
    InAntinodeSet(lines, p);
  }

  /** Every antinode is gathered: the pair is visited in one of its two orders. */
  lemma AntinodesComplete(layout: Layout, lines: seq<string>, p: Cell)
    requires Describes(layout, lines)
    requires p in AntinodeSet(lines)
    ensures FromFrequencies(layout, layout.antennas.Keys, p)
  {
    var h, w := layout.height, layout.width;
    var a, b :| Partners(lines, a, b) && p == Ahead(a, Sub(a, b), 1);
    var freq := lines[a.0][a.1];
    assert IsAntenna(lines, freq, a) && IsAntenna(lines, freq, b);
    var s := layout.antennas[freq];
    if Before(a, b) {
      assert Candidate(h, w, a, b, p);
      assert FromPairs(h, w, s, p);
    } else {
      assert Candidate(h, w, b, a, p);
      assert FromPairs(h, w, s, p);
    }
  }

  /** `part_one`: the number of distinct antinodes inside the map. */
  method PartOne(input: string) returns (count: nat)
    ensures count == |AntinodeSet(Lines(input))|
  {
    var layout := ParseInput(input);
    var unique := Antinodes(layout);
    forall p
      ensures p in unique <==> p in AntinodeSet(Lines(input))
    {
      AntinodesMeaning(layout, Lines(input), p);
    }
    assert unique == AntinodeSet(Lines(input));
    count := |unique|;
  }

  // ---------------------------------------------------------------------------
  // part_two

  /** Once a ray from a point inside the map has left it, it stays out. */
  lemma RayLeaves(h: nat, w: nat, start: Cell, step: Cell, k: nat, m: nat)
    requires InBox(h, w, start) && !InBox(h, w, Ahead(start, step, k)) && k <= m
    ensures !InBox(h, w, Ahead(start, step, m))
  {
    MulMonotone(k, m, step.0);
    MulMonotone(k, m, step.1);
  }

  /** k·d and m·d lie on the same side of 0·d, m·d farther when k <= m. */
  lemma MulMonotone(k: nat, m: nat, d: int)
    requires k <= m
    ensures d >= 0 ==> k * d <= m * d
    ensures d <= 0 ==> m * d <= k * d
  {
    assert m * d == k * d + (m - k) * d;
    if d > 0 {
      assert (m - k) * d >= 0;
    } else if d < 0 {
      assert (m - k) * d <= 0;
    }
  }

  /** A point that steps along the ray from start, while inside the map. */
  function Distance(h: nat, w: nat, p: Cell, step: Cell): nat
  {
    if step.0 > 0 then (if p.0 < h then h - p.0 else 0)
    else if step.0 < 0 then (if p.0 >= 0 then p.0 + 1 else 0)
    else if step.1 > 0 then (if p.1 < w then w - p.1 else 0)
    else if p.1 >= 0 then p.1 + 1 else 0
  }

  /** Points of the ray from start that are inside the map. */
  ghost predicate OnRay(h: nat, w: nat, start: Cell, step: Cell, p: Cell)
  {
    InBox(h, w, p) && exists n: nat :: p == Ahead(start, step, n)
  }

  /** One `while` loop of `part_two`: insert p and step while p is inside
      the map. If start is inside, that is every point of the ray inside. */
  method Walk(h: nat, w: nat, start: Cell, step: Cell, unique: set<Cell>) returns (unique': set<Cell>)
    requires step != (0, 0)
    ensures forall p :: p in unique' <==> p in unique || (InBox(h, w, start) && OnRay(h, w, start, step, p))
  {
    unique' := unique;
    var p := start;
    ghost var k: nat := 0;
    while InBox(h, w, p)
      invariant p == Ahead(start, step, k)
      invariant k > 0 ==> InBox(h, w, start)
      invariant forall n: nat :: n < k ==> InBox(h, w, Ahead(start, step, n))
      invariant forall q :: q in unique' <==> q in unique || exists n: nat :: n < k && q == Ahead(start, step, n)
      decreases Distance(h, w, p, step)
    {
      unique' := unique' + {p};
      AheadNext(start, step, k);
      p := (p.0 + step.0, p.1 + step.1);
      k := k + 1;
    }
    forall q | InBox(h, w, start) && OnRay(h, w, start, step, q)
      ensures exists n: nat :: n < k && q == Ahead(start, step, n)
    {
      RayBefore(h, w, start, step, k, q);
    }
  }

  lemma AheadNext(start: Cell, step: Cell, k: nat)
    ensures Ahead(start, step, k + 1) == (Ahead(start, step, k).0 + step.0, Ahead(start, step, k).1 + step.1)
  {
    assert (k + 1) * step.0 == k * step.0 + step.0;
    assert (k + 1) * step.1 == k * step.1 + step.1;
  }

  /** The ray points inside the map all come before the first one outside. */
  lemma RayBefore(h: nat, w: nat, start: Cell, step: Cell, k: nat, q: Cell)
    requires InBox(h, w, start) && !InBox(h, w, Ahead(start, step, k)) && OnRay(h, w, start, step, q)
    ensures exists n: nat :: n < k && q == Ahead(start, step, n)
  {
    var n: nat :| q == Ahead(start, step, n);
    if n >= k {
      RayLeaves(h, w, start, step, k, n);
    }
  }

  /** The rays of one pair: from prev away from curr and from curr away
      from prev. */
  ghost predicate Resonant(h: nat, w: nat, prev: Cell, curr: Cell, p: Cell)
  {
    OnRay(h, w, prev, Sub(prev, curr), p) || OnRay(h, w, curr, Sub(curr, prev), p)
  }

  /** The body of `part_two`'s pair loop: diff = prev − curr; walk from
      curr + diff by +diff, then from prev − diff by −diff. */
  method AddHarmonics(h: nat, w: nat, prev: Cell, curr: Cell, unique: set<Cell>) returns (unique': set<Cell>)
    requires prev != curr && InBox(h, w, prev) && InBox(h, w, curr)
    ensures forall p :: p in unique' <==> p in unique || Resonant(h, w, prev, curr, p)
  {
    var diff := (prev.0 - curr.0, prev.1 - curr.1);
    unique' := Walk(h, w, (curr.0 + diff.0, curr.1 + diff.1), diff, unique);
    unique' := Walk(h, w, (prev.0 - diff.0, prev.1 - diff.1), (-diff.0, -diff.1), unique');
  }

  ghost predicate FromPairRays(h: nat, w: nat, s: set<Cell>, p: Cell)
  {
    exists prev, curr :: prev in s && curr in s && Before(prev, curr) && Resonant(h, w, prev, curr, p)
  }

  /** The pair loop of `part_two` over one frequency's cells. */
  method PairHarmonics(h: nat, w: nat, s: set<Cell>, unique: set<Cell>) returns (unique': set<Cell>)
    requires forall cell :: cell in s ==> InBox(h, w, cell)
    ensures forall p :: p in unique' <==> p in unique || FromPairRays(h, w, s, p)
  {
    var pairs := set prev, curr | prev in s && curr in s && Before(prev, curr) :: (prev, curr);
    var todo := pairs;
    unique' := unique;
    while todo != {}
      invariant todo <= pairs
      invariant forall p :: p in unique' <==>
        p in unique || exists q :: q in pairs - todo && Resonant(h, w, q.0, q.1, p)
      decreases |todo|
    {
      var q :| q in todo;
      unique' := AddHarmonics(h, w, q.0, q.1, unique');
      todo := todo - {q};
    }
    forall p | FromPairRays(h, w, s, p)
      ensures exists q :: q in pairs && Resonant(h, w, q.0, q.1, p)
    {
      var prev, curr :| prev in s && curr in s && Before(prev, curr) && Resonant(h, w, prev, curr, p);
      assert (prev, curr) in pairs;
    }
  }

  ghost predicate FromFrequencyRays(layout: Layout, freqs: set<char>, p: Cell)
  {
    exists freq :: freq in freqs && freq in layout.antennas && FromPairRays(layout.height, layout.width, layout.antennas[freq], p)
  }

  /** Every antenna lies inside the map. */
  ghost predicate Inside(layout: Layout)
  {
    forall freq, cell :: freq in layout.antennas && cell in layout.antennas[freq] ==> InBox(layout.height, layout.width, cell)
  }

  /** The loop of `part_two` over the frequencies. */
  method Harmonics(layout: Layout) returns (unique: set<Cell>)
    requires Inside(layout)
    ensures forall p :: p in unique <==> FromFrequencyRays(layout, layout.antennas.Keys, p)
  {
    var todo := layout.antennas.Keys;
    unique := {};
    while todo != {}
      invariant todo <= layout.antennas.Keys
      invariant forall p :: p in unique <==> FromFrequencyRays(layout, layout.antennas.Keys - todo, p)
      decreases |todo|
    {
      var freq :| freq in todo;
      unique := PairHarmonics(layout.height, layout.width, layout.antennas[freq], unique);
      todo := todo - {freq};
    }
  }

  /** The antennas of the lines lie inside the map they describe. */
  lemma DescribedInside(layout: Layout, lines: seq<string>)
    requires Describes(layout, lines)
    ensures Inside(layout)
  {
    forall freq, cell | freq in layout.antennas && cell in layout.antennas[freq]
      ensures InBox(layout.height, layout.width, cell)
    {
      assert IsAntenna(lines, freq, cell);
    }
  }

  /** What the loops of `part_two` gather is exactly the part-two antinodes
      of the map. */
  lemma HarmonicsMeaning(layout: Layout, lines: seq<string>, p: Cell)
    requires Describes(layout, lines)
    ensures FromFrequencyRays(layout, layout.antennas.Keys, p) <==> p in HarmonicSet(lines)
  {
    if FromFrequencyRays(layout, layout.antennas.Keys, p) {
      HarmonicsSound(layout, lines, p);
    }
    if p in HarmonicSet(lines) {
      HarmonicsComplete(layout, lines, p);
    }
  }

  /** Every point the walks gather is a part-two antinode. */
  lemma HarmonicsSound(layout: Layout, lines: seq<string>, p: Cell)
    requires Describes(layout, lines)
    requires FromFrequencyRays(layout, layout.antennas.Keys, p)
    ensures p in HarmonicSet(lines)
  {
    var h, w := layout.height, layout.width;
    var freq :| freq in layout.antennas && FromPairRays(h, w, layout.antennas[freq], p);
    var prev, curr :| prev in layout.antennas[freq] && curr in layout.antennas[freq] && Before(prev, curr)
      && Resonant(h, w, prev, curr, p);
    assert IsAntenna(lines, freq, prev) && IsAntenna(lines, freq, curr);
    if OnRay(h, w, prev, Sub(prev, curr), p) {
      var n: nat :| p == Ahead(prev, Sub(prev, curr), n);
      assert Partners(lines, prev, curr);
      assert IsHarmonic(lines, p);
    } else {
      var n: nat :| p == Ahead(curr, Sub(curr, prev), n);
      assert Partners(lines, curr, prev);
      assert IsHarmonic(lines, p);
    }
    assert InBox(|lines|, MaxLen(lines), p);
    InHarmonicSet(lines, p);
  }

  /** Every part-two antinode is gathered. */
  lemma HarmonicsComplete(layout: Layout, lines: seq<string>, p: Cell)
    requires Describes(layout, lines)
    requires p in HarmonicSet(lines)
    ensures FromFrequencyRays(layout, layout.antennas.Keys, p)
  {
    var h, w := layout.height, layout.width;
    var a, b, n: nat :| Partners(lines, a, b) && p == Ahead(a, Sub(a, b), n);
    var freq := lines[a.0][a.1];
    assert IsAntenna(lines, freq, a) && IsAntenna(lines, freq, b);
    var s := layout.antennas[freq];
    assert OnRay(h, w, a, Sub(a, b), p);
    if Before(a, b) {
      assert Resonant(h, w, a, b, p);
      assert FromPairRays(h, w, s, p);
    } else {
      assert Resonant(h, w, b, a, p);
      assert FromPairRays(h, w, s, p);
    }
  }

  /** `part_two`: the number of distinct part-two antinodes inside the map. */
  method PartTwo(input: string) returns (count: nat)
    ensures count == |HarmonicSet(Lines(input))|
  {
    var layout := ParseInput(input);
    DescribedInside(layout, Lines(input));
    var unique := Harmonics(layout);
    forall p
      ensures p in unique <==> p in HarmonicSet(Lines(input))
    {
      HarmonicsMeaning(layout, Lines(input), p);
    }
    assert unique == HarmonicSet(Lines(input));
    count := |unique|;
  }
}
