/** Day 1, "Historian Hysteria": two columns of location ids. Part one pairs
    the smallest with the smallest, the second smallest with the second
    smallest and so on, and adds up the distances; part two adds up each
    left id times the number of times it occurs in the right column. */
module HistorianHysteria {
  import opened Common
  import opened Text

  /** Why the program panics: a token that is not a `u32` (`unwrap`), or two
      columns of different lengths (`panic!` in `part_one`). */
  datatype Fault = BadNumber(token: string) | LengthMismatch

  datatype Columns = Columns(left: seq<nat>, right: seq<nat>)

  // ---------------------------------------------------------------------------
  // parse_inputs

  /** What one line adds: its first token to the left column, its second to
      the right one; further tokens are ignored and a missing one adds
      nothing. */
  function ParseLine(line: string): Outcome<Columns, Fault>
  {
    var tokens := SplitWhitespace(line);
    if |tokens| == 0 then Ok(Columns([], []))
    else
      match ParseUnsigned(tokens[0], U32_MAX)
      case None => Panic(BadNumber(tokens[0]))
      case Some(a) =>
        if |tokens| == 1 then Ok(Columns([a], []))
        else
          match ParseUnsigned(tokens[1], U32_MAX)
          case None => Panic(BadNumber(tokens[1]))
          case Some(b) => Ok(Columns([a], [b]))
  }

  /** The two columns of all lines, each read by parse, or the first
      line's fault. */
  function Gather(lines: seq<string>, parse: string -> Outcome<Columns, Fault>): Outcome<Columns, Fault>
  {
    if lines == [] then Ok(Columns([], []))
    else
      match Gather(lines[..|lines| - 1], parse)
      case Panic(f) => Panic(f)
      case Ok(c) =>
        match parse(lines[|lines| - 1])
        case Panic(f) => Panic(f)
        case Ok(d) => Ok(Columns(c.left + d.left, c.right + d.right))
  }

  /** The two columns of the input's lines. */
  function ParseColumns(lines: seq<string>): Outcome<Columns, Fault>
  {
    Gather(lines, ParseLine)
  }

  /** The input parses exactly when every line does. */
  lemma {:induction false} GatherOk(lines: seq<string>, parse: string -> Outcome<Columns, Fault>)
    ensures Gather(lines, parse).Ok? <==> forall k :: 0 <= k < |lines| ==> parse(lines[k]).Ok?
  {
    if lines != [] {
      var init := lines[..|lines| - 1];
      assert forall k :: 0 <= k < |init| ==> init[k] == lines[k];
      GatherOk(init, parse);
    }
  }

  /** Lines that each give one number to each column give the columns of
      those numbers, in line order. */
  lemma {:induction false} GatherPairs(lines: seq<string>, parse: string -> Outcome<Columns, Fault>, firsts: seq<nat>, seconds: seq<nat>)
    requires |firsts| == |lines| && |seconds| == |lines|
    requires forall k :: 0 <= k < |lines| ==> parse(lines[k]) == Ok(Columns([firsts[k]], [seconds[k]]))
    ensures Gather(lines, parse) == Ok(Columns(firsts, seconds))
  {
    if lines != [] {
      var n := |lines| - 1;
      var init := lines[..n];
      var f, g := firsts[..n], seconds[..n];
      forall k | 0 <= k < n
        ensures parse(init[k]) == Ok(Columns([f[k]], [g[k]]))
      {
        assert init[k] == lines[k] && f[k] == firsts[k] && g[k] == seconds[k];
      }
      GatherPairs(init, parse, f, g);
      assert parse(lines[n]) == Ok(Columns([firsts[n]], [seconds[n]]));
      assert firsts == f + [firsts[n]] && seconds == g + [seconds[n]];
    }
  }

  /** The line holds exactly two whitespace-separated `u32`s. */
  predicate TwoNumbers(line: string)
  {
    var tokens := SplitWhitespace(line);
    |tokens| == 2 && ParseUnsigned(tokens[0], U32_MAX).Some? && ParseUnsigned(tokens[1], U32_MAX).Some?
  }

  /** The first and the second number of such a line. */
  function First(line: string): nat
    requires TwoNumbers(line)
  {
    ParseUnsigned(SplitWhitespace(line)[0], U32_MAX).value
  }

  function Second(line: string): nat
    requires TwoNumbers(line)
  {
    ParseUnsigned(SplitWhitespace(line)[1], U32_MAX).value
  }

  lemma TwoNumbersLine(line: string)
    requires TwoNumbers(line)
    ensures ParseLine(line) == Ok(Columns([First(line)], [Second(line)]))
  {
  }

  /** A well-formed input, two numbers on every line, gives two columns as
      long as the input, holding line k's first number and second number at
      index k. */
  lemma ParseTwoColumns(lines: seq<string>)
    requires forall k :: 0 <= k < |lines| ==> TwoNumbers(lines[k])
    ensures ParseColumns(lines).Ok?
    ensures |ParseColumns(lines).value.left| == |lines| && |ParseColumns(lines).value.right| == |lines|
    ensures forall k :: 0 <= k < |lines| ==>
      ParseColumns(lines).value.left[k] == First(lines[k]) && ParseColumns(lines).value.right[k] == Second(lines[k])
  {
    var firsts := seq(|lines|, k requires 0 <= k < |lines| => First(lines[k]));
    var seconds := seq(|lines|, k requires 0 <= k < |lines| => Second(lines[k]));
    forall k | 0 <= k < |lines|
      ensures ParseLine(lines[k]) == Ok(Columns([firsts[k]], [seconds[k]]))
    {
      TwoNumbersLine(lines[k]);
    }
    GatherPairs(lines, ParseLine, firsts, seconds);
  }

  /** A line that fails makes the input fail with that line's fault, when
      the lines before it parse. */
  lemma {:induction false} GatherPanic(lines: seq<string>, l: nat, parse: string -> Outcome<Columns, Fault>)
    requires l < |lines| && Gather(lines[..l], parse).Ok? && parse(lines[l]).Panic?
    ensures Gather(lines, parse) == Panic(parse(lines[l]).reason)
    decreases |lines|
  {
    if l < |lines| - 1 {
      var init := lines[..|lines| - 1];
      assert init[..l] == lines[..l];
      GatherPanic(init, l, parse);
    } else {
      assert lines[..|lines| - 1] == lines[..l];
    }
  }

  /** One more line that parses appends its numbers to the columns. */
  lemma GatherStep(lines: seq<string>, l: nat, parse: string -> Outcome<Columns, Fault>)
    requires l < |lines| && Gather(lines[..l], parse).Ok? && parse(lines[l]).Ok?
    ensures var c, d := Gather(lines[..l], parse).value, parse(lines[l]).value;
      Gather(lines[..l + 1], parse) == Ok(Columns(c.left + d.left, c.right + d.right))
  {
    assert lines[..l + 1][..l] == lines[..l];
  }

  /** `parse_inputs`: per line, the first and the second whitespace-separated
      token, each parsed with `unwrap` and pushed if present. */
  method ParseInputs(input: string) returns (r: Outcome<Columns, Fault>)
    ensures r == ParseColumns(Lines(input))
  {
    var lines := Lines(input);
    var left: seq<nat> := [];
    var right: seq<nat> := [];
    for l := 0 to |lines|
      invariant Gather(lines[..l], ParseLine) == Ok(Columns(left, right))
    {
      var line := ReadLine(lines[l]);
      if line.Panic? {
        GatherPanic(lines, l, ParseLine);
        return Panic(line.reason);
      }
      GatherStep(lines, l, ParseLine);
      left, right := left + line.value.left, right + line.value.right;
    }
    assert lines[..|lines|] == lines;
    return Ok(Columns(left, right));
  }

  /** The body of `parse_inputs`' loop: the first two tokens of one line. */
  method ReadLine(line: string) returns (r: Outcome<Columns, Fault>)
    ensures r == ParseLine(line)
  {
    var tokens := SplitWhitespace(line);
    var lineLeft: seq<nat>, lineRight: seq<nat> := [], [];
    if |tokens| > 0 {
      var num := ParseUnsigned(tokens[0], U32_MAX);
      if num.None? {
        return Panic(BadNumber(tokens[0]));
      }
      lineLeft := [num.value];
    }
    if |tokens| > 1 {
      var num := ParseUnsigned(tokens[1], U32_MAX);
      if num.None? {
        return Panic(BadNumber(tokens[1]));
      }
      lineRight := [num.value];
    }
    r := Ok(Columns(lineLeft, lineRight));
  }

  // ---------------------------------------------------------------------------
  // Sorting (`Vec::sort`)

  predicate Sorted(s: seq<nat>)
  {
    forall i, j :: 0 <= i < j < |s| ==> s[i] <= s[j]
  }

  /** x put into its place in a sorted sequence. */
  function Insert(x: nat, s: seq<nat>): (r: seq<nat>)
    requires Sorted(s)
    ensures Sorted(r) && multiset(r) == multiset(s) + multiset{x} && |r| == |s| + 1
  {
    if s == [] then [x]
    else if x <= s[0] then [x] + s
    else
      SortedTail(s);
      var rest := Insert(x, s[1..]);
      assert s == [s[0]] + s[1..];
      InsertBound(s[0], x, s[1..], rest);
      SortedCons(s[0], rest);
      [s[0]] + rest
  }

  lemma SortedCons(low: nat, s: seq<nat>)
    requires Sorted(s) && forall k :: 0 <= k < |s| ==> low <= s[k]
    ensures Sorted([low] + s)
  {
  }

  lemma InsertBound(low: nat, x: nat, s: seq<nat>, r: seq<nat>)
    requires low <= x && (forall k :: 0 <= k < |s| ==> low <= s[k]) && multiset(r) == multiset(s) + multiset{x}
    ensures forall k :: 0 <= k < |r| ==> low <= r[k]
  {
    forall k | 0 <= k < |r|
      ensures low <= r[k]
    {
      assert r[k] in multiset(r);
      if r[k] != x {
        assert r[k] in s;
      }
    }
  }

  /** The standard library's sort, by its contract: ascending, and the same
      elements. */
  function Sort(s: seq<nat>): (r: seq<nat>)
    ensures Sorted(r) && multiset(r) == multiset(s) && |r| == |s|
  {
    if s == [] then []
    else
      assert s == s[..|s| - 1] + [s[|s| - 1]];
      Insert(s[|s| - 1], Sort(s[..|s| - 1]))
  }

  /** There is only one sorted arrangement of a multiset. */
  lemma {:induction false} SortedUnique(a: seq<nat>, b: seq<nat>)
    requires Sorted(a) && Sorted(b) && multiset(a) == multiset(b)
    ensures a == b
    decreases |a|
  {
    assert |a| == |multiset(a)| == |b|;
    if a != [] {
      SameHead(a, b);
      SameTail(a, b);
      SortedTail(a);
      SortedTail(b);
      SortedUnique(a[1..], b[1..]);
    }
  }

  lemma SameHead(a: seq<nat>, b: seq<nat>)
    requires Sorted(a) && Sorted(b) && multiset(a) == multiset(b) && a != [] && b != []
    ensures a[0] == b[0]
  {
    assert a[0] in multiset(b) && b[0] in multiset(a);
    var i :| 0 <= i < |b| && b[i] == a[0];
    var j :| 0 <= j < |a| && a[j] == b[0];
  }

  lemma SameTail(a: seq<nat>, b: seq<nat>)
    requires multiset(a) == multiset(b) && a != [] && b != [] && a[0] == b[0]
    ensures multiset(a[1..]) == multiset(b[1..])
  {
    assert a == [a[0]] + a[1..] && b == [b[0]] + b[1..];
    assert multiset(a[1..]) == multiset(a) - multiset{a[0]};
    assert multiset(b[1..]) == multiset(b) - multiset{b[0]};
  }

  lemma SortedTail(a: seq<nat>)
    requires Sorted(a) && a != []
    ensures Sorted(a[1..])
  {
    assert forall i :: 0 <= i < |a| - 1 ==> a[1..][i] == a[i + 1];
  }

  // ---------------------------------------------------------------------------
  // part_one

  /** The larger minus the smaller: the subtraction `part_one` does. */
  function Gap(a: nat, b: nat): (d: nat)
    ensures d == Abs(a - b)
  {
    if a > b then a - b else b - a
  }

  /** The distances of the pairs at equal indices, added up. */
  function Distance(left: seq<nat>, right: seq<nat>): nat
    requires |left| == |right|
  {
    if left == [] then 0
    else Distance(left[..|left| - 1], right[..|right| - 1]) + Gap(left[|left| - 1], right[|right| - 1])
  }

  /** What `part_one` computes from the two columns. */
  function TotalDistance(c: Columns): Outcome<nat, Fault>
  {
    if |c.left| != |c.right| then Panic(LengthMismatch)
    else Ok(Distance(Sort(c.left), Sort(c.right)))
  }

  /** Part one does not depend on the order of either column. */
  lemma TotalDistanceOrderFree(c: Columns, d: Columns)
    requires multiset(c.left) == multiset(d.left) && multiset(c.right) == multiset(d.right)
    ensures TotalDistance(c) == TotalDistance(d)
  {
    SortedUnique(Sort(c.left), Sort(d.left));
    SortedUnique(Sort(c.right), Sort(d.right));
    assert |c.left| == |multiset(c.left)| == |d.left|;
    assert |c.right| == |multiset(c.right)| == |d.right|;
  }

  /** `part_one`: sort both columns, then add up the distances pair by pair. */
  method PartOne(input: string) returns (r: Outcome<nat, Fault>)
    ensures ParseColumns(Lines(input)).Panic? ==> r == Panic(ParseColumns(Lines(input)).reason)
    ensures ParseColumns(Lines(input)).Ok? ==> r == TotalDistance(ParseColumns(Lines(input)).value)
  {
    var columns := ParseInputs(input);
    if columns.Panic? {
      return Panic(columns.reason);
    }
    var left := Sort(columns.value.left);
    var right := Sort(columns.value.right);
    if |left| != |right| {
      return Panic(LengthMismatch);
    }
    var sum := SumDistances(left, right);
    return Ok(sum);
  }

  /** The loop of `part_one` over the sorted columns. */
  method SumDistances(left: seq<nat>, right: seq<nat>) returns (sum: nat)
    requires |left| == |right|
    ensures sum == Distance(left, right)
  {
    sum := 0;
    for i := 0 to |left|
      invariant sum == Distance(left[..i], right[..i])
    {
      assert left[..i + 1][..i] == left[..i] && right[..i + 1][..i] == right[..i];
      if left[i] > right[i] {
        sum := sum + (left[i] - right[i]);
      } else {
        sum := sum + (right[i] - left[i]);
      }
    }
    assert left[..|left|] == left && right[..|right|] == right;
  }

  // ---------------------------------------------------------------------------
  // part_two

  /** The sum of each left value times its number of occurrences on the
      right; a value that does not occur contributes 0. */
  function Similarity(left: seq<nat>, right: seq<nat>): nat
  {
    if left == [] then 0
    else Similarity(left[..|left| - 1], right) + left[|left| - 1] * multiset(right)[left[|left| - 1]]
  }

  /** One more occurrence of x on the right adds x once for each x on the
      left. */
  lemma {:induction false} SimilarityMoreRight(left: seq<nat>, right: seq<nat>, x: nat)
    ensures Similarity(left, right + [x]) == Similarity(left, right) + x * multiset(left)[x]
  {
    if left != [] {
      var init: seq<nat> := left[..|left| - 1];
      var y: nat := left[|left| - 1];
      SimilarityMoreRight(init, right, x);
      assert left == init + [y];
      CountSnoc(right, x, y);
      CountSnoc(init, y, x);
      var m, n := multiset(right)[y], multiset(init)[x];
      if x == y {
        MulSucc(x, m);
        MulSucc(x, n);
      }
    }
  }

  lemma MulSucc(a: nat, b: nat)
    ensures a * (b + 1) == a * b + a
  {
  }

  lemma CountSnoc(s: seq<nat>, a: nat, b: nat)
    ensures multiset(s + [a])[b] == multiset(s)[b] + if a == b then 1 else 0
  {
    assert multiset(s + [a]) == multiset(s) + multiset{a};
  }

  /** The similarity score is symmetric: it is the sum over all values v of
      v times its count on the left times its count on the right. */
  lemma {:induction false} SimilaritySymmetric(left: seq<nat>, right: seq<nat>)
    ensures Similarity(left, right) == Similarity(right, left)
    decreases |left|
  {
    if left == [] {
      SimilarityNone(right);
    } else {
      var init: seq<nat> := left[..|left| - 1];
      var x: nat := left[|left| - 1];
      SimilaritySymmetric(init, right);
      assert left == init + [x];
      SimilarityMoreRight(right, init, x);
    }
  }

  lemma {:induction false} SimilarityNone(s: seq<nat>)
    ensures Similarity(s, []) == 0
  {
    if s != [] {
      SimilarityNone(s[..|s| - 1]);
    }
  }

  /** The `count_right` loop: every value of the column mapped to its number
      of occurrences, and no other key. */
  method CountOccurrences(right: seq<nat>) returns (counts: map<nat, nat>)
    ensures forall v :: v in counts <==> v in right
    ensures forall v :: v in counts ==> counts[v] == multiset(right)[v]
  {
    counts := map[];
    for i := 0 to |right|
      invariant forall v :: v in counts <==> v in right[..i]
      invariant forall v :: v in counts ==> counts[v] == multiset(right[..i])[v]
    {
      assert right[..i + 1] == right[..i] + [right[i]];
      var v := right[i];
      if v in counts {
        counts := counts[v := counts[v] + 1];
      } else {
        counts := counts[v := 1];
      }
    }
    assert right[..|right|] == right;
  }

  /** `part_two`: count the right column, then add up each left value times
      its count, skipping values without one. */
  method PartTwo(input: string) returns (r: Outcome<nat, Fault>)
    ensures ParseColumns(Lines(input)).Panic? ==> r == Panic(ParseColumns(Lines(input)).reason)
    ensures ParseColumns(Lines(input)).Ok? ==> var c := ParseColumns(Lines(input)).value;
      r == Ok(Similarity(c.left, c.right))
  {
    var columns := ParseInputs(input);
    if columns.Panic? {
      return Panic(columns.reason);
    }
    var left, right := columns.value.left, columns.value.right;
    var countRight := CountOccurrences(right);
    var sum := WeightedSum(left, right, countRight);
    return Ok(sum);
  }

  /** The second loop of `part_two`: a left value found in the counts adds
      itself times its count. */
  method WeightedSum(left: seq<nat>, right: seq<nat>, countRight: map<nat, nat>) returns (sum: nat)
    requires forall v :: v in countRight <==> v in right
    requires forall v :: v in countRight ==> countRight[v] == multiset(right)[v]
    ensures sum == Similarity(left, right)
  {
    sum := 0;
    for k := 0 to |left|
      invariant sum == Similarity(left[..k], right)
    {
      assert left[..k + 1][..k] == left[..k];
      var i := left[k];
      if i in countRight {
        sum := sum + i * countRight[i];
      } else {
        assert multiset(right)[i] == 0;
      }
    }
    assert left[..|left|] == left;
  }
}
