/** Day 2, "Red-Nosed Reports": a report (a line of levels) is safe when it
    moves in one direction, as fixed by its first two levels, by steps of 1
    to 3; the tolerant check also accepts a report that becomes safe once a
    single level is removed. */
module RedNosedReports {
  import opened Common
  import opened Text

  const I32_MIN: int := -0x8000_0000
  const I32_MAX: int := 0x7FFF_FFFF

  /** Why the program panics: a token that is not an `i32`. */
  datatype Fault = BadLevel(token: string)

  // ---------------------------------------------------------------------------
  // parse_inputs

  /** One token as an `i32` level. */
  function Level(token: string): Outcome<int, Fault>
  {
    match ParseSigned(token, I32_MIN, I32_MAX)
    case None => Panic(BadLevel(token))
    case Some(n) => Ok(n)
  }

  /** The levels of one line, or the first token that does not parse. */
  function ParseLevel(tokens: seq<string>): Outcome<seq<int>, Fault>
  {
    Collect(tokens, Level)
  }

  /** A line parses exactly when every token is an `i32`, and then its
      levels are the tokens' values in order. */
  lemma ParseLevelMeaning(tokens: seq<string>)
    ensures ParseLevel(tokens).Ok? <==> forall k :: 0 <= k < |tokens| ==> ParseSigned(tokens[k], I32_MIN, I32_MAX).Some?
    ensures ParseLevel(tokens).Ok? ==> |ParseLevel(tokens).value| == |tokens|
    ensures ParseLevel(tokens).Ok? ==>
      forall k :: 0 <= k < |tokens| ==> ParseSigned(tokens[k], I32_MIN, I32_MAX) == Some(ParseLevel(tokens).value[k])
  {
    CollectMeaning(tokens, Level);
  }

  /** The levels of one line: its whitespace-separated tokens. */
  function LineLevels(line: string): Outcome<seq<int>, Fault>
  {
    ParseLevel(SplitWhitespace(line))
  }

  /** One report per line, each the line's whitespace-separated levels in
      order; a panic if any token is not an `i32`. */
  function ParseLines(lines: seq<string>): Outcome<seq<seq<int>>, Fault>
  {
    Collect(lines, LineLevels)
  }

  /** The inner loop of `parse_inputs`: the tokens of one line, each
      `parse::<i32>().unwrap()`ed in turn. */
  method ParseLine(line: string) returns (r: Outcome<seq<int>, Fault>)
    ensures r == LineLevels(line)
  {
    var tokens := SplitWhitespace(line);
    var level: seq<int> := [];
    for t := 0 to |tokens|
      invariant Collect(tokens[..t], Level) == Ok(level)
    {
      match ParseSigned(tokens[t], I32_MIN, I32_MAX) {
        case None =>
          CollectPanic(tokens, t, Level);
          return Panic(BadLevel(tokens[t]));
        case Some(n) =>
          CollectStep(tokens, t, Level);
          level := level + [n];
      }
    }
    assert tokens[..|tokens|] == tokens;
    r := Ok(level);
  }

  /** `parse_inputs`: the loop over the lines, each parsed by `ParseLine`. */
  method ParseInputs(input: string) returns (r: Outcome<seq<seq<int>>, Fault>)
    ensures r == ParseLines(Lines(input))
  {
    var lines := Lines(input);
    var levels: seq<seq<int>> := [];
    for l := 0 to |lines|
      invariant Collect(lines[..l], LineLevels) == Ok(levels)
    {
      var level := ParseLine(lines[l]);
      if level.Panic? {
        CollectPanic(lines, l, LineLevels);
        return Panic(level.reason);
      }
      CollectStep(lines, l, LineLevels);
      levels := levels + [level.value];
    }
    assert lines[..|lines|] == lines;
    r := Ok(levels);
  }

  // ---------------------------------------------------------------------------
  // is_sequence_safe

  /** The step from one level to the next is allowed in the direction. */
  predicate StepOk(increasing: bool, diff: int)
  {
    if increasing then 1 <= diff <= 3 else -3 <= diff <= -1
  }

  /** The report's direction is set by its first two levels, and every step
      must be allowed in it; reports shorter than two levels are safe. */
  predicate Safe(s: seq<int>)
  {
    |s| < 2 || forall i :: 1 <= i < |s| ==> StepOk(s[0] < s[1], s[i] - s[i - 1])
  }

  /** `is_sequence_safe`: the early-return scan over the steps. */
  method IsSequenceSafe(input: seq<int>) returns (safe: bool)
    ensures safe == Safe(input)
  {
    if |input| < 2 {
      return true;
    }
    var increasing := input[0] < input[1];
    for i := 1 to |input|
      invariant forall k :: 1 <= k < i ==> StepOk(increasing, input[k] - input[k - 1])
    {
      var diff := input[i] - input[i - 1];
      if increasing && (diff <= 0 || diff > 3) {
        return false;
      }
      if !increasing && !(-3 <= diff < 0) {
        return false;
      }
    }
    return true;
  }

  /** Every step rises by 1 to 3. */
  predicate Rising(s: seq<int>)
  {
    forall i :: 1 <= i < |s| ==> 1 <= s[i] - s[i - 1] <= 3
  }

  /** Every step falls by 1 to 3. */
  predicate Falling(s: seq<int>)
  {
    forall i :: 1 <= i < |s| ==> 1 <= s[i - 1] - s[i] <= 3
  }

  /** A report is safe exactly when it is short, or it rises throughout, or
      it falls throughout, by steps of 1 to 3. */
  lemma SafeIff(s: seq<int>)
    ensures Safe(s) <==> |s| < 2 || Rising(s) || Falling(s)
  {
    if |s| >= 2 {
      if Rising(s) {
        assert 1 <= s[1] - s[0];
      }
      if Falling(s) {
        assert 1 <= s[0] - s[1];
      }
    }
  }

  /** Two equal neighbours make a report of two or more levels unsafe. */
  lemma EqualNeighboursUnsafe(s: seq<int>, k: nat)
    requires 1 <= k < |s| && s[k] == s[k - 1]
    ensures !Safe(s)
  {
    assert !StepOk(s[0] < s[1], s[k] - s[k - 1]);
  }

  // ---------------------------------------------------------------------------
  // check_safe_with_removal

  /** `Vec::remove`: the sequence without the element at idx. */
  function Remove(s: seq<int>, idx: nat): (r: seq<int>)
    requires idx < |s|
    ensures |r| == |s| - 1
    ensures forall k :: 0 <= k < idx ==> r[k] == s[k]
    ensures forall k :: idx <= k < |r| ==> r[k] == s[k + 1]
  {
    s[..idx] + s[idx + 1..]
  }

  /** Safe as it is, or once some one level is removed. */
  ghost predicate Tolerable(s: seq<int>)
  {
    Safe(s) || exists idx :: 0 <= idx < |s| && Safe(Remove(s, idx))
  }

  /** `check_safe_with_removal`: the report itself, then each copy with one
      level removed, left to right. */
  method CheckSafeWithRemoval(levels: seq<int>) returns (ok: bool)
    ensures ok == Tolerable(levels)
  {
    var safe := IsSequenceSafe(levels);
    if safe {
      return true;
    }
    for idx := 0 to |levels|
      invariant forall k :: 0 <= k < idx ==> !Safe(Remove(levels, k))
    {
      var testSequence := levels[..idx] + levels[idx + 1..];
      safe := IsSequenceSafe(testSequence);
      if safe {
        assert Safe(Remove(levels, idx));
        return true;
      }
    }
    return false;
  }

  /** Dropping the last level keeps a safe report of three or more levels
      safe; so a safe report always passes the tolerant check through a
      removal as well. */
  lemma SafeDropLast(s: seq<int>)
    requires |s| >= 3 && Safe(s)
    ensures Safe(Remove(s, |s| - 1))
  {
    var r := Remove(s, |s| - 1);
    assert r[0] == s[0] && r[1] == s[1];
    forall i | 1 <= i < |r|
      ensures StepOk(r[0] < r[1], r[i] - r[i - 1])
    {
      assert r[i] == s[i] && r[i - 1] == s[i - 1];
    }
  }

  /** Dropping the first level keeps a safe report of three or more levels
      safe: the direction of the second and third levels is the same. */
  lemma SafeDropFirst(s: seq<int>)
    requires |s| >= 3 && Safe(s)
    ensures Safe(Remove(s, 0))
  {
    var r := Remove(s, 0);
    assert StepOk(s[0] < s[1], s[1] - s[0]) && StepOk(s[0] < s[1], s[2] - s[1]);
    assert (r[0] < r[1]) == (s[0] < s[1]);
    forall i | 1 <= i < |r|
      ensures StepOk(r[0] < r[1], r[i] - r[i - 1])
    {
      assert r[i] == s[i + 1] && r[i - 1] == s[i];
      assert StepOk(s[0] < s[1], s[i + 1] - s[i]);
    }
  }

  // ---------------------------------------------------------------------------
  // part_one and part_two

  /** The number of safe reports. */
  function CountSafe(reports: seq<seq<int>>): (n: nat)
    ensures n <= |reports|
  {
    if reports == [] then 0
    else CountSafe(reports[..|reports| - 1]) + (if Safe(reports[|reports| - 1]) then 1 else 0)
  }

  /** The number of tolerable reports. */
  ghost function CountTolerable(reports: seq<seq<int>>): (n: nat)
    ensures n <= |reports|
  {
    if reports == [] then 0
    else CountTolerable(reports[..|reports| - 1]) + (if Tolerable(reports[|reports| - 1]) then 1 else 0)
  }

  /** The tolerant count is never below the strict one. */
  lemma {:induction false} TolerantCountsMore(reports: seq<seq<int>>)
    ensures CountSafe(reports) <= CountTolerable(reports)
  {
    if reports != [] {
      TolerantCountsMore(reports[..|reports| - 1]);
    }
  }

  /** `part_one`: the number of safe reports. */
  method PartOne(input: string) returns (r: Outcome<nat, Fault>)
    ensures ParseLines(Lines(input)).Panic? ==> r == Panic(ParseLines(Lines(input)).reason)
    ensures ParseLines(Lines(input)).Ok? ==> r == Ok(CountSafe(ParseLines(Lines(input)).value))
  {
    var parsed := ParseInputs(input);
    if parsed.Panic? {
      return Panic(parsed.reason);
    }
    var safeCases := CountSafeReports(parsed.value);
    return Ok(safeCases);
  }

  /** The loop of `part_one`: one `is_sequence_safe` per report. */
  method CountSafeReports(testCases: seq<seq<int>>) returns (safeCases: nat)
    ensures safeCases == CountSafe(testCases)
  {
    safeCases := 0;
    for k := 0 to |testCases|
      invariant safeCases == CountSafe(testCases[..k])
    {
      assert testCases[..k + 1][..k] == testCases[..k];
      var safe := IsSequenceSafe(testCases[k]);
      if safe {
        safeCases := safeCases + 1;
      }
    }
    assert testCases[..|testCases|] == testCases;
  }

  /** `part_two`: the number of reports that pass the tolerant check. */
  method PartTwo(input: string) returns (r: Outcome<nat, Fault>)
    ensures ParseLines(Lines(input)).Panic? ==> r == Panic(ParseLines(Lines(input)).reason)
    ensures ParseLines(Lines(input)).Ok? ==> r == Ok(CountTolerable(ParseLines(Lines(input)).value))
  {
    var parsed := ParseInputs(input);
    if parsed.Panic? {
      return Panic(parsed.reason);
    }
    var safeCases := CountTolerableReports(parsed.value);
    return Ok(safeCases);
  }

  /** The loop of `part_two`: one `check_safe_with_removal` per report. */
  method CountTolerableReports(testCases: seq<seq<int>>) returns (safeCases: nat)
    ensures safeCases == CountTolerable(testCases)
  {
    safeCases := 0;
    for k := 0 to |testCases|
      invariant safeCases == CountTolerable(testCases[..k])
    {
      assert testCases[..k + 1][..k] == testCases[..k];
      var safe := CheckSafeWithRemoval(testCases[k]);
      if safe {
        safeCases := safeCases + 1;
      }
    }
    assert testCases[..|testCases|] == testCases;
  }
}
