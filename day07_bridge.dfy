/** Day 7, "Bridge Repair": an equation is a target and a list of operands;
    it can be made true when some choice of operators between the operands,
    applied strictly left to right, yields the target. Part one allows `+`
    and `*`, part two also the digit concatenation `||`. */
module BridgeRepair {
  import opened Common
  import opened Text

  const U128_MAX: nat := 0xFFFF_FFFF_FFFF_FFFF_FFFF_FFFF_FFFF_FFFF

  /** Why the program panics: a token that is not a `u128` (`expect`), a
      line without numbers (`values.remove(0)`), an equation without
      operands (`v[0]`), and concatenation with 0 (`ilog10` of 0). */
  datatype Fault = BadNumber(token: string) | EmptyLine | NoOperands | LogOfZero

  datatype Equation = Equation(target: nat, nums: seq<nat>)

  // ---------------------------------------------------------------------------
  // parse_input

  /** A piece the filter drops: nothing but whitespace. */
  predicate Blank(piece: string)
  {
    forall i :: 0 <= i < |piece| ==> IsWhitespace(piece[i])
  }

  /** Blank is the filter's test: the piece trims to nothing. */
  lemma {:induction false} BlankTrims(piece: string)
    ensures Blank(piece) <==> Trim(piece) == []
    decreases |piece|
  {
    if |piece| == 0 {
      assert Trim(piece) == [];
    } else if IsWhitespace(piece[0]) {
      BlankTrims(piece[1..]);
      BlankTail(piece);
    } else {
      NotBlankTrims(piece);
    }
  }

  lemma NotBlankTrims(piece: string)
    requires |piece| > 0 && !IsWhitespace(piece[0])
    ensures Trim(piece) != [] && !Blank(piece)
  {
    assert TrimStart(piece) == piece;
    if TrimEnd(piece) == [] {
      TrimEndEmpty(piece);
    }
  }

  lemma BlankTail(piece: string)
    requires |piece| > 0 && IsWhitespace(piece[0])
    ensures Blank(piece) <==> Blank(piece[1..])
    ensures Trim(piece) == Trim(piece[1..])
  {
    assert forall i :: 1 <= i < |piece| ==> piece[1..][i - 1] == piece[i];
  }

  /** What `trim_end` removes is whitespace. */
  lemma {:induction false} TrimEndEmpty(s: string)
    requires TrimEnd(s) == []
    ensures Blank(s)
    decreases |s|
  {
    if |s| > 0 {
      TrimEndEmpty(s[..|s| - 1]);
      assert forall i :: 0 <= i < |s| - 1 ==> s[..|s| - 1][i] == s[i];
    }
  }

  /** The pieces that survive the filter. */
  function Kept(pieces: seq<string>): (r: seq<string>)
    ensures |r| <= |pieces|
    ensures forall k :: 0 <= k < |r| ==> !Blank(r[k])
  {
    if pieces == [] then []
    else Kept(pieces[..|pieces| - 1]) + (if Blank(pieces[|pieces| - 1]) then [] else [pieces[|pieces| - 1]])
  }

  /** The numbers of the pieces that are not blank, or the first one that is
      not a `u128`. */
  function ParseValues(pieces: seq<string>): Outcome<seq<nat>, Fault>
  {
    if pieces == [] then Ok([])
    else
      var p := pieces[|pieces| - 1];
      match ParseValues(pieces[..|pieces| - 1])
      case Panic(f) => Panic(f)
      case Ok(init) =>
        if Blank(p) then Ok(init)
        else
          match ParseUnsigned(p, U128_MAX)
          case None => Panic(BadNumber(p))
          case Some(n) => Ok(init + [n])
  }

  /** A line's pieces parse when every piece that is not blank is a `u128`. */
  lemma {:induction false} ParseValuesMeaning(pieces: seq<string>)
    ensures ParseValues(pieces).Ok? <==>
      forall k :: 0 <= k < |pieces| && !Blank(pieces[k]) ==> ParseUnsigned(pieces[k], U128_MAX).Some?
  {
    if pieces != [] {
      var n := |pieces| - 1;
      var init := pieces[..n];
      ParseValuesMeaning(init);
      assert forall k :: 0 <= k < n ==> init[k] == pieces[k];
    }
  }

  /** The numbers are those of the kept pieces, one for one. */
  lemma {:induction false} ParseValuesKept(pieces: seq<string>)
    requires ParseValues(pieces).Ok?
    ensures |ParseValues(pieces).value| == |Kept(pieces)|
    ensures forall k :: 0 <= k < |Kept(pieces)| ==> ParseUnsigned(Kept(pieces)[k], U128_MAX) == Some(ParseValues(pieces).value[k])
  {
    if pieces != [] {
      ParseValuesKept(pieces[..|pieces| - 1]);
    }
  }

  /** A fault while parsing a line always names a piece that is not blank. */
  lemma {:induction false} ParseValuesBad(pieces: seq<string>)
    requires ParseValues(pieces).Panic?
    ensures ParseValues(pieces).reason.BadNumber? && Kept(pieces) != []
  {
    if ParseValues(pieces[..|pieces| - 1]).Panic? {
      ParseValuesBad(pieces[..|pieces| - 1]);
    }
  }

  lemma {:induction false} ParseValuesPanic(pieces: seq<string>, t: nat)
    requires t < |pieces| && ParseValues(pieces[..t]).Ok? && !Blank(pieces[t]) && ParseUnsigned(pieces[t], U128_MAX).None?
    ensures ParseValues(pieces) == Panic(BadNumber(pieces[t]))
    decreases |pieces|
  {
    if t < |pieces| - 1 {
      var init := pieces[..|pieces| - 1];
      assert init[..t] == pieces[..t];
      ParseValuesPanic(init, t);
    } else {
      assert pieces[..|pieces| - 1] == pieces[..t];
    }
  }

  /** One more piece: a blank one is skipped, a number appended. */
  lemma ParseValuesStep(pieces: seq<string>, t: nat)
    requires t < |pieces| && ParseValues(pieces[..t]).Ok?
    requires Blank(pieces[t]) || ParseUnsigned(pieces[t], U128_MAX).Some?
    ensures ParseValues(pieces[..t + 1]) ==
      if Blank(pieces[t]) then ParseValues(pieces[..t])
      else Ok(ParseValues(pieces[..t]).value + [ParseUnsigned(pieces[t], U128_MAX).value])
  {
    assert pieces[..t + 1][..t] == pieces[..t];
  }

  /** `split_terminator(&[':', ' '])`: the text between colons and spaces (the
      final empty piece `split` would add is blank, so the filter drops it
      either way). */
  function Pieces(line: string): seq<string>
  {
    SplitAny(line, {':', ' '})
  }

  /** One line: the first number is the target and the rest are the
      operands; a line with no number at all panics in `remove(0)`. */
  function ParseEquation(line: string): Outcome<Equation, Fault>
  {
    match ParseValues(Pieces(line))
    case Panic(f) => Panic(f)
    case Ok(values) => if values == [] then Panic(EmptyLine) else Ok(Equation(values[0], values[1..]))
  }

  /** A line parses when every piece that is not blank is a `u128` and there
      is at least one; then the first is the target and the rest are the
      operands, in order. */
  lemma ParseEquationMeaning(line: string)
    ensures ParseEquation(line) == Panic(EmptyLine) <==> Kept(Pieces(line)) == []
    ensures ParseEquation(line).Ok? <==> (Kept(Pieces(line)) != [] &&
      forall k :: 0 <= k < |Pieces(line)| && !Blank(Pieces(line)[k]) ==> ParseUnsigned(Pieces(line)[k], U128_MAX).Some?)
    ensures ParseEquation(line).Ok? ==> var kept, eq := Kept(Pieces(line)), ParseEquation(line).value;
      |kept| == |eq.nums| + 1 && ParseUnsigned(kept[0], U128_MAX) == Some(eq.target)
      && forall k :: 0 <= k < |eq.nums| ==> ParseUnsigned(kept[k + 1], U128_MAX) == Some(eq.nums[k])
  {
    ParseValuesMeaning(Pieces(line));
    if ParseValues(Pieces(line)).Panic? {
      ParseValuesBad(Pieces(line));
    } else {
      ParseValuesKept(Pieces(line));
    }
  }

  /** Every line in order, or the first line's fault. */
  function ParseEquations(lines: seq<string>): Outcome<seq<Equation>, Fault>
  {
    Collect(lines, ParseEquation)
  }

  /** The body of `parse_input`'s loop for one line: the filtered pieces are
      parsed into `values` and the first is removed as the target. */
  method ParseLine(line: string) returns (r: Outcome<Equation, Fault>)
    ensures r == ParseEquation(line)
  {
    var pieces := Pieces(line);
    var values: seq<nat> := [];
    for t := 0 to |pieces|
      invariant ParseValues(pieces[..t]) == Ok(values)
    {
      if !Blank(pieces[t]) {
        match ParseUnsigned(pieces[t], U128_MAX) {
          case None =>
            ParseValuesPanic(pieces, t);
            return Panic(BadNumber(pieces[t]));
          case Some(n) =>
            ParseValuesStep(pieces, t);
            values := values + [n];
        }
      } else {
        ParseValuesStep(pieces, t);
      }
    }
    assert pieces[..|pieces|] == pieces;
    if |values| == 0 {
      return Panic(EmptyLine);
    }
    var target := values[0];
    values := values[1..];
    r := Ok(Equation(target, values));
  }

  /** `parse_input`: every line parsed in order, each pushed as it is read. */
  method ParseInput(input: string) returns (r: Outcome<seq<Equation>, Fault>)
    ensures r == ParseEquations(Lines(input))
  {
    var lines := Lines(input);
    var v: seq<Equation> := [];
    for l := 0 to |lines|
      invariant Collect(lines[..l], ParseEquation) == Ok(v)
    {
      var eq := ParseLine(lines[l]);
      if eq.Panic? {
        CollectPanic(lines, l, ParseEquation);
        return Panic(eq.reason);
      }
      CollectStep(lines, l, ParseEquation);
      v := v + [eq.value];
    }
    assert lines[..|lines|] == lines;
    r := Ok(v);
  }

  // ---------------------------------------------------------------------------
  // concat and do_calculation

  /** `concat`: the digits of b appended to those of a. */
  function Concat(a: nat, b: nat): (r: Outcome<nat, Fault>)
    ensures r.Panic? <==> b == 0
    ensures r.Ok? ==> r.value % Pow(10, NumDigits(b)) == b && r.value / Pow(10, NumDigits(b)) == a
  {
    if b == 0 then Panic(LogOfZero)
    else
      NumDigitsRange(b);
      DivModOf(a, b, Pow(10, NumDigits(b)));
      Ok(a * Pow(10, NumDigits(b)) + b)
  }

  /** Read as decimal text, concatenation appends b's digits to a's. */
  lemma {:induction false} ConcatString(a: nat, b: nat)
    requires a > 0 && b > 0
    ensures Concat(a, b).Ok? && NatToString(Concat(a, b).value) == NatToString(a) + NatToString(b)
    decreases b
  {
    if b < 10 {
      assert Concat(a, b).value == a * 10 + b;
      DivModOf(a, b, 10);
    } else {
      var b', d := b / 10, b % 10;
      ConcatString(a, b');
      var c' := Concat(a, b').value;
      ConcatStep(a, b);
      DivModOf(c', d, 10);
    }
  }

  /** Concatenating b is concatenating all of b's digits but the last, then
      the last one. */
  lemma ConcatStep(a: nat, b: nat)
    requires b >= 10
    ensures Concat(a, b).Ok? && Concat(a, b / 10).Ok?
    ensures Concat(a, b).value == Concat(a, b / 10).value * 10 + b % 10
  {
    var k := NumDigits(b);
    var p := Pow(10, k - 1);
    assert Pow(10, k) == p * 10;
    calc {
      a * Pow(10, k) + b;
      a * (p * 10) + (b / 10) * 10 + b % 10;
      (a * p + b / 10) * 10 + b % 10;
    }
  }

  /** The operators an equation may use. */
  datatype Op = Add | Mul | Cat

  /** One operator applied to the running result and the next operand; None
      where the program panics (concatenation with 0). */
  function Apply(op: Op, a: nat, b: nat): Option<nat>
  {
    match op
    case Add => Some(a + b)
    case Mul => Some(a * b)
    case Cat => if b == 0 then None else Some(Concat(a, b).value)
  }

  /** The operators ops applied left to right to the operands after index,
      starting from current. */
  function Eval(nums: seq<nat>, index: nat, current: nat, ops: seq<Op>): Option<nat>
    requires index + |ops| < |nums|
    decreases |ops|
  {
    if ops == [] then Some(current)
    else
      match Apply(ops[0], current, nums[index + 1])
      case None => None
      case Some(c) => Eval(nums, index + 1, c, ops[1..])
  }

  /** The operators may be used in the part: `||` only in part two. */
  predicate Allowed(ops: seq<Op>, concat: bool)
  {
    concat || forall k :: 0 <= k < |ops| ==> ops[k] != Cat
  }

  /** Some allowed choice of the remaining operators reaches the target. */
  ghost predicate Solvable(nums: seq<nat>, index: nat, current: nat, concat: bool, target: nat)
    requires index < |nums|
  {
    exists ops: seq<Op> :: |ops| == |nums| - 1 - index && Allowed(ops, concat)
      && Eval(nums, index, current, ops) == Some(target)
  }

  /** `do_calculation`: at the last operand, whether the running result is the
      target; otherwise `+` and `*` are both tried, and `||` (when enabled)
      only if neither succeeded. */
  function DoCalculation(nums: seq<nat>, index: nat, currentResult: nat, needConcatOperator: bool, target: nat): Outcome<bool, Fault>
    requires index < |nums|
    decreases |nums| - index
  {
    if index == |nums| - 1 then Ok(currentResult == target)
    else
      var addResult := DoCalculation(nums, index + 1, currentResult + nums[index + 1], needConcatOperator, target);
      if addResult.Panic? then addResult
      else
        var multiplyResult := DoCalculation(nums, index + 1, currentResult * nums[index + 1], needConcatOperator, target);
        if multiplyResult.Panic? then multiplyResult
        else if addResult.value || multiplyResult.value then Ok(true)
        else if !needConcatOperator then Ok(false)
        else
          match Concat(currentResult, nums[index + 1])
          case Panic(f) => Panic(f)
          case Ok(c) => DoCalculation(nums, index + 1, c, needConcatOperator, target)
  }

  lemma EvalCons(nums: seq<nat>, index: nat, current: nat, op: Op, ops: seq<Op>)
    requires index + 1 + |ops| < |nums|
    ensures Eval(nums, index, current, [op] + ops) ==
      match Apply(op, current, nums[index + 1])
      case None => None
      case Some(c) => Eval(nums, index + 1, c, ops)
  {
    assert ([op] + ops)[1..] == ops;
  }

  /** When `do_calculation` returns, it answers exactly whether some allowed
      choice of operators reaches the target. */
  lemma {:induction false} DoCalculationSolves(nums: seq<nat>, index: nat, current: nat, concat: bool, target: nat)
    requires index < |nums| && DoCalculation(nums, index, current, concat, target).Ok?
    ensures DoCalculation(nums, index, current, concat, target).value <==> Solvable(nums, index, current, concat, target)
    decreases |nums| - index
  {
    var r := DoCalculation(nums, index, current, concat, target);
    if index == |nums| - 1 {
      if r.value {
        assert Eval(nums, index, current, []) == Some(target);
      }
    } else {
      var n := nums[index + 1];
      DoCalculationSolves(nums, index + 1, current + n, concat, target);
      DoCalculationSolves(nums, index + 1, current * n, concat, target);
      var a := DoCalculation(nums, index + 1, current + n, concat, target).value;
      var m := DoCalculation(nums, index + 1, current * n, concat, target).value;
      if concat && !a && !m {
        DoCalculationSolves(nums, index + 1, Concat(current, n).value, concat, target);
      }
      if r.value {
        var op := if a then Add else if m then Mul else Cat;
        var c := Apply(op, current, n).value;
        var ops: seq<Op> :| |ops| == |nums| - 1 - (index + 1) && Allowed(ops, concat) && Eval(nums, index + 1, c, ops) == Some(target);
        EvalCons(nums, index, current, op, ops);
        assert Allowed([op] + ops, concat) by {
          if !concat {
            assert forall k :: 1 <= k < |[op] + ops| ==> ([op] + ops)[k] == ops[k - 1];
          }
        }
      } else {
        forall ops: seq<Op> | |ops| == |nums| - 1 - index && Allowed(ops, concat)
          ensures Eval(nums, index, current, ops) != Some(target)
        {
          EvalCons(nums, index, current, ops[0], ops[1..]);
          assert [ops[0]] + ops[1..] == ops;
          assert Allowed(ops[1..], concat) by {
            if !concat {
              assert forall k :: 0 <= k < |ops[1..]| ==> ops[1..][k] == ops[k + 1];
            }
          }
        }
      }
    }
  }

  /** Without `||` nothing can panic. */
  lemma {:induction false} NoConcatNoPanic(nums: seq<nat>, index: nat, current: nat, target: nat)
    requires index < |nums|
    ensures DoCalculation(nums, index, current, false, target).Ok?
    decreases |nums| - index
  {
    if index < |nums| - 1 {
      NoConcatNoPanic(nums, index + 1, current + nums[index + 1], target);
      NoConcatNoPanic(nums, index + 1, current * nums[index + 1], target);
    }
  }

  /** With positive operands `||` cannot panic either. */
  lemma {:induction false} PositiveNoPanic(nums: seq<nat>, index: nat, current: nat, concat: bool, target: nat)
    requires index < |nums| && forall k :: index < k < |nums| ==> nums[k] > 0
    ensures DoCalculation(nums, index, current, concat, target).Ok?
    decreases |nums| - index
  {
    if index < |nums| - 1 {
      var n := nums[index + 1];
      PositiveNoPanic(nums, index + 1, current + n, concat, target);
      PositiveNoPanic(nums, index + 1, current * n, concat, target);
      if concat {
        PositiveNoPanic(nums, index + 1, Concat(current, n).value, concat, target);
      }
    }
  }

  /** Allowing `||` never turns a solvable equation into an unsolvable one:
      with `||` the answer is yes again, unless the program panics. */
  lemma ConcatKeepsSolutions(nums: seq<nat>, target: nat)
    requires |nums| > 0 && DoCalculation(nums, 0, nums[0], false, target) == Ok(true)
    ensures DoCalculation(nums, 0, nums[0], true, target) != Ok(false)
  {
    DoCalculationSolves(nums, 0, nums[0], false, target);
    var ops: seq<Op> :| |ops| == |nums| - 1 && Allowed(ops, false) && Eval(nums, 0, nums[0], ops) == Some(target);
    assert Allowed(ops, true);
    if DoCalculation(nums, 0, nums[0], true, target).Ok? {
      DoCalculationSolves(nums, 0, nums[0], true, target);
    }
  }

  // ---------------------------------------------------------------------------
  // part_one and part_two

  /** Whether an equation counts: `v[0]` panics on an equation without
      operands, then `do_calculation` from the first operand. */
  function Check(eq: Equation, concat: bool): (r: Outcome<bool, Fault>)
    ensures r == Panic(NoOperands) <== eq.nums == []
    ensures eq.nums != [] && r.Ok? ==> (r.value <==> Solvable(eq.nums, 0, eq.nums[0], concat, eq.target))
  {
    if eq.nums == [] then Panic(NoOperands)
    else
      var r := DoCalculation(eq.nums, 0, eq.nums[0], concat, eq.target);
      if r.Ok? then (DoCalculationSolves(eq.nums, 0, eq.nums[0], concat, eq.target); r) else r
  }

  /** The sum of the targets of the equations that count, or the first
      fault. */
  function Total(eqs: seq<Equation>, concat: bool): Outcome<nat, Fault>
  {
    if eqs == [] then Ok(0)
    else
      match Total(eqs[..|eqs| - 1], concat)
      case Panic(f) => Panic(f)
      case Ok(sum) =>
        match Check(eqs[|eqs| - 1], concat)
        case Panic(f) => Panic(f)
        case Ok(b) => Ok(sum + if b then eqs[|eqs| - 1].target else 0)
  }

  /** The sum of the targets of the solvable equations. */
  ghost function SolvableSum(eqs: seq<Equation>, concat: bool): nat
    requires forall k :: 0 <= k < |eqs| ==> eqs[k].nums != []
  {
    if eqs == [] then 0
    else
      var eq := eqs[|eqs| - 1];
      SolvableSum(eqs[..|eqs| - 1], concat) + if Solvable(eq.nums, 0, eq.nums[0], concat, eq.target) then eq.target else 0
  }

  /** Part one panics only on an equation without operands, and otherwise
      sums the targets of the equations solvable with `+` and `*`. */
  lemma {:induction false} PartOneSums(eqs: seq<Equation>)
    requires forall k :: 0 <= k < |eqs| ==> eqs[k].nums != []
    ensures Total(eqs, false) == Ok(SolvableSum(eqs, false))
  {
    if eqs != [] {
      var eq := eqs[|eqs| - 1];
      PartOneSums(eqs[..|eqs| - 1]);
      NoConcatNoPanic(eq.nums, 0, eq.nums[0], eq.target);
    }
  }

  /** With positive operands part two does not panic, and its sum is at least
      part one's. */
  lemma {:induction false} PartTwoAtLeast(eqs: seq<Equation>)
    requires forall k :: 0 <= k < |eqs| ==> eqs[k].nums != [] && forall i :: 0 <= i < |eqs[k].nums| ==> eqs[k].nums[i] > 0
    ensures Total(eqs, true).Ok? && Total(eqs, false).Ok?
    ensures Total(eqs, false).value <= Total(eqs, true).value
  {
    if eqs != [] {
      var eq := eqs[|eqs| - 1];
      PartTwoAtLeast(eqs[..|eqs| - 1]);
      NoConcatNoPanic(eq.nums, 0, eq.nums[0], eq.target);
      PositiveNoPanic(eq.nums, 0, eq.nums[0], true, eq.target);
      if DoCalculation(eq.nums, 0, eq.nums[0], false, eq.target).value {
        ConcatKeepsSolutions(eq.nums, eq.target);
      }
    }
  }

  /** The filtered sum over the parsed equations, in order (the program sums
      in parallel; a sum does not depend on the order, and the model stops
      at the first panic). */
  method SumMatching(eqs: seq<Equation>, concat: bool) returns (r: Outcome<nat, Fault>)
    ensures r == Total(eqs, concat)
  {
    var sum := 0;
    for k := 0 to |eqs|
      invariant Total(eqs[..k], concat) == Ok(sum)
    {
      assert eqs[..k + 1][..k] == eqs[..k];
      var c := Check(eqs[k], concat);
      if c.Panic? {
        TotalPanicAt(eqs, k, concat);
        return Panic(c.reason);
      }
      if c.value {
        sum := sum + eqs[k].target;
      }
    }
    assert eqs[..|eqs|] == eqs;
    return Ok(sum);
  }

  lemma {:induction false} TotalPanicAt(eqs: seq<Equation>, k: nat, concat: bool)
    requires k < |eqs| && Total(eqs[..k], concat).Ok? && Check(eqs[k], concat).Panic?
    ensures Total(eqs, concat) == Panic(Check(eqs[k], concat).reason)
    decreases |eqs|
  {
    if k < |eqs| - 1 {
      var init := eqs[..|eqs| - 1];
      assert init[..k] == eqs[..k];
      TotalPanicAt(init, k, concat);
    } else {
      assert eqs[..|eqs| - 1] == eqs[..k];
    }
  }

  /** `part_one`: the sum over the equations solvable with `+` and `*`. */
  method PartOne(input: string) returns (r: Outcome<nat, Fault>)
    ensures ParseEquations(Lines(input)).Panic? ==> r == Panic(ParseEquations(Lines(input)).reason)
    ensures ParseEquations(Lines(input)).Ok? ==> r == Total(ParseEquations(Lines(input)).value, false)
  {
    var values := ParseInput(input);
    if values.Panic? {
      return Panic(values.reason);
    }
    r := SumMatching(values.value, false);
  }

  /** `part_two`: the same with `||` allowed. */
  method PartTwo(input: string) returns (r: Outcome<nat, Fault>)
    ensures ParseEquations(Lines(input)).Panic? ==> r == Panic(ParseEquations(Lines(input)).reason)
    ensures ParseEquations(Lines(input)).Ok? ==> r == Total(ParseEquations(Lines(input)).value, true)
  {
    var values := ParseInput(input);
    if values.Panic? {
      return Panic(values.reason);
    }
    r := SumMatching(values.value, true);
  }
}
