/** Day 11, "Plutonian Pebbles": a row of engraved stones changes at every
    blink. A 0 becomes 1, a number with an even count of digits splits into
    its left and right halves, and any other number is multiplied by 2024.
    The answer is the number of stones after 25 (part one) or 75 (part two)
    blinks, computed stone by stone with a memo of (number, blinks left). */
module PlutonianPebbles {
  import opened Common
  import opened Text

  /** The one panic: a piece of the input that is not a `u32` (`unwrap`). */
  datatype Fault = BadStone(piece: string)

  // ---------------------------------------------------------------------------
  // The recurrence and what it counts

  /** The divisor that splits a number of k digits into halves. */
  function Half(num: nat): (p: nat)
    ensures p > 0
  {
    Pow(10, NumDigits(num) / 2)
  }

  /** The count `blink` computes, without the memo: the number of stones one
      stone engraved num becomes after depth blinks. */
  function Stones(num: nat, depth: nat): (c: nat)
    ensures c >= 1
    decreases depth
  {
    if depth == 0 then 1
    else if num == 0 then Stones(1, depth - 1)
    else if NumDigits(num) % 2 == 0 then Stones(num / Half(num), depth - 1) + Stones(num % Half(num), depth - 1)
    else Stones(num * 2024, depth - 1)
  }

  /** What one stone becomes at one blink. */
  function Rule(num: nat): (r: seq<nat>)
    ensures 1 <= |r| <= 2
  {
    if num == 0 then [1]
    else if NumDigits(num) % 2 == 0 then [num / Half(num), num % Half(num)]
    else [num * 2024]
  }

  /** The whole row after one blink: each stone replaced in place by what it
      becomes, order kept. */
  function BlinkRow(row: seq<nat>): seq<nat>
  {
    if row == [] then [] else BlinkRow(row[..|row| - 1]) + Rule(row[|row| - 1])
  }

  /** The row after depth blinks. */
  function BlinkTimes(row: seq<nat>, depth: nat): seq<nat>
    decreases depth
  {
    if depth == 0 then row else BlinkTimes(BlinkRow(row), depth - 1)
  }

  /** The sum of Stones over a row. */
  function Total(row: seq<nat>, depth: nat): nat
  {
    if row == [] then 0 else Total(row[..|row| - 1], depth) + Stones(row[|row| - 1], depth)
  }

  lemma {:induction false} TotalAppend(a: seq<nat>, b: seq<nat>, depth: nat)
    ensures Total(a + b, depth) == Total(a, depth) + Total(b, depth)
    decreases |b|
  {
    if b == [] {
      assert a + b == a;
    } else {
      assert (a + b)[..|a + b| - 1] == a + b[..|b| - 1];
      TotalAppend(a, b[..|b| - 1], depth);
    }
  }

  /** One more blink on each stone is one blink on the row first. */
  lemma {:induction false} TotalBlinkRow(row: seq<nat>, depth: nat)
    requires depth >= 1
    ensures Total(BlinkRow(row), depth - 1) == Total(row, depth)
  {
    if row != [] {
      var x := row[|row| - 1];
      TotalBlinkRow(row[..|row| - 1], depth);
      TotalAppend(BlinkRow(row[..|row| - 1]), Rule(x), depth - 1);
      TotalRule(x, depth);
    }
  }

  /** The stones one stone becomes are counted by the recurrence one level
      down. */
  lemma TotalRule(num: nat, depth: nat)
    requires depth >= 1
    ensures Total(Rule(num), depth - 1) == Stones(num, depth)
  {
    var d := depth - 1;
    if num == 0 {
      TotalOne(1, d);
    } else if NumDigits(num) % 2 == 0 {
      var h := Half(num);
      assert Rule(num) == [num / h, num % h];
      TotalTwo(num / h, num % h, d);
    } else {
      TotalOne(num * 2024, d);
    }
  }

  lemma TotalOne(x: nat, depth: nat)
    ensures Total([x], depth) == Stones(x, depth)
  {
    assert [x][..0] == [];
  }

  lemma TotalTwo(x: nat, y: nat, depth: nat)
    ensures Total([x, y], depth) == Stones(x, depth) + Stones(y, depth)
  {
    assert [x, y][..1] == [x];
    TotalOne(x, depth);
  }

  /** The recurrence counts the stones: after depth blinks the row holds
      exactly Total(row, depth) stones. */
  lemma {:induction false} StonesCount(row: seq<nat>, depth: nat)
    ensures |BlinkTimes(row, depth)| == Total(row, depth)
    decreases depth
  {
    if depth == 0 {
      TotalOnes(row);
    } else {
      StonesCount(BlinkRow(row), depth - 1);
      TotalBlinkRow(row, depth);
    }
  }

  lemma {:induction false} TotalOnes(row: seq<nat>)
    ensures Total(row, 0) == |row|
  {
    if row != [] {
      TotalOnes(row[..|row| - 1]);
    }
  }

  /** An even count of digits 2h splits into a left half of exactly h digits
      and a right half below 10^h; together they give the number back. */
  lemma SplitHalves(num: nat)
    requires num > 0 && NumDigits(num) % 2 == 0
    ensures num / Half(num) * Half(num) + num % Half(num) == num
    ensures num % Half(num) < Pow(10, NumDigits(num) / 2)
    ensures NumDigits(num / Half(num)) == NumDigits(num) / 2
  {
    var k := NumDigits(num);
    var h := k / 2;
    var p := Half(num);
    assert p == Pow(10, h);
    NumDigitsRange(num);
    assert h >= 1 && k == h + h;
    PowAdd(10, h, h);
    PowAdd(10, h - 1, h);
    assert h - 1 + h == k - 1;
    DivLower(num, Pow(10, h - 1), p);
    DivUpper(num, p, p);
    NumDigitsUnique(num / p, h);
    DivModSplit(num, p);
  }

  // ---------------------------------------------------------------------------
  // blink with its memo

  /** Every entry of the memo is the un-memoised count, so a hit returns what
      recomputation would. */
  ghost predicate MemoValid(memo: map<(nat, nat), nat>)
  {
    forall key :: key in memo ==> memo[key] == Stones(key.0, key.1)
  }

  /** Recording a true count keeps the memo valid. */
  lemma MemoInsert(memo: map<(nat, nat), nat>, num: nat, depth: nat, count: nat)
    requires MemoValid(memo) && count == Stones(num, depth)
    ensures MemoValid(memo[(num, depth) := count])
  {
  }

  /** `blink`: the memo is consulted first, and every count computed is
      recorded before it is returned. */
  method Blink(num: nat, maxDepth: nat, memo: map<(nat, nat), nat>) returns (count: nat, updated: map<(nat, nat), nat>)
    requires MemoValid(memo)
    ensures count == Stones(num, maxDepth)
    ensures MemoValid(updated) && memo.Keys <= updated.Keys && (num, maxDepth) in updated
    decreases maxDepth
  {
    var numDigits := NumDigits(num);
    count := 0;
    if (num, maxDepth) in memo {
      return memo[(num, maxDepth)], memo;
    }
    if maxDepth == 0 {
      MemoInsert(memo, num, maxDepth, 1);
      return 1, memo[(num, maxDepth) := 1];
    }
    updated := memo;
    if num == 0 {
      var c;
      c, updated := Blink(1, maxDepth - 1, updated);
      count := count + c;
    } else if numDigits % 2 == 0 {
      var half := Pow(10, numDigits / 2);
      assert half == Half(num);
      var c1, c2;
      c1, updated := Blink(num / half, maxDepth - 1, updated);
      c2, updated := Blink(num % half, maxDepth - 1, updated);
      count := count + (c1 + c2);
    } else {
      var c;
      c, updated := Blink(num * 2024, maxDepth - 1, updated);
      count := count + c;
    }
    assert count == Stones(num, maxDepth);
    MemoInsert(updated, num, maxDepth, count);
    updated := updated[(num, maxDepth) := count];
  }

  // ---------------------------------------------------------------------------
  // part_one and part_two

  /** One piece of the input as a `u32` stone. */
  function Stone(piece: string): Outcome<nat, Fault>
  {
    match ParseUnsigned(piece, U32_MAX)
    case None => Panic(BadStone(piece))
    case Some(n) => Ok(n)
  }

  /** The stones of the input: newlines removed, split at every space, each
      piece a `u32`, or the first piece that is not. */
  function ParseStones(pieces: seq<string>): (r: Outcome<seq<nat>, Fault>)
    ensures r.Ok? <==> forall k :: 0 <= k < |pieces| ==> ParseUnsigned(pieces[k], U32_MAX).Some?
    ensures r.Ok? ==> |r.value| == |pieces|
    ensures r.Ok? ==> forall k :: 0 <= k < |pieces| ==> ParseUnsigned(pieces[k], U32_MAX) == Some(r.value[k])
  {
    CollectMeaning(pieces, Stone);
    Collect(pieces, Stone)
  }

  function Pieces(input: string): seq<string>
  {
    Split(RemoveAll(input, "\n"), ' ')
  }

  /** The input parsed into stones (`collect_vec` runs before any blink). */
  method ParseInput(input: string) returns (r: Outcome<seq<nat>, Fault>)
    ensures r == ParseStones(Pieces(input))
  {
    var pieces := Pieces(input);
    var v: seq<nat> := [];
    for t := 0 to |pieces|
      invariant Collect(pieces[..t], Stone) == Ok(v)
    {
      match ParseUnsigned(pieces[t], U32_MAX) {
        case None =>
          CollectPanic(pieces, t, Stone);
          return Panic(BadStone(pieces[t]));
        case Some(n) =>
          CollectStep(pieces, t, Stone);
          v := v + [n];
      }
    }
    assert pieces[..|pieces|] == pieces;
    return Ok(v);
  }

  /** The loop of `part_one` and `part_two`: every stone blinked depth times,
      one memo shared by all of them. */
  method CountAll(stones: seq<nat>, depth: nat) returns (count: nat)
    ensures count == Total(stones, depth)
  {
    count := 0;
    var memo: map<(nat, nat), nat> := map[];
    for k := 0 to |stones|
      invariant MemoValid(memo)
      invariant count == Total(stones[..k], depth)
    {
      assert stones[..k + 1][..k] == stones[..k];
      var c;
      c, memo := Blink(stones[k], depth, memo);
      count := count + c;
    }
    assert stones[..|stones|] == stones;
  }

  /** `part_one`: the number of stones after 25 blinks. */
  method PartOne(input: string) returns (r: Outcome<nat, Fault>)
    ensures ParseStones(Pieces(input)).Panic? ==> r == Panic(ParseStones(Pieces(input)).reason)
    ensures ParseStones(Pieces(input)).Ok? ==> r == Ok(|BlinkTimes(ParseStones(Pieces(input)).value, 25)|)
  {
    var v := ParseInput(input);
    if v.Panic? {
      return Panic(v.reason);
    }
    var count := CountAll(v.value, 25);
    StonesCount(v.value, 25);
    return Ok(count);
  }

  /** `part_two`: the number of stones after 75 blinks. */
  method PartTwo(input: string) returns (r: Outcome<nat, Fault>)
    ensures ParseStones(Pieces(input)).Panic? ==> r == Panic(ParseStones(Pieces(input)).reason)
    ensures ParseStones(Pieces(input)).Ok? ==> r == Ok(|BlinkTimes(ParseStones(Pieces(input)).value, 75)|)
  {
    var v := ParseInput(input);
    if v.Panic? {
      return Panic(v.reason);
    }
    var count := CountAll(v.value, 75);
    StonesCount(v.value, 75);
    return Ok(count);
  }
}
