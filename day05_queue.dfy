/** Day 5, "Print Queue": page ordering rules `a|b` (page a must come before
    page b) followed, after an empty line, by updates (comma-separated page
    lists). Part one adds up the middle page of every update that obeys all
    rules naming two of its pages; part two adds up, for every update that
    does not, the middle page after reordering it. */
module PrintQueue {
  import opened Common
  import opened Text

  /** Why the program panics: a token that is not a `u32`, a rule line
      without `|` (`split.get(1).unwrap()`), and the middle of an empty
      update (`update[mid / 2]`). */
  datatype Fault = BadNumber(token: string) | MissingPage(line: string) | EmptyUpdate

  /** (a, b): page a must be printed before page b. */
  type Rule = (nat, nat)

  // ---------------------------------------------------------------------------
  // parse_num and parse_vec

  /** `parse_num`: the text before and after the first `|`, each a `u32`. */
  function ParseRule(line: string): Outcome<Rule, Fault>
  {
    var split := Split(line, '|');
    if |split| < 2 then Panic(MissingPage(line))
    else
      match ParseUnsigned(split[0], U32_MAX)
      case None => Panic(BadNumber(split[0]))
      case Some(a) =>
        match ParseUnsigned(split[1], U32_MAX)
        case None => Panic(BadNumber(split[1]))
        case Some(b) => Ok((a, b))
  }

  /** A rule written out as `a|b` parses back to (a, b). */
  lemma ParseRuleRoundTrip(a: nat, b: nat)
    requires a <= U32_MAX && b <= U32_MAX
    ensures ParseRule(NatToString(a) + "|" + NatToString(b)) == Ok((a, b))
  {
    SplitAtBar(NatToString(a), NatToString(b));
    ParseNatToString(a, U32_MAX);
    ParseNatToString(b, U32_MAX);
  }

  lemma SplitAtBar(sa: string, sb: string)
    requires |sa| > 0 && AllDigits(sa) && |sb| > 0 && AllDigits(sb)
    ensures Split(sa + "|" + sb, '|') == [sa, sb]
  {
    DigitsPlain(sa, '|');
    DigitsPlain(sb, '|');
    SplitTwo(sa, sb, '|');
  }

  /** The pages of comma-separated pieces, each trimmed, or the first piece
      that is not a `u32`. */
  function ParsePages(pieces: seq<string>): Outcome<seq<nat>, Fault>
  {
    if pieces == [] then Ok([])
    else
      match ParsePages(pieces[..|pieces| - 1])
      case Panic(f) => Panic(f)
      case Ok(init) =>
        match ParseUnsigned(Trim(pieces[|pieces| - 1]), U32_MAX)
        case None => Panic(BadNumber(Trim(pieces[|pieces| - 1])))
        case Some(n) => Ok(init + [n])
  }

  /** `parse_vec`. */
  function ParseUpdate(line: string): Outcome<seq<nat>, Fault>
  {
    ParsePages(Split(line, ','))
  }

  /** Pages written out in decimal. */
  function Render(pages: seq<nat>): (r: seq<string>)
    ensures |r| == |pages|
  {
    seq(|pages|, i requires 0 <= i < |pages| => NatToString(pages[i]))
  }

  /** A non-empty update written out with commas parses back to its pages. */
  lemma ParseUpdateRoundTrip(pages: seq<nat>)
    requires |pages| >= 1 && forall i :: 0 <= i < |pages| ==> pages[i] <= U32_MAX
    ensures ParseUpdate(Join(Render(pages), ",")) == Ok(pages)
  {
    var r := Render(pages);
    forall k | 0 <= k < |r|
      ensures NoneOf(r[k], {','})
    {
      DigitsPlain(r[k], ',');
    }
    SplitJoin(r, ',');
    ParsePagesRendered(pages);
  }

  lemma {:induction false} ParsePagesRendered(pages: seq<nat>)
    requires forall i :: 0 <= i < |pages| ==> pages[i] <= U32_MAX
    ensures ParsePages(Render(pages)) == Ok(pages)
  {
    if pages != [] {
      var init, last := pages[..|pages| - 1], pages[|pages| - 1];
      assert pages == init + [last];
      RenderSnoc(init, last);
      ParsePagesRendered(init);
      ParseTrimmedNatToString(last, U32_MAX);
      var r := Render(init);
      assert (r + [NatToString(last)])[..|r|] == r;
      ParsePagesSnoc(r + [NatToString(last)], init, last);
    }
  }

  lemma RenderSnoc(init: seq<nat>, last: nat)
    ensures Render(init + [last]) == Render(init) + [NatToString(last)]
  {
  }

  lemma ParsePagesSnoc(pieces: seq<string>, init: seq<nat>, page: nat)
    requires pieces != [] && ParsePages(pieces[..|pieces| - 1]) == Ok(init)
    requires ParseUnsigned(Trim(pieces[|pieces| - 1]), U32_MAX) == Some(page)
    ensures ParsePages(pieces) == Ok(init + [page])
  {
  }

  // ---------------------------------------------------------------------------
  // follow_rules

  /** The position of the last occurrence of page: the index the loop over
      the update leaves in the map, since a later insert overwrites. */
  function LastIndex(update: seq<nat>, page: nat): (r: Option<nat>)
    ensures r.None? <==> page !in update
    ensures r.Some? ==> (r.value < |update| && update[r.value] == page
      && forall j :: r.value < j < |update| ==> update[j] != page)
  {
    if update == [] then None
    else if update[|update| - 1] == page then Some(|update| - 1)
    else LastIndex(update[..|update| - 1], page)
  }

  /** A rule naming a page the update lacks says nothing; otherwise its
      first page must come before its second. */
  predicate Obeys(update: seq<nat>, rule: Rule)
  {
    LastIndex(update, rule.0).Some? && LastIndex(update, rule.1).Some? ==>
      LastIndex(update, rule.0).value < LastIndex(update, rule.1).value
  }

  predicate Ordered(update: seq<nat>, rules: seq<Rule>)
  {
    forall k :: 0 <= k < |rules| ==> Obeys(update, rules[k])
  }

  /** What `follow_rules` returns: 0 for an update that breaks a rule, its
      middle page otherwise. */
  function Middle(update: seq<nat>, rules: seq<Rule>): Outcome<nat, Fault>
  {
    if !Ordered(update, rules) then Ok(0)
    else if update == [] then Panic(EmptyUpdate)
    else Ok(update[|update| / 2])
  }

  /** A rule naming a page that is not in the update changes nothing. */
  lemma IgnoresAbsent(update: seq<nat>, rules: seq<Rule>, rule: Rule)
    requires rule.0 !in update || rule.1 !in update
    ensures Ordered(update, rules + [rule]) == Ordered(update, rules)
  {
    assert forall k :: 0 <= k < |rules| ==> (rules + [rule])[k] == rules[k];
    assert (rules + [rule])[|rules|] == rule;
  }

  /** In an update without repeated pages a rule holds exactly when its
      first page occurs somewhere before its second, or one is missing. */
  lemma ObeysDistinct(update: seq<nat>, a: nat, b: nat)
    requires forall i, j :: 0 <= i < j < |update| ==> update[i] != update[j]
    ensures Obeys(update, (a, b)) <==>
      (a in update && b in update ==> exists i, j :: 0 <= i < j < |update| && update[i] == a && update[j] == b)
  {
    if a in update && b in update {
      var ia, ib := LastIndex(update, a).value, LastIndex(update, b).value;
      if exists i, j :: 0 <= i < j < |update| && update[i] == a && update[j] == b {
        var i, j :| 0 <= i < j < |update| && update[i] == a && update[j] == b;
        assert i == ia && j == ib;
      }
    }
  }

  /** The positions the first loop of `follow_rules` records: each page of
      the prefix mapped to its last index in it. */
  ghost predicate Positions(update: seq<nat>, n: nat, hashMap: map<nat, nat>)
    requires n <= |update|
  {
    (forall p :: p in hashMap <==> p in update[..n])
    && forall p :: p in hashMap ==> (hashMap[p] < n && update[hashMap[p]] == p
      && forall j :: hashMap[p] < j < n ==> update[j] != p)
  }

  /** The recorded position of a page is its LastIndex. */
  lemma PositionsAreLast(update: seq<nat>, hashMap: map<nat, nat>, p: nat)
    requires Positions(update, |update|, hashMap)
    ensures p in hashMap <==> LastIndex(update, p).Some?
    ensures p in hashMap ==> hashMap[p] == LastIndex(update, p).value
  {
    assert update[..|update|] == update;
  }

  /** `follow_rules`: record every page's position, then return 0 at the
      first rule whose pages both occur out of order, else the middle page. */
  method FollowRules(update: seq<nat>, rules: seq<Rule>) returns (r: Outcome<nat, Fault>)
    ensures r == Middle(update, rules)
  {
    var hashMap: map<nat, nat> := map[];
    for idx := 0 to |update|
      invariant Positions(update, idx, hashMap)
    {
      assert update[..idx + 1] == update[..idx] + [update[idx]];
      hashMap := hashMap[update[idx] := idx];
    }
    for k := 0 to |rules|
      invariant forall m :: 0 <= m < k ==> Obeys(update, rules[m])
    {
      var (a, b) := rules[k];
      PositionsAreLast(update, hashMap, a);
      PositionsAreLast(update, hashMap, b);
      if a in hashMap && b in hashMap && !(hashMap[a] < hashMap[b]) {
        assert !Obeys(update, rules[k]);
        return Ok(0);
      }
    }
    if |update| == 0 {
      return Panic(EmptyUpdate);
    }
    return Ok(update[|update| / 2]);
  }

  // ---------------------------------------------------------------------------
  // part_one and part_two

  /** The index of the first empty line, or the number of lines. */
  function FirstBlank(lines: seq<string>): (b: nat)
    ensures b <= |lines| && (b < |lines| ==> lines[b] == [])
    ensures forall k :: 0 <= k < b ==> lines[k] != []
  {
    if lines == [] then 0
    else if lines[0] == [] then 0
    else
      var b := FirstBlank(lines[1..]);
      assert forall k :: 1 <= k < 1 + b ==> lines[k] == lines[1..][k - 1];
      1 + b
  }

  lemma {:induction false} FirstBlankAt(lines: seq<string>, l: nat)
    requires l < |lines| && lines[l] == [] && forall k :: 0 <= k < l ==> lines[k] != []
    ensures FirstBlank(lines) == l
  {
  }

  /** The rules of the rule lines, in order, or the first line's fault. */
  function ParseRules(lines: seq<string>): Outcome<seq<Rule>, Fault>
  {
    if lines == [] then Ok([])
    else
      match ParseRules(lines[..|lines| - 1])
      case Panic(f) => Panic(f)
      case Ok(init) =>
        match ParseRule(lines[|lines| - 1])
        case Panic(f) => Panic(f)
        case Ok(rule) => Ok(init + [rule])
  }

  lemma {:induction false} ParseRulesPanic(lines: seq<string>, l: nat)
    requires l < |lines| && ParseRules(lines[..l]).Ok? && ParseRule(lines[l]).Panic?
    ensures ParseRules(lines) == Panic(ParseRule(lines[l]).reason)
    decreases |lines|
  {
    if l < |lines| - 1 {
      var init := lines[..|lines| - 1];
      assert init[..l] == lines[..l];
      ParseRulesPanic(init, l);
    } else {
      assert lines[..|lines| - 1] == lines[..l];
    }
  }

  /** What one update adds: in part one its `follow_rules` value; in part
      two, only for an update where that value is 0, the middle page of the
      reordered update, which `reorder` stands for. */
  function UpdateValue(update: seq<nat>, rules: seq<Rule>, partTwo: bool, reorder: (seq<nat>, seq<Rule>) -> nat): Outcome<nat, Fault>
  {
    match Middle(update, rules)
    case Panic(f) => Panic(f)
    case Ok(v) => if !partTwo then Ok(v) else if v == 0 then Ok(reorder(update, rules)) else Ok(0)
  }

  /** What one non-empty update line adds, or its fault. */
  function LineValue(line: string, rules: seq<Rule>, partTwo: bool, reorder: (seq<nat>, seq<Rule>) -> nat): Outcome<nat, Fault>
  {
    match ParseUpdate(line)
    case Panic(f) => Panic(f)
    case Ok(update) => UpdateValue(update, rules, partTwo, reorder)
  }

  /** LineValue for one set of rules and one part, as a value of its own. */
  function Measure(rules: seq<Rule>, partTwo: bool, reorder: (seq<nat>, seq<Rule>) -> nat): string -> Outcome<nat, Fault>
  {
    line => LineValue(line, rules, partTwo, reorder)
  }

  /** The sum of measure over the update lines, empty lines skipped, or the
      first fault. */
  function SumUpdates(lines: seq<string>, measure: string -> Outcome<nat, Fault>): Outcome<nat, Fault>
  {
    if lines == [] then Ok(0)
    else
      match SumUpdates(lines[..|lines| - 1], measure)
      case Panic(f) => Panic(f)
      case Ok(sum) =>
        var line := lines[|lines| - 1];
        if line == [] then Ok(sum)
        else
          match measure(line)
          case Panic(f) => Panic(f)
          case Ok(v) => Ok(sum + v)
  }

  /** Once a prefix of the update lines has failed, the whole run fails
      with the same fault. */
  lemma {:induction false} SumUpdatesPanic(lines: seq<string>, l: nat, measure: string -> Outcome<nat, Fault>, f: Fault)
    requires l < |lines| && SumUpdates(lines[..l], measure).Ok?
    requires SumUpdates(lines[..l + 1], measure) == Panic(f)
    ensures SumUpdates(lines, measure) == Panic(f)
    decreases |lines|
  {
    if l < |lines| - 1 {
      var init := lines[..|lines| - 1];
      assert init[..l] == lines[..l] && init[..l + 1] == lines[..l + 1];
      SumUpdatesPanic(init, l, measure, f);
    } else {
      assert lines[..l + 1] == lines;
    }
  }

  /** One more update line after the first empty line at b: an empty one
      adds nothing; any other either adds its value to the sum so far or
      makes its fault the fault of all the update lines. */
  lemma SumUpdatesStep(lines: seq<string>, b: nat, l: nat, measure: string -> Outcome<nat, Fault>, count: nat)
    requires b < l < |lines|
    requires SumUpdates(lines[b + 1..l], measure) == Ok(count)
    ensures lines[l] == [] ==> SumUpdates(lines[b + 1..l + 1], measure) == Ok(count)
    ensures lines[l] != [] && measure(lines[l]).Ok? ==>
      SumUpdates(lines[b + 1..l + 1], measure) == Ok(count + measure(lines[l]).value)
    ensures lines[l] != [] && measure(lines[l]).Panic? ==>
      SumUpdates(lines[b + 1..], measure) == Panic(measure(lines[l]).reason)
  {
    var u := lines[b + 1..l + 1];
    assert u[..|u| - 1] == lines[b + 1..l] && u[|u| - 1] == lines[l];
    var rest := lines[b + 1..];
    assert rest[..l - b - 1] == lines[b + 1..l] && rest[..l - b] == u;
    if lines[l] != [] && measure(lines[l]).Panic? {
      SumUpdatesPanic(rest, l - b - 1, measure, measure(lines[l]).reason);
    }
  }

  /** The body of the update branch: `parse_vec`, then `follow_rules`, then
      in part two the reordering of a rejected update. */
  method MeasureUpdate(line: string, rules: seq<Rule>, partTwo: bool, reorder: (seq<nat>, seq<Rule>) -> nat) returns (r: Outcome<nat, Fault>)
    ensures r == LineValue(line, rules, partTwo, reorder)
  {
    var pages := ParseUpdate(line);
    if pages.Panic? {
      return Panic(pages.reason);
    }
    var val := FollowRules(pages.value, rules);
    if val.Panic? {
      return Panic(val.reason);
    }
    if !partTwo {
      return Ok(val.value);
    } else if val.value == 0 {
      return Ok(reorder(pages.value, rules));
    }
    return Ok(0);
  }

  /** The answer the input's layout calls for: the lines before the first
      empty one are rules, and every later non-empty line is an update
      measured against all of them. */
  function PageTotal(lines: seq<string>, partTwo: bool, reorder: (seq<nat>, seq<Rule>) -> nat): Outcome<nat, Fault>
  {
    var b := FirstBlank(lines);
    match ParseRules(lines[..b])
    case Panic(f) => Panic(f)
    case Ok(rules) => if b == |lines| then Ok(0) else SumUpdates(lines[b + 1..], Measure(rules, partTwo, reorder))
  }

  /** The loop shared by `part_one` and `part_two`: a `start` flag set by the
      first empty line, rules pushed before it, update values added after. */
  method ScanLines(lines: seq<string>, partTwo: bool, reorder: (seq<nat>, seq<Rule>) -> nat) returns (r: Outcome<nat, Fault>)
    ensures r == PageTotal(lines, partTwo, reorder)
  {
    var rules: seq<Rule> := [];
    var start := false;
    var count := 0;
    ghost var b := 0;
    for l := 0 to |lines|
      invariant Scanned(lines, l, partTwo, reorder, start, b, rules, count)
    {
      var fault;
      fault, start, rules, count, b := ScanStep(lines, l, partTwo, reorder, start, b, rules, count);
      if fault.Some? {
        return Panic(fault.value);
      }
    }
    if !start {
      assert lines[..|lines|] == lines;
      NoUpdates(lines, rules, partTwo, reorder);
      return Ok(0);
    }
    assert lines[b + 1..|lines|] == lines[b + 1..];
    WithUpdates(lines, b, rules, partTwo, reorder);
    return Ok(count);
  }

  /** The state of the loop after the first l lines: before the first empty
      line, all rules so far and nothing counted; after it (at b), the rules
      before it and the sum over the update lines read so far. */
  ghost predicate Scanned(lines: seq<string>, l: nat, partTwo: bool, reorder: (seq<nat>, seq<Rule>) -> nat,
                          start: bool, b: nat, rules: seq<Rule>, count: nat)
  {
    l <= |lines| &&
    (!start ==> (forall k :: 0 <= k < l ==> lines[k] != []) && ParseRules(lines[..l]) == Ok(rules) && count == 0) &&
    (start ==> (b < l && FirstBlank(lines) == b && ParseRules(lines[..b]) == Ok(rules)
      && SumUpdates(lines[b + 1..l], Measure(rules, partTwo, reorder)) == Ok(count)))
  }

  /** The body of the loop over the lines: an empty line sets `start`; a
      line after it is an update, a line before it a rule. A fault is the
      fault of the whole input. */
  method ScanStep(lines: seq<string>, l: nat, partTwo: bool, reorder: (seq<nat>, seq<Rule>) -> nat,
                  start: bool, ghost b: nat, rules: seq<Rule>, count: nat)
    returns (fault: Option<Fault>, start': bool, rules': seq<Rule>, count': nat, ghost b': nat)
    requires l < |lines| && Scanned(lines, l, partTwo, reorder, start, b, rules, count)
    ensures fault.Some? ==> PageTotal(lines, partTwo, reorder) == Panic(fault.value)
    ensures fault.None? ==> Scanned(lines, l + 1, partTwo, reorder, start', b', rules', count')
  {
    fault, start', rules', count', b' := None, start, rules, count, b;
    var line := lines[l];
    if line == [] {
      if !start {
        FirstBlankAt(lines, l);
        b' := l;
        NoUpdatesYet(lines, l, Measure(rules, partTwo, reorder));
      } else {
        SumUpdatesStep(lines, b, l, Measure(rules, partTwo, reorder), count);
      }
      start' := true;
    } else if start {
      var val := UpdateStep(lines, b, l, rules, partTwo, reorder, count);
      if val.Panic? {
        fault := Some(val.reason);
      } else {
        count' := val.value;
      }
    } else {
      var next := RuleStep(lines, l, rules);
      if next.Panic? {
        fault := Some(next.reason);
      } else {
        rules' := next.value;
      }
    }
  }

  lemma NoUpdatesYet(lines: seq<string>, l: nat, measure: string -> Outcome<nat, Fault>)
    requires l < |lines|
    ensures SumUpdates(lines[l + 1..l + 1], measure) == Ok(0)
  {
    assert lines[l + 1..l + 1] == [];
  }

  /** A non-empty line after the first empty line at b: its value added to
      the count, or the fault of the whole input. */
  method UpdateStep(lines: seq<string>, ghost b: nat, l: nat, rules: seq<Rule>, partTwo: bool, reorder: (seq<nat>, seq<Rule>) -> nat, count: nat)
    returns (r: Outcome<nat, Fault>)
    requires b < l < |lines| && lines[l] != [] && FirstBlank(lines) == b && ParseRules(lines[..b]) == Ok(rules)
    requires SumUpdates(lines[b + 1..l], Measure(rules, partTwo, reorder)) == Ok(count)
    ensures r.Ok? ==> SumUpdates(lines[b + 1..l + 1], Measure(rules, partTwo, reorder)) == r
    ensures r.Panic? ==> PageTotal(lines, partTwo, reorder) == r
  {
    SumUpdatesStep(lines, b, l, Measure(rules, partTwo, reorder), count);
    WithUpdates(lines, b, rules, partTwo, reorder);
    var val := MeasureUpdate(lines[l], rules, partTwo, reorder);
    assert val == Measure(rules, partTwo, reorder)(lines[l]);
    if val.Panic? {
      return val;
    }
    return Ok(count + val.value);
  }

  /** A non-empty line before the first empty line: the rules with its rule
      pushed, or the fault of the whole input. */
  method RuleStep(lines: seq<string>, l: nat, rules: seq<Rule>) returns (r: Outcome<seq<Rule>, Fault>)
    requires l < |lines| && (forall k :: 0 <= k <= l ==> lines[k] != []) && ParseRules(lines[..l]) == Ok(rules)
    ensures r.Ok? ==> ParseRules(lines[..l + 1]) == r
    ensures r.Panic? ==> forall partTwo: bool, reorder: (seq<nat>, seq<Rule>) -> nat ::
      PageTotal(lines, partTwo, reorder) == Panic(r.reason)
  {
    var v := ParseRule(lines[l]);
    if v.Panic? {
      RuleLinePanic(lines, l);
      return Panic(v.reason);
    }
    ParseRulesSnoc(lines, l, rules, v.value);
    return Ok(rules + [v.value]);
  }

  lemma ParseRulesSnoc(lines: seq<string>, l: nat, rules: seq<Rule>, rule: Rule)
    requires l < |lines| && ParseRules(lines[..l]) == Ok(rules) && ParseRule(lines[l]) == Ok(rule)
    ensures ParseRules(lines[..l + 1]) == Ok(rules + [rule])
  {
    assert lines[..l + 1][..l] == lines[..l];
  }

  /** Input without an empty line is all rules and adds up to 0. */
  lemma NoUpdates(lines: seq<string>, rules: seq<Rule>, partTwo: bool, reorder: (seq<nat>, seq<Rule>) -> nat)
    requires (forall k :: 0 <= k < |lines| ==> lines[k] != []) && ParseRules(lines) == Ok(rules)
    ensures PageTotal(lines, partTwo, reorder) == Ok(0)
  {
    assert lines[..|lines|] == lines;
  }

  /** With an empty line at b and good rules before it, the answer is the
      sum over the lines after it. */
  lemma WithUpdates(lines: seq<string>, b: nat, rules: seq<Rule>, partTwo: bool, reorder: (seq<nat>, seq<Rule>) -> nat)
    requires b < |lines| && FirstBlank(lines) == b && ParseRules(lines[..b]) == Ok(rules)
    ensures PageTotal(lines, partTwo, reorder) == SumUpdates(lines[b + 1..], Measure(rules, partTwo, reorder))
  {
  }

  /** A bad rule line before the first empty line is the program's fault. */
  lemma RuleLinePanic(lines: seq<string>, l: nat)
    requires l < |lines| && (forall k :: 0 <= k <= l ==> lines[k] != [])
    requires ParseRules(lines[..l]).Ok? && ParseRule(lines[l]).Panic?
    ensures forall partTwo: bool, reorder: (seq<nat>, seq<Rule>) -> nat ::
      PageTotal(lines, partTwo, reorder) == Panic(ParseRule(lines[l]).reason)
  {
    var b := FirstBlank(lines);
    var pre := lines[..b];
    assert pre[..l] == lines[..l] && pre[l] == lines[l];
    ParseRulesPanic(pre, l);
  }

  /** `part_one`: the middle pages of the updates in the right order. */
  method PartOne(input: string) returns (r: Outcome<nat, Fault>)
    ensures r == PageTotal(Lines(input), false, (u, rules) => 0)
  {
    r := ScanLines(Lines(input), false, (u, rules) => 0);
  }

  /** `part_two`: the middle pages of the other updates once reordered;
      `reorder` stands for `get_unsafe_order_middle`. */
  method PartTwo(input: string, reorder: (seq<nat>, seq<Rule>) -> nat) returns (r: Outcome<nat, Fault>)
    ensures r == PageTotal(Lines(input), true, reorder)
  {
    r := ScanLines(Lines(input), true, reorder);
  }
}
