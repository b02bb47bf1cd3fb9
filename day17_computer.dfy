/** The three-register, 3-bit-opcode computer: the decoder of a
    `Program: o,a,o,a,...` line, the interpreter `run`, and the digit-by-digit
    (base 8) search for a seed of register A that makes the program print
    itself. */
module ChronospatialComputer {
  import opened Common
  import opened Text

  /** An operand as parsed (`u8`). */
  type Byte = x: nat | x < 256

  /** A decoded instruction. `Jnz` carries its operand as a jump target: an
      index into the DECODED instruction list. */
  datatype Instruction =
    | Adv(operand: Byte)
    | Bxl(operand: Byte)
    | Bst(operand: Byte)
    | Jnz(operand: Byte)
    | Bxc(operand: Byte)
    | Out(operand: Byte)
    | Bdv(operand: Byte)
    | Cdv(operand: Byte)

  /** Why a run of the program stops early. All but `OutOfFuel` are panics of
      the program; `OutOfFuel` means the step budget given to the model ran out
      (the program itself has no such bound). */
  datatype Fault =
    | MissingLine
    | MalformedNumber
    | InvalidOpcode
    | InvalidComboOperand(op: Byte)
    | ShiftOverflow(shift: nat)
    | OutOfFuel

  /** The register file, the instruction index and the output so far. */
  datatype Machine = Machine(a: nat, b: nat, c: nat, ip: nat, out: seq<nat>)

  function Opcode(i: Instruction): (op: nat)
    ensures op < 8
  {
    match i
    case Adv(_) => 0
    case Bxl(_) => 1
    case Bst(_) => 2
    case Jnz(_) => 3
    case Bxc(_) => 4
    case Out(_) => 5
    case Bdv(_) => 6
    case Cdv(_) => 7
  }

  // ---------------------------------------------------------------------------
  // Decoder

  /** Decodes one `opcode,operand` pair of tokens: the operand must parse as a
      `u8`, the opcode as a `u64`, and the opcode token must be exactly one of
      "0".."7". */
  function DecodePair(opcode: string, operand: string): (r: Outcome<Instruction, Fault>)
    ensures r.Ok? ==> opcode == NatToString(Opcode(r.value))
    ensures r.Ok? ==> ParseUnsigned(operand, 255) == Some(r.value.operand)
    ensures r.Panic? ==> r.reason == MalformedNumber || r.reason == InvalidOpcode
  {
    match ParseUnsigned(operand, 255)
    case None => Panic(MalformedNumber)
    case Some(o) =>
      if ParseUnsigned(opcode, U64_MAX).None? then Panic(MalformedNumber)
      else if opcode == "0" then Ok(Adv(o))
      else if opcode == "1" then Ok(Bxl(o))
      else if opcode == "2" then Ok(Bst(o))
      else if opcode == "3" then Ok(Jnz(o))
      else if opcode == "4" then Ok(Bxc(o))
      else if opcode == "5" then Ok(Out(o))
      else if opcode == "6" then Ok(Bdv(o))
      else if opcode == "7" then Ok(Cdv(o))
      else Panic(InvalidOpcode)
  }

  /** Decodes the tokens two at a time, left to right; an odd trailing token is
      dropped (as `tuples()` drops it). The first bad pair decides the panic. */
  function DecodeTokens(tokens: seq<string>): Outcome<seq<Instruction>, Fault>
  {
    if |tokens| < 2 then Ok([])
    else
      match DecodePair(tokens[0], tokens[1])
      case Panic(f) => Panic(f)
      case Ok(i) =>
        match DecodeTokens(tokens[2..])
        case Panic(f) => Panic(f)
        case Ok(rest) => Ok([i] + rest)
  }

  /** The raw number list of a decoded program: opcode, operand, opcode, ... */
  function Encode(ins: seq<Instruction>): seq<nat>
  {
    if ins == [] then [] else [Opcode(ins[0]), ins[0].operand] + Encode(ins[1..])
  }

  /** The raw list is twice as long as the decoded list and holds the opcode and
      operand of instruction k at positions 2k and 2k+1. */
  lemma {:induction false} EncodeLayout(ins: seq<Instruction>, k: nat)
    requires k < |ins|
    ensures |Encode(ins)| == 2 * |ins|
    ensures Encode(ins)[2 * k] == Opcode(ins[k])
    ensures Encode(ins)[2 * k + 1] == ins[k].operand
  {
    EncodeLength(ins);
    if k > 0 {
      EncodeLayout(ins[1..], k - 1);
    }
  }

  lemma {:induction false} EncodeLength(ins: seq<Instruction>)
    ensures |Encode(ins)| == 2 * |ins|
  {
    if ins != [] {
      EncodeLength(ins[1..]);
    }
  }

  function ProgramTokens(line: string): seq<string>
  {
    Split(RemoveAll(line, "Program: "), ',')
  }

  /** `parse_instructions` as a function: the raw list and the decoded list. */
  function ParseProgram(line: string): Outcome<(seq<nat>, seq<Instruction>), Fault>
  {
    match DecodeTokens(ProgramTokens(line))
    case Panic(f) => Panic(f)
    case Ok(ins) => Ok((Encode(ins), ins))
  }

  /** `parse_instructions`: strips "Program: ", splits at commas and decodes the
      pairs, pushing each pair's numbers onto the raw list as it goes. */
  method ParseInstructions(line: string) returns (r: Outcome<(seq<nat>, seq<Instruction>), Fault>)
    ensures r == ParseProgram(line)
    ensures r.Ok? ==> |r.value.0| == 2 * |r.value.1|
  {
    r := DecodeLoop(ProgramTokens(line));
    if r.Ok? {
      EncodeLength(r.value.1);
    }
  }

  /** The `tuples().map(...)` loop over the tokens. */
  method DecodeLoop(tokens: seq<string>) returns (r: Outcome<(seq<nat>, seq<Instruction>), Fault>)
    ensures r == match DecodeTokens(tokens)
                 case Panic(f) => Panic(f)
                 case Ok(ins) => Ok((Encode(ins), ins))
  {
    var raw: seq<nat> := [];
    var ins: seq<Instruction> := [];
    var k := 0;
    ContinueEmpty(tokens);
    while k + 1 < |tokens|
      invariant k <= |tokens|
      invariant raw == Encode(ins)
      invariant DecodeTokens(tokens) == Continue(ins, DecodeTokens(tokens[k..]))
      decreases |tokens| - k
    {
      var d := DecodePair(tokens[k], tokens[k + 1]);
      ContinueStep(tokens, k, ins);
      if d.Panic? {
        return Panic(d.reason);
      }
      EncodeAppend(ins, d.value);
      raw := raw + [Opcode(d.value), d.value.operand];
      ins := ins + [d.value];
      k := k + 2;
    }
    assert DecodeTokens(tokens[k..]) == Ok([]);
    assert ins + [] == ins;
    r := Ok((raw, ins));
  }

  /** The decoded list so far followed by what the rest of the tokens decode to. */
  function Continue(ins: seq<Instruction>, rest: Outcome<seq<Instruction>, Fault>): Outcome<seq<Instruction>, Fault>
  {
    match rest
    case Panic(f) => Panic(f)
    case Ok(more) => Ok(ins + more)
  }

  lemma ContinueEmpty(tokens: seq<string>)
    ensures DecodeTokens(tokens) == Continue([], DecodeTokens(tokens[0..]))
  {
    assert tokens[0..] == tokens;
    if DecodeTokens(tokens).Ok? {
      assert [] + DecodeTokens(tokens).value == DecodeTokens(tokens).value;
    }
  }

  /** Decoding one more pair moves it from the rest to the decoded list. */
  lemma ContinueStep(tokens: seq<string>, k: nat, ins: seq<Instruction>)
    requires k + 1 < |tokens|
    ensures var d := DecodePair(tokens[k], tokens[k + 1]);
      Continue(ins, DecodeTokens(tokens[k..])) ==
        if d.Panic? then Panic(d.reason) else Continue(ins + [d.value], DecodeTokens(tokens[k + 2..]))
  {
    assert tokens[k..][2..] == tokens[k + 2..];
    assert tokens[k..][0] == tokens[k] && tokens[k..][1] == tokens[k + 1];
    var d := DecodePair(tokens[k], tokens[k + 1]);
    if d.Ok? && DecodeTokens(tokens[k + 2..]).Ok? {
      var more := DecodeTokens(tokens[k + 2..]).value;
      assert ins + ([d.value] + more) == (ins + [d.value]) + more;
    }
  }

  lemma {:induction false} EncodeAppend(ins: seq<Instruction>, i: Instruction)
    ensures Encode(ins + [i]) == Encode(ins) + [Opcode(i), i.operand]
  {
    if ins == [] {
      assert [i][1..] == [];
    } else {
      assert (ins + [i])[1..] == ins[1..] + [i];
      EncodeAppend(ins[1..], i);
    }
  }

  /** The textual form of a program: its raw numbers joined by commas. */
  function Render(ins: seq<Instruction>): string
  {
    Join(Numerals(Encode(ins)), ",")
  }

  function Numerals(s: seq<nat>): (r: seq<string>)
    ensures |r| == |s|
    ensures forall i :: 0 <= i < |s| ==> r[i] == NatToString(s[i])
  {
    seq(|s|, i requires 0 <= i < |s| => NatToString(s[i]))
  }

  /** Decoding the rendered program line gives back the raw list and the
      instructions. */
  lemma ParseRender(ins: seq<Instruction>)
    ensures ParseProgram("Program: " + Render(ins)) == Ok((Encode(ins), ins))
  {
    var body := Render(ins);
    RemoveProgramPrefix(ins);
    assert ProgramTokens("Program: " + body) == Split(body, ',');
    var pieces := Numerals(Encode(ins));
    if ins == [] {
      assert body == [];
      assert Split(body, ',') == [[]];
    } else {
      EncodeLength(ins);
      forall i | 0 <= i < |pieces| ensures NoneOf(pieces[i], {','}) {
        assert AllDigits(pieces[i]);
      }
      SplitJoin(pieces, ',');
    }
    DecodeNumerals(ins);
  }

  lemma RemoveProgramPrefix(ins: seq<Instruction>)
    ensures RemoveAll("Program: " + Render(ins), "Program: ") == Render(ins)
  {
    var pat := "Program: ";
    var body := Render(ins);
    assert ("Program: " + body)[..|pat|] == pat;
    assert ("Program: " + body)[|pat|..] == body;
    RenderChars(ins);
    forall i: nat ensures !OccursAt(body, pat, i) {
      if i + |pat| <= |body| {
        assert body[i..i + |pat|][0] == body[i];
      }
    }
    RemoveAllAbsent(body, pat);
  }

  /** A rendered program holds only digits and commas. */
  lemma RenderChars(ins: seq<Instruction>)
    ensures forall i :: 0 <= i < |Render(ins)| ==> IsDigit(Render(ins)[i]) || Render(ins)[i] == ','
  {
    var pieces := Numerals(Encode(ins));
    JoinChars(pieces, ',');
  }

  lemma {:induction false} JoinChars(pieces: seq<string>, sep: char)
    requires forall i :: 0 <= i < |pieces| ==> AllDigits(pieces[i])
    ensures forall i :: 0 <= i < |Join(pieces, [sep])| ==> IsDigit(Join(pieces, [sep])[i]) || Join(pieces, [sep])[i] == sep
  {
    if |pieces| > 1 {
      JoinChars(pieces[1..], sep);
      var rest := Join(pieces[1..], [sep]);
      assert Join(pieces, [sep]) == pieces[0] + [sep] + rest;
      assert forall i :: 0 <= i < |pieces[0]| ==> IsDigit(pieces[0][i]);
    }
  }

  /** One instruction's opcode and operand, rendered in decimal, decode back
      to it. */
  lemma DecodeRendered(i: Instruction)
    ensures DecodePair(NatToString(Opcode(i)), NatToString(i.operand)) == Ok(i)
  {
    ParseNatToString(i.operand, 255);
    ParseNatToString(Opcode(i), U64_MAX);
  }

  lemma {:induction false} DecodeNumerals(ins: seq<Instruction>)
    ensures DecodeTokens(Numerals(Encode(ins))) == Ok(ins)
  {
    var tokens := Numerals(Encode(ins));
    EncodeLength(ins);
    if ins != [] {
      var i := ins[0];
      assert Encode(ins) == [Opcode(i), i.operand] + Encode(ins[1..]);
      assert tokens[0] == NatToString(Opcode(i));
      assert tokens[1] == NatToString(i.operand);
      assert tokens[2..] == Numerals(Encode(ins[1..]));
      DecodeRendered(i);
      DecodeNumerals(ins[1..]);
      assert [i] + ins[1..] == ins;
    }
  }

  /** `parse_digits_from_string`: the digits of the line, read as one `u64`;
      no digits, or a value over `u64::MAX`, panics. */
  function ParseDigits(s: string): (r: Outcome<nat, Fault>)
    ensures r.Ok? ==> r.value <= U64_MAX
    ensures r.Ok? <==> Digits(s) != [] && DecimalValue(Digits(s)) <= U64_MAX
    ensures r.Ok? ==> r.value == DecimalValue(Digits(s))
  {
    match ParseUnsigned(Digits(s), U64_MAX)
    case None => Panic(MalformedNumber)
    case Some(v) => Ok(v)
  }

  function Digits(s: string): (d: string)
    ensures AllDigits(d) && |d| <= |s|
  {
    if s == [] then []
    else if IsDigit(s[0]) then [s[0]] + Digits(s[1..])
    else Digits(s[1..])
  }

  // ---------------------------------------------------------------------------
  // Interpreter

  /** Exclusive-or of two naturals, bit by bit. */
  function Xor(x: nat, y: nat): nat
    decreases x + y
  {
    if x == 0 then y
    else if y == 0 then x
    else 2 * Xor(x / 2, y / 2) + (if x % 2 == y % 2 then 0 else 1)
  }

  /** Exclusive-or never needs more bits than its arguments. */
  lemma {:induction false} XorBounded(x: nat, y: nat, bits: nat)
    requires x < Pow(2, bits) && y < Pow(2, bits)
    ensures Xor(x, y) < Pow(2, bits)
    decreases bits
  {
    if x != 0 && y != 0 {
      assert bits > 0;
      XorBounded(x / 2, y / 2, bits - 1);
    }
  }

  /** `map_combo_operand`: 0..=3 stand for themselves, 4, 5, 6 for registers
      A, B and C; any other value panics. */
  function Combo(op: Byte, a: nat, b: nat, c: nat): (r: Outcome<nat, Fault>)
    ensures r.Ok? <==> op < 7
    ensures op < 4 ==> r == Ok(op)
    ensures op == 4 ==> r == Ok(a)
    ensures op == 5 ==> r == Ok(b)
    ensures op == 6 ==> r == Ok(c)
    ensures r.Panic? ==> r.reason == InvalidComboOperand(op)
  {
    if op <= 3 then Ok(op)
    else if op == 4 then Ok(a)
    else if op == 5 then Ok(b)
    else if op == 6 then Ok(c)
    else Panic(InvalidComboOperand(op))
  }

  /** `x / pow(2, n) as u64`. The literal 2 has type `i32`, so `pow` overflows
      (a panic in a debug build) for every n >= 31. */
  function DivPow(x: nat, n: nat): (r: Outcome<nat, Fault>)
    ensures r.Ok? <==> n < 31
    ensures r.Ok? ==> r.value <= x
  {
    if n >= 31 then Panic(ShiftOverflow(n))
    else
      DivAtMost(x, Pow(2, n));
      Ok(x / Pow(2, n))
  }

  /** Executes the instruction at `m.ip`. */
  function Step(prog: seq<Instruction>, m: Machine): (r: Outcome<Machine, Fault>)
    requires m.ip < |prog|
    // only OUT writes output, one value below 8; every other instruction leaves it
    ensures r.Ok? && prog[m.ip].Out? ==>
      |r.value.out| == |m.out| + 1 && r.value.out[..|m.out|] == m.out && r.value.out[|m.out|] < 8
    ensures r.Ok? && !prog[m.ip].Out? ==> r.value.out == m.out
    // JNZ jumps to its operand (a decoded index) when A is not zero; all else falls through
    ensures r.Ok? && prog[m.ip].Jnz? ==> r.value.ip == (if m.a != 0 then prog[m.ip].operand else m.ip + 1)
    ensures r.Ok? && !prog[m.ip].Jnz? ==> r.value.ip == m.ip + 1
    // A changes only under ADV and never grows; C changes only under CDV
    ensures r.Ok? && !prog[m.ip].Adv? ==> r.value.a == m.a
    ensures r.Ok? ==> r.value.a <= m.a
    ensures r.Ok? && !prog[m.ip].Cdv? ==> r.value.c == m.c
    ensures r.Ok? && (prog[m.ip].Adv? || prog[m.ip].Out? || prog[m.ip].Jnz? || prog[m.ip].Cdv?) ==>
      r.value.b == m.b
    // JNZ, BXL and BXC never fail
    ensures prog[m.ip].Jnz? || prog[m.ip].Bxl? || prog[m.ip].Bxc? ==> r.Ok?
  {
    var next := m.ip + 1;
    match prog[m.ip]
    case Adv(o) =>
      (match Combo(o, m.a, m.b, m.c)
       case Panic(f) => Panic(f)
       case Ok(n) =>
         match DivPow(m.a, n)
         case Panic(f) => Panic(f)
         case Ok(v) => Ok(m.(a := v, ip := next)))
    case Bxl(o) => Ok(m.(b := Xor(m.b, o), ip := next))
    case Bst(o) =>
      (match Combo(o, m.a, m.b, m.c)
       case Panic(f) => Panic(f)
       case Ok(v) => Ok(m.(b := v % 8, ip := next)))
    case Jnz(o) => Ok(m.(ip := if m.a != 0 then o else next))
    case Bxc(_) => Ok(m.(b := Xor(m.b, m.c), ip := next))
    case Out(o) =>
      (match Combo(o, m.a, m.b, m.c)
       case Panic(f) => Panic(f)
       case Ok(v) => Ok(m.(out := m.out + [v % 8], ip := next)))
    case Bdv(o) =>
      (match Combo(o, m.a, m.b, m.c)
       case Panic(f) => Panic(f)
       case Ok(n) =>
         match DivPow(m.a, n)
         case Panic(f) => Panic(f)
         case Ok(v) => Ok(m.(b := v, ip := next)))
    case Cdv(o) =>
      (match Combo(o, m.a, m.b, m.c)
       case Panic(f) => Panic(f)
       case Ok(n) =>
         match DivPow(m.a, n)
         case Panic(f) => Panic(f)
         case Ok(v) => Ok(m.(c := v, ip := next)))
  }

  /** The machine runs until the instruction index leaves the program, at most
      `fuel` steps. */
  function Exec(prog: seq<Instruction>, m: Machine, fuel: nat): Outcome<seq<nat>, Fault>
    decreases fuel
  {
    if m.ip >= |prog| then Ok(m.out)
    else if fuel == 0 then Panic(OutOfFuel)
    else
      match Step(prog, m)
      case Panic(f) => Panic(f)
      case Ok(m') => Exec(prog, m', fuel - 1)
  }

  /** The state at the start of `run`: B = C = 0, index 0, no output. */
  function Initial(seed: nat): Machine
  {
    Machine(seed, 0, 0, 0, [])
  }

  /** `run`: registers, instruction index and output buffer updated in a loop. */
  method Run(prog: seq<Instruction>, seed: nat, fuel: nat) returns (r: Outcome<seq<nat>, Fault>)
    ensures r == Exec(prog, Initial(seed), fuel)
    ensures prog == [] ==> r == Ok([])
  {
    var regA: nat, regB: nat, regC: nat := seed, 0, 0;
    var i: nat := 0;
    var out: seq<nat> := [];
    var left := fuel;
    while i < |prog|
      invariant Exec(prog, Initial(seed), fuel) == Exec(prog, Machine(regA, regB, regC, i, out), left)
      decreases left
    {
      if left == 0 {
        return Panic(OutOfFuel);
      }
      ghost var m := Machine(regA, regB, regC, i, out);
      var current := prog[i];
      i := i + 1;
      match current {
        case Adv(o) =>
          var n := Combo(o, regA, regB, regC);
          if n.Panic? { return Panic(n.reason); }
          var v := DivPow(regA, n.value);
          if v.Panic? { return Panic(v.reason); }
          regA := v.value;
        case Bxl(o) =>
          regB := Xor(regB, o);
        case Bst(o) =>
          var v := Combo(o, regA, regB, regC);
          if v.Panic? { return Panic(v.reason); }
          regB := v.value % 8;
        case Jnz(o) =>
          if regA != 0 {
            i := o;
          }
        case Bxc(_) =>
          regB := Xor(regB, regC);
        case Out(o) =>
          var v := Combo(o, regA, regB, regC);
          if v.Panic? { return Panic(v.reason); }
          out := out + [v.value % 8];
        case Bdv(o) =>
          var n := Combo(o, regA, regB, regC);
          if n.Panic? { return Panic(n.reason); }
          var v := DivPow(regA, n.value);
          if v.Panic? { return Panic(v.reason); }
          regB := v.value;
        case Cdv(o) =>
          var n := Combo(o, regA, regB, regC);
          if n.Panic? { return Panic(n.reason); }
          var v := DivPow(regA, n.value);
          if v.Panic? { return Panic(v.reason); }
          regC := v.value;
      }
      assert Step(prog, m) == Ok(Machine(regA, regB, regC, i, out));
      left := left - 1;
    }
    r := Ok(out);
  }

  /** Every value a run prints is below 8, and a run only ever appends to the
      output it started with. */
  lemma {:induction false} ExecOutput(prog: seq<Instruction>, m: Machine, fuel: nat)
    requires Exec(prog, m, fuel).Ok?
    ensures var out := Exec(prog, m, fuel).value;
      |m.out| <= |out| && out[..|m.out|] == m.out &&
      forall k :: |m.out| <= k < |out| ==> out[k] < 8
    decreases fuel
  {
    if m.ip < |prog| {
      var m' := Step(prog, m).value;
      ExecOutput(prog, m', fuel - 1);
      var out := Exec(prog, m, fuel).value;
      assert out[..|m'.out|][..|m.out|] == out[..|m.out|];
    }
  }

  /** More fuel never changes a run that finished (or panicked) within less. */
  lemma {:induction false} ExecFuelMonotone(prog: seq<Instruction>, m: Machine, fuel: nat, more: nat)
    requires Exec(prog, m, fuel) != Panic(OutOfFuel)
    requires fuel <= more
    ensures Exec(prog, m, more) == Exec(prog, m, fuel)
    decreases fuel
  {
    if m.ip < |prog| && Step(prog, m).Ok? {
      ExecFuelMonotone(prog, Step(prog, m).value, fuel - 1, more - 1);
    }
  }

  /** The registers fit in `u64`. */
  predicate Fits64(m: Machine)
  {
    m.a < Pow(2, 64) && m.b < Pow(2, 64) && m.c < Pow(2, 64)
  }

  lemma ByteFits64()
    ensures Pow(2, 64) > 255
  {
    PowAdd(2, 8, 56);
    assert Pow(2, 8) == 256;
  }

  /** No instruction takes a register out of `u64` range, so modelling the
      registers as unbounded naturals loses nothing. */
  lemma StepFits64(prog: seq<Instruction>, m: Machine)
    requires m.ip < |prog| && Fits64(m)
    requires Step(prog, m).Ok?
    ensures Fits64(Step(prog, m).value)
  {
    ByteFits64();
    match prog[m.ip]
    case Bxl(o) => XorBounded(m.b, o, 64);
    case Bxc(_) => XorBounded(m.b, m.c, 64);
    case Bst(o) =>
    case Adv(_) =>
    case Bdv(_) =>
    case Cdv(_) =>
    case Out(_) =>
    case Jnz(_) =>
  }

  // ---------------------------------------------------------------------------
  // part_one

  /** What `part_one` answers on the lines of its input: the first
      `unwrap` panics on no line, each parse passes on its panic, a missing
      fifth line gives None, and a run gives its panic or its output joined
      by commas. */
  function PartOneAnswer(lines: seq<string>, fuel: nat): Outcome<Option<string>, Fault>
  {
    if lines == [] then Panic(MissingLine)
    else match ParseDigits(lines[0])
      case Panic(f) => Panic(f)
      case Ok(a) =>
        if |lines| < 5 then Ok(None)
        else match ParseProgram(lines[4])
          case Panic(f) => Panic(f)
          case Ok(p) =>
            match Exec(p.1, Initial(a), fuel)
            case Panic(f) => Panic(f)
            case Ok(out) => Ok(Some(Join(Numerals(out), ",")))
  }

  /** `part_one`: register A from the digits of the first line, the program from
      the fifth line (None when there is none), the output joined by commas. */
  method PartOne(input: string, fuel: nat) returns (r: Outcome<Option<string>, Fault>)
    ensures var lines := Lines(input);
      r.Ok? && r.value.Some? ==>
        |lines| >= 5 && ParseDigits(lines[0]).Ok? && ParseProgram(lines[4]).Ok? &&
        var out := Exec(ParseProgram(lines[4]).value.1, Initial(ParseDigits(lines[0]).value), fuel);
        out.Ok? && r.value.value == Join(Numerals(out.value), ",")
    ensures var lines := Lines(input);
      r == Ok(None) <==> |lines| >= 1 && ParseDigits(lines[0]).Ok? && |lines| < 5
    ensures Lines(input) == [] ==> r == Panic(MissingLine)
    ensures r == PartOneAnswer(Lines(input), fuel)
  {
    var lines := Lines(input);
    if |lines| == 0 {
      return Panic(MissingLine);
    }
    var regA := ParseDigits(lines[0]);
    if regA.Panic? {
      return Panic(regA.reason);
    }
    if |lines| < 5 {
      return Ok(None);
    }
    var parsed := ParseInstructions(lines[4]);
    if parsed.Panic? {
      return Panic(parsed.reason);
    }
    var out := Run(parsed.value.1, regA.value, fuel);
    if out.Panic? {
      return Panic(out.reason);
    }
    r := Ok(Some(Join(Numerals(out.value), ",")));
  }

  // ---------------------------------------------------------------------------
  // part_two: the frontier search

  /** The seed `num` prints the last j+1 raw values. */
  predicate MatchesSuffix(prog: seq<Instruction>, raw: seq<nat>, j: nat, num: nat, fuel: nat)
    requires j < |raw|
  {
    var run := Exec(prog, Initial(num), fuel);
    run.Ok? && run.value == raw[|raw| - 1 - j..]
  }

  /** The eight candidates that share `num`'s leading base-8 digits: `k` in
      `0..=8` such that `(num * 8 + k) / 8 == num`, in increasing order. */
  function Children(num: nat): (c: seq<nat>)
    ensures |c| == 8
    ensures forall k :: 0 <= k < 8 ==> c[k] == num * 8 + k
    ensures forall x: nat :: x in c <==> x / 8 == num
  {
    var c := seq(8, k requires 0 <= k < 8 => num * 8 + k);
    forall x: nat ensures x in c <==> x / 8 == num {
      if x / 8 == num {
        assert x == c[x % 8];
      }
      if x in c {
        var k :| 0 <= k < 8 && c[k] == x;
        assert x == num * 8 + k;
      }
    }
    c
  }

  /** One pass over the frontier: each candidate is run, and those whose output
      equals the last j+1 raw values contribute their eight children to the next
      frontier (and, when the output is the whole raw list, their value to the
      minimum). A panicking run ends the search. */
  function PassFrom(prog: seq<Instruction>, raw: seq<nat>, j: nat, inputs: seq<nat>,
                    fuel: nat, next: seq<nat>, result: nat): Outcome<(seq<nat>, nat), Fault>
    requires j < |raw|
    decreases |inputs|
  {
    if inputs == [] then Ok((next, result))
    else
      var num := inputs[0];
      match Exec(prog, Initial(num), fuel)
      case Panic(f) => Panic(f)
      case Ok(out) =>
        if raw[|raw| - 1 - j..] == out then
          var result' := if |out| == |raw| then Min(result, num) else result;
          PassFrom(prog, raw, j, inputs[1..], fuel, next + Children(num), result')
        else
          PassFrom(prog, raw, j, inputs[1..], fuel, next, result)
  }

  function Min(x: nat, y: nat): nat
  {
    if x <= y then x else y
  }

  /** The passes j, j+1, ... up to the length of the raw list. */
  function SearchFrom(prog: seq<Instruction>, raw: seq<nat>, j: nat, inputs: seq<nat>,
                      result: nat, fuel: nat): Outcome<nat, Fault>
    decreases |raw| - j
  {
    if j >= |raw| then Ok(result)
    else
      match PassFrom(prog, raw, j, inputs, fuel, [], result)
      case Panic(f) => Panic(f)
      case Ok(p) => SearchFrom(prog, raw, j + 1, p.0, p.1, fuel)
  }

  function FirstFrontier(): seq<nat>
  {
    [0, 1, 2, 3, 4, 5, 6, 7]
  }

  /** `for k in 0..=8`: pushes the children of `num` onto `next`. */
  method PushChildren(num: nat, next: seq<nat>) returns (next': seq<nat>)
    ensures next' == next + Children(num)
  {
    next' := next;
    for k := 0 to 9
      invariant next' == next + Children(num)[..if k <= 8 then k else 8]
    {
      if (num * 8 + k) / 8 == num {
        assert Children(num)[..k + 1] == Children(num)[..k] + [num * 8 + k];
        next' := next' + [num * 8 + k];
      }
    }
    assert Children(num)[..8] == Children(num);
  }

  /** The body of `for j in 0..output_size`: runs every candidate of the
      frontier and collects the children of those that match. */
  method Pass(prog: seq<Instruction>, raw: seq<nat>, j: nat, inputs: seq<nat>, fuel: nat, result: nat)
    returns (r: Outcome<(seq<nat>, nat), Fault>)
    requires j < |raw|
    ensures r == PassFrom(prog, raw, j, inputs, fuel, [], result)
  {
    var next: seq<nat> := [];
    var res := result;
    var t := 0;
    assert inputs[0..] == inputs;
    while t < |inputs|
      invariant t <= |inputs|
      invariant PassFrom(prog, raw, j, inputs, fuel, [], result) == PassFrom(prog, raw, j, inputs[t..], fuel, next, res)
    {
      var num := inputs[t];
      assert inputs[t..][1..] == inputs[t + 1..];
      var out := Run(prog, num, fuel);
      if out.Panic? {
        return Panic(out.reason);
      }
      if raw[|raw| - 1 - j..] == out.value {
        if |out.value| == |raw| {
          res := Min(res, num);
        }
        next := PushChildren(num, next);
      }
      t := t + 1;
    }
    r := Ok((next, res));
  }

  /** The search of `part_two`, starting from the frontier 0..8 and the
      "no solution" value `u64::MAX`. */
  method SeedSearch(prog: seq<Instruction>, raw: seq<nat>, fuel: nat) returns (r: Outcome<nat, Fault>)
    requires |raw| == 2 * |prog|
    ensures r == SearchFrom(prog, raw, 0, FirstFrontier(), U64_MAX, fuel)
  {
    var result := U64_MAX;
    var inputs := FirstFrontier();
    var outputSize := |prog| * 2;
    for j := 0 to outputSize
      invariant SearchFrom(prog, raw, 0, FirstFrontier(), U64_MAX, fuel) == SearchFrom(prog, raw, j, inputs, result, fuel)
    {
      var p := Pass(prog, raw, j, inputs, fuel, result);
      if p.Panic? {
        return Panic(p.reason);
      }
      inputs, result := p.value.0, p.value.1;
    }
    r := Ok(result);
  }

  /** What `part_two` answers on the lines of its input: None without a
      fifth line, otherwise that line's parse panic or the seed search on
      its program. */
  function PartTwoAnswer(lines: seq<string>, fuel: nat): Outcome<Option<nat>, Fault>
  {
    if |lines| < 5 then Ok(None)
    else match ParseProgram(lines[4])
      case Panic(f) => Panic(f)
      case Ok(p) =>
        match SearchFrom(p.1, p.0, 0, FirstFrontier(), U64_MAX, fuel)
        case Panic(f) => Panic(f)
        case Ok(v) => Ok(Some(v))
  }

  /** `part_two`: the program of the fifth line (None when there is none), then
      the seed search. With a program line present the answer is always Some;
      `u64::MAX` stands for "no seed found". */
  method PartTwo(input: string, fuel: nat) returns (r: Outcome<Option<nat>, Fault>)
    ensures var lines := Lines(input);
      r == Ok(None) <==> |lines| < 5
    ensures var lines := Lines(input);
      r.Ok? && r.value.Some? ==>
        ParseProgram(lines[4]).Ok? &&
        var p := ParseProgram(lines[4]).value;
        Ok(r.value.value) == SearchFrom(p.1, p.0, 0, FirstFrontier(), U64_MAX, fuel)
    ensures r == PartTwoAnswer(Lines(input), fuel)
  {
    var lines := Lines(input);
    if |lines| < 5 {
      return Ok(None);
    }
    var parsed := ParseInstructions(lines[4]);
    if parsed.Panic? {
      return Panic(parsed.reason);
    }
    var result := SeedSearch(parsed.value.1, parsed.value.0, fuel);
    if result.Panic? {
      return Panic(result.reason);
    }
    r := Ok(Some(result.value));
  }

  // ---------------------------------------------------------------------------
  // What the search finds

  /** `x` with its last `m` base-8 digits dropped, that is `x / 8^m`. */
  function DropDigits(x: nat, m: nat): nat
  {
    if m == 0 then x else DropDigits(x / 8, m - 1)
  }

  /** Dropping m base-8 digits leaves nothing exactly when x is below 8^m. */
  lemma {:induction false} DropDigitsZero(x: nat, m: nat)
    ensures DropDigits(x, m) == 0 <==> x < Pow(8, m)
  {
    if m > 0 {
      DropDigitsZero(x / 8, m - 1);
    }
  }

  /** The seed survives every pass: it is in the last frontier and prints the
      whole raw list. */
  predicate Reconstructs(prog: seq<Instruction>, raw: seq<nat>, x: nat, fuel: nat)
  {
    raw != [] && InFrontier(prog, raw, |raw| - 1, x, fuel) && MatchesSuffix(prog, raw, |raw| - 1, x, fuel)
  }

  /** The seed fits the digit-wise reconstruction up to pass j: it has at most
      j+1 base-8 digits, and for each earlier pass j-m its leading digits then
      in play (all but the last m) print the last j-m+1 raw values. */
  predicate InFrontier(prog: seq<Instruction>, raw: seq<nat>, j: nat, x: nat, fuel: nat)
    requires j < |raw|
  {
    DropDigits(x, j + 1) == 0 &&
    forall m: nat :: 1 <= m <= j ==> MatchesSuffix(prog, raw, j - m, DropDigits(x, m), fuel)
  }

  /** A seed is in frontier j+1 exactly when its parent `x / 8` is in frontier j
      and the parent printed the last j+1 raw values. */
  lemma InFrontierStep(prog: seq<Instruction>, raw: seq<nat>, j: nat, x: nat, fuel: nat)
    requires j + 1 < |raw|
    ensures InFrontier(prog, raw, j + 1, x, fuel) <==>
      InFrontier(prog, raw, j, x / 8, fuel) && MatchesSuffix(prog, raw, j, x / 8, fuel)
  {
    if InFrontier(prog, raw, j, x / 8, fuel) && MatchesSuffix(prog, raw, j, x / 8, fuel) {
      forall m: nat | 1 <= m <= j + 1
        ensures MatchesSuffix(prog, raw, j + 1 - m, DropDigits(x, m), fuel)
      {
        assert DropDigits(x, m) == DropDigits(x / 8, m - 1);
      }
    }
    if InFrontier(prog, raw, j + 1, x, fuel) {
      assert DropDigits(x, 1) == x / 8;
      forall m: nat | 1 <= m <= j
        ensures MatchesSuffix(prog, raw, j - m, DropDigits(x / 8, m), fuel)
      {
        assert DropDigits(x, m + 1) == DropDigits(x / 8, m);
      }
    }
  }

  /** What one pass computes: the next frontier holds exactly the children of
      the candidates that matched, and the minimum only moves to a candidate
      whose output is the whole raw list (possible only in the last pass),
      and then to the smallest such candidate. */
  lemma {:induction false} PassFromSpec(prog: seq<Instruction>, raw: seq<nat>, j: nat, inputs: seq<nat>,
                                        fuel: nat, next: seq<nat>, result: nat)
    requires j < |raw|
    requires PassFrom(prog, raw, j, inputs, fuel, next, result).Ok?
    ensures var p := PassFrom(prog, raw, j, inputs, fuel, next, result).value;
      (forall x: nat :: x in p.0 <==> x in next || (x / 8 in inputs && MatchesSuffix(prog, raw, j, x / 8, fuel))) &&
      p.1 <= result &&
      (p.1 == result || Exec(prog, Initial(p.1), fuel) == Ok(raw)) &&
      (j + 1 == |raw| ==> forall x: nat :: x in inputs && MatchesSuffix(prog, raw, j, x, fuel) ==> p.1 <= x)
    decreases |inputs|
  {
    if inputs != [] {
      var num := inputs[0];
      var out := Exec(prog, Initial(num), fuel).value;
      var matched := raw[|raw| - 1 - j..] == out;
      var next' := if matched then next + Children(num) else next;
      var result' := if matched && |out| == |raw| then Min(result, num) else result;
      PassFromSpec(prog, raw, j, inputs[1..], fuel, next', result');
      assert forall x :: x in inputs <==> x == num || x in inputs[1..];
      if matched && |out| == |raw| {
        assert raw[|raw| - 1 - j..] == raw;
      }
    }
  }

  /** The passes from j on: the frontier stays the set of seeds that fit the
      reconstruction, and the result is either still the initial value or a seed
      whose run prints the whole raw list, no larger than any such seed in the
      last frontier. */
  lemma {:induction false} SearchFromSpec(prog: seq<Instruction>, raw: seq<nat>, j: nat, inputs: seq<nat>,
                                          result: nat, fuel: nat, start: nat)
    requires j < |raw|
    requires forall x: nat :: x in inputs <==> InFrontier(prog, raw, j, x, fuel)
    requires result == start || Exec(prog, Initial(result), fuel) == Ok(raw)
    requires result <= start
    requires SearchFrom(prog, raw, j, inputs, result, fuel).Ok?
    ensures var r := SearchFrom(prog, raw, j, inputs, result, fuel).value;
      (r == start || Exec(prog, Initial(r), fuel) == Ok(raw)) && r <= start &&
      forall x: nat :: Reconstructs(prog, raw, x, fuel) ==> r <= x
    decreases |raw| - j
  {
    var p := PassFrom(prog, raw, j, inputs, fuel, [], result).value;
    PassFromSpec(prog, raw, j, inputs, fuel, [], result);
    if j + 1 < |raw| {
      forall x: nat ensures x in p.0 <==> InFrontier(prog, raw, j + 1, x, fuel) {
        InFrontierStep(prog, raw, j, x, fuel);
      }
      SearchFromSpec(prog, raw, j + 1, p.0, p.1, fuel, start);
    }
  }

  /** What `part_two` promises: when the program is not empty and the search
      returns r, then r is u64::MAX or its run prints the program's own raw list,
      and r is no larger than any seed below 8^n (n the raw length) whose
      leading base-8 digits, taken n-1, n-2, ..., 0 digits short, each print the
      matching suffix of the raw list. An empty program gives u64::MAX. */
  lemma SeedSearchSpec(prog: seq<Instruction>, raw: seq<nat>, fuel: nat)
    requires SearchFrom(prog, raw, 0, FirstFrontier(), U64_MAX, fuel).Ok?
    ensures var r := SearchFrom(prog, raw, 0, FirstFrontier(), U64_MAX, fuel).value;
      (raw == [] ==> r == U64_MAX) &&
      (raw != [] ==>
        (r == U64_MAX || Exec(prog, Initial(r), fuel) == Ok(raw)) &&
        forall x: nat :: Reconstructs(prog, raw, x, fuel) ==> r <= x)
  {
    if raw != [] {
      forall x: nat ensures x in FirstFrontier() <==> InFrontier(prog, raw, 0, x, fuel) {
        FirstFrontierIff(prog, raw, x, fuel);
      }
      SearchFromSpec(prog, raw, 0, FirstFrontier(), U64_MAX, fuel, U64_MAX);
    }
  }

  /** The first frontier, the seeds 0 to 7, is frontier 0: the seeds of at
      most one base-8 digit. */
  lemma FirstFrontierIff(prog: seq<Instruction>, raw: seq<nat>, x: nat, fuel: nat)
    requires raw != []
    ensures x in FirstFrontier() <==> InFrontier(prog, raw, 0, x, fuel)
  {
    assert DropDigits(x, 1) == x / 8;
    if x < 8 {
      assert FirstFrontier()[x] == x;
    }
  }
}
