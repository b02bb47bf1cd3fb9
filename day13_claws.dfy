/** Day 13, "Claw Contraption": each claw machine has two buttons that move
    the claw by (a1, a2) and (b1, b2) and a prize at (c1, c2). The presses
    x of A and y of B come from Cramer's rule on the 2×2 system
    x·a1 + y·b1 = c1, x·a2 + y·b2 = c2, with Rust's truncating division;
    a machine whose candidates solve the system exactly costs 3x + y tokens,
    any other machine 0. */
module ClawContraption {
  import opened Common

  /** The six numbers of one machine, in input order. The regular-expression
      parsing of the three input lines is not part of this model. */
  datatype Machine = Machine(a1: int, a2: int, b1: int, b2: int, c1: int, c2: int)

  /** `attempt to divide by zero`, the only panic of the computation. */
  datatype Fault = DivideByZero

  /** The offset `part_two` adds to both prize coordinates. */
  const FAR: int := 10_000_000_000_000

  /** The machine with its prize moved by offset in both coordinates. */
  function Shifted(m: Machine, offset: int): Machine
  {
    m.(c1 := m.c1 + offset, c2 := m.c2 + offset)
  }

  /** x presses of A and y of B put the claw exactly on the prize. */
  predicate Solves(m: Machine, x: int, y: int)
  {
    x * m.a1 + m.b1 * y == m.c1 && x * m.a2 + m.b2 * y == m.c2
  }

  /** The determinant of the buttons' matrix. */
  function Det(m: Machine): int
  {
    m.a1 * m.b2 - m.a2 * m.b1
  }

  /** The numerators of Cramer's rule. */
  function DetX(m: Machine): int
  {
    m.c1 * m.b2 - m.b1 * m.c2
  }

  function DetY(m: Machine): int
  {
    m.a1 * m.c2 - m.a2 * m.c1
  }

  /** The tokens one machine costs, as the closure of `part_one` computes
      them: a division by zero panics, a candidate pair that misses the
      prize costs nothing. */
  function Tokens(m: Machine): (r: Outcome<int, Fault>)
    ensures r.Panic? <==> Det(m) == 0
    ensures r.Ok? && r.value != 0 ==> exists x, y :: Solves(m, x, y) && r.value == 3 * x + y
  {
    if Det(m) == 0 then Panic(DivideByZero)
    else
      var x := TruncDiv(DetX(m), Det(m));
      var y := TruncDiv(DetY(m), Det(m));
      if Solves(m, x, y) then Ok(x * 3 + y) else Ok(0)
  }

  /** Dividing an exact multiple truncates nothing. */
  lemma TruncDivExact(q: int, d: int)
    requires d != 0
    ensures TruncDiv(q * d, d) == q
  {
    var t := TruncDiv(q * d, d);
    var r := q * d - t * d;
    assert r == (q - t) * d;
    if q != t {
      assert Abs(q - t) >= 1;
      assert Abs(r) == Abs(q - t) * Abs(d) by {
        AbsMul(q - t, d);
      }
      MulAtLeast(Abs(q - t), Abs(d));
      assert false;
    }
  }

  lemma AbsMul(a: int, b: int)
    ensures Abs(a * b) == Abs(a) * Abs(b)
  {
    if a < 0 && b >= 0 {
      assert a * b == -((-a) * b);
    } else if a < 0 && b < 0 {
      assert a * b == (-a) * (-b);
    } else if b < 0 {
      assert a * b == -(a * (-b));
    }
  }

  /** Cramer's rule: an exact solution fixes both numerators. */
  lemma Cramer(m: Machine, x: int, y: int)
    requires Solves(m, x, y)
    ensures DetX(m) == x * Det(m) && DetY(m) == y * Det(m)
  {
    var Machine(a1, a2, b1, b2, c1, c2) := m;
    calc {
      DetX(m);
      (x * a1 + b1 * y) * b2 - b1 * (x * a2 + b2 * y);
      x * (a1 * b2 - a2 * b1);
    }
    calc {
      DetY(m);
      a1 * (x * a2 + b2 * y) - a2 * (x * a1 + b1 * y);
      y * (a1 * b2 - a2 * b1);
    }
  }

  /** When the buttons are independent, a machine that can be won is won:
      the integer solution is unique and the one the closure finds. */
  lemma WinnableIsWon(m: Machine, x: int, y: int)
    requires Det(m) != 0 && Solves(m, x, y)
    ensures Tokens(m) == Ok(3 * x + y)
  {
    Cramer(m, x, y);
    TruncDivExact(x, Det(m));
    TruncDivExact(y, Det(m));
  }

  /** A machine that no presses can win costs nothing. */
  lemma UnwinnableIsFree(m: Machine)
    requires Det(m) != 0 && forall x, y :: !Solves(m, x, y)
    ensures Tokens(m) == Ok(0)
  {
    var x := TruncDiv(DetX(m), Det(m));
    var y := TruncDiv(DetY(m), Det(m));
    assert !Solves(m, x, y);
  }

  /** The presses are not required to be non-negative: buttons (1, 1) and
      (2, 1) with the prize at (0, 1) are won with 2 presses of A and -1 of
      B, for 5 tokens. */
  lemma NegativePresses()
    ensures Tokens(Machine(1, 1, 2, 1, 0, 1)) == Ok(5)
  {
    WinnableIsWon(Machine(1, 1, 2, 1, 0, 1), 2, -1);
  }

  /** The sum of the tokens of all machines, each with its prize moved by
      offset; the first singular machine panics. */
  function Total(ms: seq<Machine>, offset: int): (r: Outcome<int, Fault>)
    ensures r.Panic? <==> exists k :: 0 <= k < |ms| && Det(ms[k]) == 0
  {
    if ms == [] then Ok(0)
    else
      var init, last := ms[..|ms| - 1], ms[|ms| - 1];
      assert forall k :: 0 <= k < |init| ==> init[k] == ms[k];
      match Total(init, offset)
      case Panic(e) => Panic(e)
      case Ok(s) =>
        match Tokens(Shifted(last, offset))
        case Panic(e) => Panic(e)
        case Ok(t) => Ok(s + t)
  }

  /** A machine that cannot be won adds nothing to the total. */
  lemma {:induction false} TotalSkipsUnwinnable(ms: seq<Machine>, offset: int, m: Machine)
    requires Det(m) != 0 && forall x, y :: !Solves(Shifted(m, offset), x, y)
    ensures Total(ms + [m], offset) == Total(ms, offset)
  {
    assert (ms + [m])[..|ms|] == ms;
    assert Det(Shifted(m, offset)) == Det(m);
    UnwinnableIsFree(Shifted(m, offset));
  }

  /** When every machine can be won, the total is the sum of the winning
      costs. */
  lemma {:induction false} TotalOfWinnable(ms: seq<Machine>, offset: int, xs: seq<int>, ys: seq<int>)
    requires |xs| == |ms| && |ys| == |ms|
    requires forall k :: 0 <= k < |ms| ==> Det(ms[k]) != 0 && Solves(Shifted(ms[k], offset), xs[k], ys[k])
    ensures Total(ms, offset) == Ok(Sum(seq(|ms|, k requires 0 <= k < |ms| => 3 * xs[k] + ys[k])))
  {
    if ms != [] {
      var n := |ms| - 1;
      var costs := seq(|ms|, k requires 0 <= k < |ms| => 3 * xs[k] + ys[k]);
      TotalOfWinnable(ms[..n], offset, xs[..n], ys[..n]);
      assert seq(n, k requires 0 <= k < n => 3 * xs[..n][k] + ys[..n][k]) == costs[..n];
      assert Det(Shifted(ms[n], offset)) == Det(ms[n]);
      WinnableIsWon(Shifted(ms[n], offset), xs[n], ys[n]);
    }
  }

  /** `part_one`: the `i32` total, taken `as u32`. */
  function PartOne(ms: seq<Machine>): (r: Outcome<nat, Fault>)
    ensures r.Panic? <==> exists k :: 0 <= k < |ms| && Det(ms[k]) == 0
    ensures r.Ok? ==> r.value < Pow(2, 32)
    ensures r.Ok? && 0 <= Total(ms, 0).value < Pow(2, 32) ==> r.value == Total(ms, 0).value
  {
    match Total(ms, 0)
    case Panic(e) => Panic(e)
    case Ok(s) => Ok(Wrap(s, 32))
  }

  /** `part_two`: every prize moved by ten trillion in both coordinates, the
      `i128` total taken `as u128`. */
  function PartTwo(ms: seq<Machine>): (r: Outcome<nat, Fault>)
    ensures r.Panic? <==> exists k :: 0 <= k < |ms| && Det(ms[k]) == 0
    ensures r.Ok? ==> r.value < Pow(2, 128)
    ensures r.Ok? && 0 <= Total(ms, FAR).value < Pow(2, 128) ==> r.value == Total(ms, FAR).value
  {
    match Total(ms, FAR)
    case Panic(e) => Panic(e)
    case Ok(s) => Ok(Wrap(s, 128))
  }
}
