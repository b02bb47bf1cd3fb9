/** Small value types and arithmetic shared by every puzzle model. */
module Common {

  /** Rust's `Option`. */
  datatype Option<T> = None | Some(value: T)

  /** The result of a Rust function that either returns a value or panics
      (an `unwrap` on nothing, an index out of bounds, a debug-build overflow,
      a division by zero, an explicit `panic!`). */
  datatype Outcome<T, E> = Ok(value: T) | Panic(reason: E)

  const U32_MAX: nat := 0xFFFF_FFFF
  const U64_MAX: nat := 0xFFFF_FFFF_FFFF_FFFF
  const USIZE_MAX: nat := 0xFFFF_FFFF_FFFF_FFFF

  function Pow(base: nat, exp: nat): (p: nat)
    ensures base > 0 ==> p > 0
  {
    if exp == 0 then 1 else base * Pow(base, exp - 1)
  }

  lemma {:induction false} PowAdd(base: nat, m: nat, n: nat)
    ensures Pow(base, m + n) == Pow(base, m) * Pow(base, n)
  {
    if m > 0 {
      PowAdd(base, m - 1, n);
      var a, b := Pow(base, m - 1), Pow(base, n);
      assert Pow(base, m + n) == base * (a * b);
      MulAssoc(base, a, b);
    }
  }

  lemma MulAssoc(x: int, y: int, z: int)
    ensures x * (y * z) == (x * y) * z
  {
  }

  /** Quotient and remainder put n back together. */
  lemma DivModSplit(n: int, d: int)
    requires d > 0
    ensures (n / d) * d + n % d == n
  {
  }

  /** Division with remainder has one answer: q and r are the quotient and
      remainder of q * d + r. */
  lemma DivModOf(q: int, r: int, d: int)
    requires d > 0 && 0 <= r < d
    ensures (q * d + r) / d == q && (q * d + r) % d == r
  {
    var n := q * d + r;
    var q', r' := n / d, n % d;
    assert q' * d + r' == n;
    if q > q' {
      MulAtLeast(q - q', d);
    } else if q < q' {
      MulAtLeast(q' - q, d);
    }
  }

  lemma MulAtLeast(x: int, d: nat)
    requires x >= 1
    ensures x * d >= d
  {
    assert x * d == (x - 1) * d + d;
  }

  /** n / d is at least a when n is at least a * d. */
  lemma DivLower(n: nat, a: nat, d: nat)
    requires d > 0 && a * d <= n
    ensures a <= n / d
  {
    var q := n / d;
    if q < a {
      MulAtLeast(a - q, d);
    }
  }

  /** n / d is below a when n is below a * d. */
  lemma DivUpper(n: nat, a: nat, d: nat)
    requires d > 0 && n < a * d
    ensures n / d < a
  {
    var q := n / d;
    if q >= a {
      if q > a {
        MulAtLeast(q - a, d);
      }
    }
  }

  /** Dividing by a positive number never makes a natural number larger. */
  lemma DivAtMost(n: nat, d: nat)
    requires d > 0
    ensures n / d <= n
  {
    MulAtLeast(d, n + 1);
    assert n < (n + 1) * d;
    DivUpper(n, n + 1, d);
  }

  /** The sum of a sequence of integers. */
  function Sum(s: seq<int>): int
  {
    if s == [] then 0 else Sum(s[..|s| - 1]) + s[|s| - 1]
  }

  lemma SumSnoc(s: seq<int>, x: int)
    ensures Sum(s + [x]) == Sum(s) + x
  {
    assert (s + [x])[..|s|] == s;
  }

  /** Integer division that truncates toward zero, as `/` does on Rust's
      signed integers (Dafny's `/` is Euclidean). */
  function TruncDiv(a: int, b: int): (q: int)
    requires b != 0
    ensures var r := a - q * b;
      (r == 0 || (r < 0) == (a < 0)) && Abs(r) < Abs(b)
  {
    var m := Abs(a) / Abs(b);
    TruncRemainder(a, b, m);
    if (a < 0) == (b < 0) then m else -m
  }

  /** The remainder a - q * b of the truncated quotient, case by case on the
      signs. */
  lemma TruncRemainder(a: int, b: int, m: int)
    requires b != 0 && m == Abs(a) / Abs(b)
    ensures var q := if (a < 0) == (b < 0) then m else -m;
      var r := a - q * b;
      (r == 0 || (r < 0) == (a < 0)) && Abs(r) < Abs(b)
  {
    var rem := Abs(a) - m * Abs(b);
    DivModSplit(Abs(a), Abs(b));
    assert 0 <= rem < Abs(b);
    if b > 0 {
      assert m * b == m * Abs(b);
    } else {
      assert m * b == -(m * Abs(b));
    }
  }

  function Abs(a: int): nat
  {
    if a < 0 then -a else a
  }

  /** `a % m` for the two's-complement reinterpretation done by an `as` cast
      into an unsigned type of `bits` bits. */
  function Wrap(a: int, bits: nat): (r: nat)
    ensures r < Pow(2, bits)
    ensures 0 <= a < Pow(2, bits) ==> r == a
  {
    ModSmall(a, Pow(2, bits));
    a % Pow(2, bits)
  }

  /** A remainder lies below the divisor, and a number already below it is
      its own remainder. */
  lemma ModSmall(a: int, d: int)
    requires d > 0
    ensures 0 <= a % d < d
    ensures 0 <= a < d ==> a % d == a
  {
    if 0 <= a < d {
      DivModOf(0, a, d);
      assert 0 * d + a == a;
    }
  }

  /** Every line read by parse, in order, or the fault of the first line
      that does not parse (the per-line `unwrap`s of a parsing loop). */
  function Collect<T, E>(lines: seq<string>, parse: string -> Outcome<T, E>): Outcome<seq<T>, E>
  {
    if lines == [] then Ok([])
    else
      match Collect(lines[..|lines| - 1], parse)
      case Panic(f) => Panic(f)
      case Ok(init) =>
        match parse(lines[|lines| - 1])
        case Panic(f) => Panic(f)
        case Ok(x) => Ok(init + [x])
  }

  /** The lines are read exactly when every line is, and then into one value
      per line, in line order. */
  lemma {:induction false} CollectMeaning<T, E>(lines: seq<string>, parse: string -> Outcome<T, E>)
    ensures Collect(lines, parse).Ok? <==> forall k :: 0 <= k < |lines| ==> parse(lines[k]).Ok?
    ensures Collect(lines, parse).Ok? ==> |Collect(lines, parse).value| == |lines|
    ensures Collect(lines, parse).Ok? ==>
      forall k :: 0 <= k < |lines| ==> parse(lines[k]) == Ok(Collect(lines, parse).value[k])
  {
    if lines != [] {
      var n := |lines| - 1;
      var init := lines[..n];
      CollectMeaning(init, parse);
      assert forall k :: 0 <= k < n ==> init[k] == lines[k];
      var last := parse(lines[n]);
      if Collect(init, parse).Ok? && last.Ok? {
        var v := Collect(lines, parse).value;
        assert v == Collect(init, parse).value + [last.value];
        forall k | 0 <= k < |lines| ensures parse(lines[k]) == Ok(v[k]) {
          if k < n {
            assert v[k] == Collect(init, parse).value[k];
          }
        }
      }
    }
  }

  /** The first line that does not parse decides the fault. */
  lemma {:induction false} CollectPanic<T, E>(lines: seq<string>, l: nat, parse: string -> Outcome<T, E>)
    requires l < |lines| && Collect(lines[..l], parse).Ok? && parse(lines[l]).Panic?
    ensures Collect(lines, parse) == Panic(parse(lines[l]).reason)
    decreases |lines|
  {
    if l < |lines| - 1 {
      var init := lines[..|lines| - 1];
      assert init[..l] == lines[..l];
      CollectPanic(init, l, parse);
    } else {
      assert lines[..|lines| - 1] == lines[..l];
    }
  }

  /** One more line that parses extends the collected values by its value. */
  lemma CollectStep<T, E>(lines: seq<string>, l: nat, parse: string -> Outcome<T, E>)
    requires l < |lines| && Collect(lines[..l], parse).Ok? && parse(lines[l]).Ok?
    ensures Collect(lines[..l + 1], parse) == Ok(Collect(lines[..l], parse).value + [parse(lines[l]).value])
  {
    assert lines[..l + 1][..l] == lines[..l];
  }
}
