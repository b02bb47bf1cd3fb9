/** The parts of Rust's `str` API that the puzzle parsers use, on `seq<char>`:
    `lines`, `split`, `split_whitespace`, `trim`, `replace(pat, "")`, the
    `FromStr` parse of integers, and `to_string`/`join` on numbers. */
module Text {
  import opened Common

  predicate IsDigit(c: char)
  {
    '0' <= c <= '9'
  }

  function DigitValue(c: char): (d: nat)
    requires IsDigit(c)
    ensures d < 10
  {
    c as int - '0' as int
  }

  function DigitChar(d: nat): (c: char)
    requires d < 10
    ensures IsDigit(c) && DigitValue(c) == d
  {
    ('0' as int + d) as char
  }

  /** `char::is_whitespace`: the 25 code points with the Unicode property
      White_Space, U+0009..U+000D, U+0020, U+0085, U+00A0, U+1680,
      U+2000..U+200A, U+2028, U+2029, U+202F, U+205F and U+3000. */
  predicate IsWhitespace(c: char)
  {
    ('\t' <= c <= '\r') || c == ' ' || c == '\U{0085}' || c == '\U{00A0}' || c == '\U{1680}' ||
    ('\U{2000}' <= c <= '\U{200A}') || c == '\U{2028}' || c == '\U{2029}' || c == '\U{202F}' ||
    c == '\U{205F}' || c == '\U{3000}'
  }

  predicate AllDigits(s: string)
  {
    forall i :: 0 <= i < |s| ==> IsDigit(s[i])
  }

  /** The value of a non-empty run of decimal digits. */
  function DecimalValue(s: string): nat
    requires AllDigits(s)
  {
    if s == [] then 0 else DecimalValue(s[..|s| - 1]) * 10 + DigitValue(s[|s| - 1])
  }

  /** `str::parse::<uN>()`: an optional `+`, then at least one digit, and a value
      no larger than `max`; anything else is an error (None). */
  function ParseUnsigned(s: string, max: nat): (r: Option<nat>)
    ensures r.Some? ==> r.value <= max
    ensures r.Some? ==> |s| > 0 && (IsDigit(s[0]) || s[0] == '+')
  {
    var body := if |s| > 0 && s[0] == '+' then s[1..] else s;
    if |body| == 0 || !AllDigits(body) then None
    else if DecimalValue(body) > max then None
    else Some(DecimalValue(body))
  }

  /** `str::parse::<iN>()`: an optional sign, then at least one digit, and a
      value in `min..=max`. */
  function ParseSigned(s: string, min: int, max: int): (r: Option<int>)
    ensures r.Some? ==> min <= r.value <= max
  {
    var negative := |s| > 0 && s[0] == '-';
    var body := if |s| > 0 && (s[0] == '+' || s[0] == '-') then s[1..] else s;
    if |body| == 0 || !AllDigits(body) then None
    else
      var v: int := if negative then -(DecimalValue(body) as int) else DecimalValue(body);
      if min <= v <= max then Some(v) else None
  }

  /** Decimal rendering of a natural number (`to_string`). */
  function NatToString(n: nat): (s: string)
    ensures |s| > 0 && AllDigits(s)
  {
    if n < 10 then [DigitChar(n)] else NatToString(n / 10) + [DigitChar(n % 10)]
  }

  lemma {:induction false} NatToStringValue(n: nat)
    ensures DecimalValue(NatToString(n)) == n
  {
    var s := NatToString(n);
    if n >= 10 {
      assert s[..|s| - 1] == NatToString(n / 10);
      NatToStringValue(n / 10);
    } else {
      assert s[..|s| - 1] == [];
    }
  }

  /** The number of decimal digits, `ilog10(n) + 1`, with 0 counted as one
      digit. */
  function NumDigits(n: nat): (d: nat)
    ensures d >= 1
  {
    if n < 10 then 1 else 1 + NumDigits(n / 10)
  }

  /** n has NumDigits(n) digits: it lies below 10^d and, unless it is 0, at
      or above 10^(d-1); and that is the length of its decimal rendering. */
  lemma {:induction false} NumDigitsRange(n: nat)
    ensures n < Pow(10, NumDigits(n))
    ensures n > 0 ==> Pow(10, NumDigits(n) - 1) <= n
    ensures |NatToString(n)| == NumDigits(n)
  {
    if n >= 10 {
      NumDigitsRange(n / 10);
    }
  }

  /** Conversely, a number in [10^(d-1), 10^d) has d digits. */
  lemma {:induction false} NumDigitsUnique(n: nat, d: nat)
    requires d >= 1 && Pow(10, d - 1) <= n < Pow(10, d)
    ensures NumDigits(n) == d
    decreases d
  {
    if d > 1 {
      assert Pow(10, d) == Pow(10, d - 1) * 10;
      assert Pow(10, d - 1) == Pow(10, d - 2) * 10;
      DivLower(n, Pow(10, d - 2), 10);
      DivUpper(n, Pow(10, d - 1), 10);
      NumDigitsUnique(n / 10, d - 1);
    }
  }

  /** A run of digits has no whitespace to trim and no separator in it. */
  lemma DigitsPlain(s: string, sep: char)
    requires |s| > 0 && AllDigits(s) && !IsDigit(sep)
    ensures Trim(s) == s && NoneOf(s, {sep})
  {
    DigitNotWhitespace(s[0]);
    DigitNotWhitespace(s[|s| - 1]);
    assert TrimStart(s) == s;
  }

  lemma DigitNotWhitespace(c: char)
    requires IsDigit(c)
    ensures !IsWhitespace(c)
  {
  }

  /** Rendering a number, trimming it and parsing it back gives the number. */
  lemma ParseTrimmedNatToString(n: nat, max: nat)
    requires n <= max
    ensures ParseUnsigned(Trim(NatToString(n)), max) == Some(n)
  {
    var s := NatToString(n);
    assert TrimStart(s) == s;
    assert Trim(s) == s;
    ParseNatToString(n, max);
  }

  /** Rendering a number and parsing it back gives the number. */
  lemma ParseNatToString(n: nat, max: nat)
    requires n <= max
    ensures ParseUnsigned(NatToString(n), max) == Some(n)
  {
    var s := NatToString(n);
    assert IsDigit(s[0]);
    NatToStringValue(n);
  }

  function IndexOfAny(s: string, seps: set<char>): (i: nat)
    requires exists k :: 0 <= k < |s| && s[k] in seps
    ensures i < |s| && s[i] in seps
    ensures forall k :: 0 <= k < i ==> s[k] !in seps
  {
    if s[0] in seps then 0
    else
      assert exists k :: 1 <= k < |s| && s[k] in seps;
      assert exists k :: 0 <= k < |s[1..]| && s[1..][k] in seps by {
        var k :| 1 <= k < |s| && s[k] in seps;
        assert s[1..][k - 1] == s[k];
      }
      1 + IndexOfAny(s[1..], seps)
  }

  predicate NoneOf(s: string, seps: set<char>)
  {
    forall k :: 0 <= k < |s| ==> s[k] !in seps
  }

  /** `str::split` at every character in `seps`: always at least one piece,
      and no piece contains a separator. */
  function SplitAny(s: string, seps: set<char>): (pieces: seq<string>)
    ensures |pieces| >= 1
    ensures forall i :: 0 <= i < |pieces| ==> NoneOf(pieces[i], seps)
    decreases |s|
  {
    if NoneOf(s, seps) then [s]
    else
      var i := IndexOfAny(s, seps);
      [s[..i]] + SplitAny(s[i + 1..], seps)
  }

  function Split(s: string, sep: char): seq<string>
  {
    SplitAny(s, {sep})
  }

  /** Pieces joined with one separator between each pair. */
  function Join(pieces: seq<string>, sep: string): string
  {
    if pieces == [] then []
    else if |pieces| == 1 then pieces[0]
    else pieces[0] + sep + Join(pieces[1..], sep)
  }

  /** Splitting at a character and joining with it again gives the input back. */
  lemma {:induction false} JoinSplit(s: string, sep: char)
    ensures Join(Split(s, sep), [sep]) == s
    decreases |s|
  {
    if !NoneOf(s, {sep}) {
      var i := IndexOfAny(s, {sep});
      var rest := Split(s[i + 1..], sep);
      assert Split(s, sep) == [s[..i]] + rest;
      JoinSplit(s[i + 1..], sep);
      assert s == s[..i] + [sep] + s[i + 1..];
    }
  }

  /** Joining pieces that do not contain the separator and splitting again
      gives the pieces back. */
  lemma {:induction false} SplitJoin(pieces: seq<string>, sep: char)
    requires |pieces| >= 1 && forall k :: 0 <= k < |pieces| ==> NoneOf(pieces[k], {sep})
    ensures Split(Join(pieces, [sep]), sep) == pieces
    decreases |pieces|
  {
    if |pieces| > 1 {
      var p, rest := pieces[0], pieces[1..];
      var s := Join(pieces, [sep]);
      assert s == p + [sep] + Join(rest, [sep]);
      assert s[|p|] == sep;
      assert !NoneOf(s, {sep});
      var i := IndexOfAny(s, {sep});
      assert i == |p|;
      assert s[..i] == p && s[i + 1..] == Join(rest, [sep]);
      SplitJoin(rest, sep);
    }
  }

  /** The two-piece case: a separator between two pieces free of it. */
  lemma SplitTwo(a: string, b: string, sep: char)
    requires NoneOf(a, {sep}) && NoneOf(b, {sep})
    ensures Split(a + [sep] + b, sep) == [a, b]
  {
    var ps := [a, b];
    assert ps[1..] == [b];
    assert Join(ps, [sep]) == a + [sep] + b;
    SplitJoin(ps, sep);
  }

  function DropEmpty(pieces: seq<string>): (r: seq<string>)
    ensures forall i :: 0 <= i < |r| ==> r[i] != [] && r[i] in pieces
    ensures |r| <= |pieces|
  {
    if pieces == [] then []
    else if pieces[0] == [] then DropEmpty(pieces[1..])
    else [pieces[0]] + DropEmpty(pieces[1..])
  }

  /** The same 25 characters as a set, the separators of `split_whitespace`. */
  function WhitespaceChars(): set<char>
  {
    {'\t', '\n', 11 as char, 12 as char, '\r', ' ', '\U{0085}', '\U{00A0}', '\U{1680}',
     '\U{2000}', '\U{2001}', '\U{2002}', '\U{2003}', '\U{2004}', '\U{2005}', '\U{2006}',
     '\U{2007}', '\U{2008}', '\U{2009}', '\U{200A}',
     '\U{2028}', '\U{2029}', '\U{202F}', '\U{205F}', '\U{3000}'}
  }

  lemma WhitespaceCharsAre(c: char)
    ensures c in WhitespaceChars() <==> IsWhitespace(c)
  {
  }

  lemma WhitespaceSet()
    ensures forall c :: c in WhitespaceChars() <==> IsWhitespace(c)
  {
    forall c {
      WhitespaceCharsAre(c);
    }
  }

  /** `str::split_whitespace`: the non-empty runs between whitespace. */
  function SplitWhitespace(s: string): (tokens: seq<string>)
    ensures forall i :: 0 <= i < |tokens| ==> tokens[i] != []
    ensures forall i, k :: 0 <= i < |tokens| && 0 <= k < |tokens[i]| ==> !IsWhitespace(tokens[i][k])
  {
    WhitespaceSet();
    DropEmpty(SplitAny(s, WhitespaceChars()))
  }

  function TrimStart(s: string): (r: string)
    ensures |r| <= |s| && r == s[|s| - |r|..]
    ensures r == [] || !IsWhitespace(r[0])
    ensures forall k :: 0 <= k < |s| - |r| ==> IsWhitespace(s[k])
  {
    if |s| > 0 && IsWhitespace(s[0]) then TrimStart(s[1..]) else s
  }

  function TrimEnd(s: string): (r: string)
    ensures |r| <= |s| && r == s[..|r|]
    ensures r == [] || !IsWhitespace(r[|r| - 1])
    ensures forall k :: |r| <= k < |s| ==> IsWhitespace(s[k])
  {
    if |s| > 0 && IsWhitespace(s[|s| - 1]) then TrimEnd(s[..|s| - 1]) else s
  }

  /** `str::trim`. */
  function Trim(s: string): string
  {
    TrimEnd(TrimStart(s))
  }

  /** `str::lines`: pieces between `\n`, without a final empty piece after a
      closing `\n`, and with the `\r` of a `\r\n` ending removed. */
  function Lines(s: string): (lines: seq<string>)
    ensures forall i :: 0 <= i < |lines| ==> '\n' !in lines[i]
    ensures |lines| <= |Split(s, '\n')|
  {
    var pieces := Split(s, '\n');
    var n := if pieces[|pieces| - 1] == [] then |pieces| - 1 else |pieces|;
    seq(n, i requires 0 <= i < n =>
      var p := pieces[i];
      if i < |pieces| - 1 && |p| > 0 && p[|p| - 1] == '\r' then p[..|p| - 1] else p)
  }

  /** `str::replace(pat, "")`: every non-overlapping occurrence of `pat`,
      scanning from the left, removed. */
  function RemoveAll(s: string, pat: string): (r: string)
    requires |pat| > 0
    ensures |r| <= |s|
    decreases |s|
  {
    if |s| < |pat| then s
    else if s[..|pat|] == pat then RemoveAll(s[|pat|..], pat)
    else [s[0]] + RemoveAll(s[1..], pat)
  }

  predicate OccursAt(s: string, pat: string, i: nat)
  {
    i + |pat| <= |s| && s[i..i + |pat|] == pat
  }

  /** A string that does not contain `pat` is left as it is by `RemoveAll`. */
  lemma {:induction false} RemoveAllAbsent(s: string, pat: string)
    requires |pat| > 0
    requires forall i: nat :: !OccursAt(s, pat, i)
    ensures RemoveAll(s, pat) == s
    decreases |s|
  {
    if |s| >= |pat| {
      assert !OccursAt(s, pat, 0);
      assert s[..|pat|] == s[0..|pat|];
      forall i: nat
        ensures !OccursAt(s[1..], pat, i)
      {
        assert !OccursAt(s, pat, i + 1);
        if i + |pat| <= |s[1..]| {
          assert s[1..][i..i + |pat|] == s[i + 1..i + 1 + |pat|];
        }
      }
      RemoveAllAbsent(s[1..], pat);
    }
  }
}
