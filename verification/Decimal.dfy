/**
 Decimal printing (std::to_string) and whole-token parsing with the rules of
 std::from_chars: no sign for unsigned types, a leading minus only for signed
 ones, an out-of-range value is an error, and the whole token must be used.
 */
module Decimal {
  import opened Text

  const U64_LIMIT: nat := 0x1_0000_0000_0000_0000
  const I32_LIMIT: nat := 0x8000_0000

  type u64 = n: int | 0 <= n < 0x1_0000_0000_0000_0000
  type i32 = n: int | -0x8000_0000 <= n < 0x8000_0000

  function Wrap(n: int): u64 { n % U64_LIMIT }

  lemma WrapNext(n: nat)
    ensures Wrap(Wrap(n) + 1) == Wrap(n + 1)
  {
  }

  function Digit(d: nat): char
    requires d < 10
  {
    '0' + d as char
  }

  predicate IsDigit(c: char) { '0' <= c <= '9' }

  predicate AllDigits(s: string) { forall i :: 0 <= i < |s| ==> IsDigit(s[i]) }

  function ToString(n: nat): string {
    if n < 10 then [Digit(n)] else ToString(n / 10) + [Digit(n % 10)]
  }

  function Value(s: string): nat
    requires AllDigits(s)
  {
    if s == "" then 0
    else Value(s[..|s| - 1]) * 10 + (s[|s| - 1] as int - '0' as int)
  }

  function ParseNat(s: string): Option<nat> {
    if s != "" && AllDigits(s) then Some(Value(s)) else None
  }

  function ParseU64(s: string): Option<u64> {
    match ParseNat(s)
    case Some(v) => if v < U64_LIMIT then Some(v) else None
    case None => None
  }

  function ParseI32(s: string): Option<i32> {
    var negative := "-" <= s;
    match ParseNat(if negative then s[1..] else s)
    case Some(magnitude) =>
      var v: int := magnitude;
      if negative && v <= I32_LIMIT then Some(-v)
      else if !negative && v < I32_LIMIT then Some(v)
      else None
    case None => None
  }

  function Pow10(k: nat): (p: nat)
    ensures p > 0
  {
    if k == 0 then 1 else 10 * Pow10(k - 1)
  }

  function PointValue(whole: string, fraction: string): real
    requires AllDigits(whole) && AllDigits(fraction)
  {
    Value(whole) as real + Value(fraction) as real / Pow10(|fraction|) as real
  }

  /** Digits with at most one point. */
  function ParsePoint(body: string): Option<real> {
    var point := Find(body, '.');
    var whole := body[..point];
    var fraction := if point < |body| then body[point + 1..] else "";
    if whole + fraction == "" || !AllDigits(whole) || !AllDigits(fraction) then None
    else Some(PointValue(whole, fraction))
  }

  /** A plain decimal such as `-12.5`. */
  function ParseDecimal(s: string): Option<real> {
    var negative := "-" <= s;
    match ParsePoint(if negative then s[1..] else s)
    case Some(v) => Some(if negative then -v else v)
    case None => None
  }

  /** Printing then reading any natural number gives it back. */
  lemma {:induction false} PrintedValue(n: nat)
    ensures ToString(n) != "" && AllDigits(ToString(n)) && Value(ToString(n)) == n
  {
    if n < 10 {
      assert ToString(n)[..0] == "";
      assert Value("") == 0;
    } else {
      PrintedValue(n / 10);
      var s := ToString(n);
      assert s[..|s| - 1] == ToString(n / 10);
    }
  }

  lemma PrintedHasNo(n: nat, c: char)
    requires !IsDigit(c)
    ensures Free(ToString(n), c)
  {
    PrintedValue(n);
  }

  lemma PrintedIsInjective(m: nat, n: nat)
    requires ToString(m) == ToString(n)
    ensures m == n
  {
    PrintedValue(m);
    PrintedValue(n);
  }

  /** Exactly the values below 2^64 survive printing and parsing as u64. */
  lemma U64RoundTrip(n: nat)
    ensures ParseU64(ToString(n)) == if n < U64_LIMIT then Some(n) else None
  {
    PrintedValue(n);
  }

  lemma I32RoundTrip(n: nat)
    ensures ParseI32(ToString(n)) == if n < I32_LIMIT then Some(n) else None
  {
    hide ToString;
    PrintedValue(n);
    PrintedHasNo(n, '-');
    assert ToString(n)[0] != '-';
  }

  lemma DecimalRoundTrip(n: nat)
    ensures ParseDecimal(ToString(n)) == Some(n as real)
  {
    hide ToString;
    PrintedValue(n);
    PrintedHasNo(n, '-');
    PrintedHasNo(n, '.');
    var s := ToString(n);
    FindNothing(s, '.');
    assert s[..|s|] == s && s + "" == s;
    assert Value("") == 0;
    assert ParseDecimal(s) == Some(n as real + 0.0 / Pow10(0) as real);
  }

  // ---- what is read, over all texts ----

  lemma ValueOfDigit(d: nat)
    requires d < 10
    ensures AllDigits([Digit(d)]) && Value([Digit(d)]) == d
  {
    assert [Digit(d)][..0] == "" && Value("") == 0;
  }

  /** Positional notation: digits further left weigh more. */
  lemma {:induction false} ValueAppend(a: string, b: string)
    requires AllDigits(a) && AllDigits(b)
    ensures AllDigits(a + b) && Value(a + b) == Value(a) * Pow10(|b|) + Value(b)
  {
    if b == "" {
      assert a + b == a;
    } else {
      var front := b[..|b| - 1];
      ValueAppend(a, front);
      assert (a + b)[..|a + b| - 1] == a + front;
      assert Pow10(|b|) == 10 * Pow10(|front|);
      assert Value(a) * Pow10(|b|) == Value(a) * Pow10(|front|) * 10;
    }
  }

  predicate Digits(s: string) { s != "" && AllDigits(s) }

  predicate U64Text(s: string) { Digits(s) && Value(s) < 0x1_0000_0000_0000_0000 }

  /** An unsigned number is read from digits below 2^64, as their value, and from nothing else. */
  lemma U64Grammar(s: string, n: u64)
    ensures ParseU64(s) == Some(n) <==> U64Text(s) && Value(s) == n
    ensures ParseU64(s).Some? <==> U64Text(s)
  {
  }

  ghost predicate I32Text(s: string, n: int) {
    exists digits :: Digits(digits) && (
      || (s == digits && n == Value(digits) && n < 0x8000_0000)
      || (s == "-" + digits && n == 0 - Value(digits) && -0x8000_0000 <= n))
  }

  /** A signed number is read from digits after at most one minus, in range, and from nothing else. */
  lemma I32Grammar(s: string, n: i32)
    ensures ParseI32(s) == Some(n) <==> I32Text(s, n)
  {
    if ParseI32(s) == Some(n) {
      if "-" <= s {
        assert s == "-" + s[1..] && Digits(s[1..]);
      } else {
        assert Digits(s);
      }
    }
    if I32Text(s, n) {
      var digits :| Digits(digits) && (
        || (s == digits && n == Value(digits) && n < 0x8000_0000)
        || (s == "-" + digits && n == 0 - Value(digits) && -0x8000_0000 <= n));
      assert digits[0] != '-';
      if s == "-" + digits {
        assert s[1..] == digits;
      }
    }
  }

  /** The digits before and after the point; the point may be missing when nothing follows it. */
  predicate PointText(body: string, whole: string, fraction: string) {
    && AllDigits(whole) && AllDigits(fraction) && whole + fraction != ""
    && (body == whole + "." + fraction || (fraction == "" && body == whole))
  }

  ghost predicate UnsignedDecimal(body: string, v: real) {
    exists whole, fraction :: PointText(body, whole, fraction) && v == PointValue(whole, fraction)
  }

  ghost predicate DecimalText(s: string, v: real) {
    UnsignedDecimal(s, v) || ("-" <= s && UnsignedDecimal(s[1..], -v))
  }

  lemma PointAt(body: string, whole: string, fraction: string)
    requires PointText(body, whole, fraction)
    ensures body != "" && body[0] != '-'
    ensures var point := Find(body, '.');
            body[..point] == whole && (if point < |body| then body[point + 1..] else "") == fraction
  {
    assert forall i :: 0 <= i < |whole| ==> IsDigit(whole[i]);
    if body == whole + "." + fraction {
      assert body[..|whole|] == whole;
      FindUnique(body, '.', |whole|);
      assert body[|whole| + 1..] == fraction;
    } else {
      FindNothing(body, '.');
      assert body[..|body|] == whole;
    }
  }

  lemma PointGrammar(body: string, v: real)
    ensures ParsePoint(body) == Some(v) <==> UnsignedDecimal(body, v)
    ensures UnsignedDecimal(body, v) ==> body != "" && body[0] != '-'
  {
    hide Value, PointValue;
    var point := Find(body, '.');
    var whole := body[..point];
    var fraction := if point < |body| then body[point + 1..] else "";
    assert body == if point < |body| then whole + "." + fraction else whole;
    if ParsePoint(body) == Some(v) {
      assert PointText(body, whole, fraction);
    }
    if UnsignedDecimal(body, v) {
      var w, f :| PointText(body, w, f) && v == PointValue(w, f);
      PointAt(body, w, f);
    }
  }

  /** A decimal is read from digits with at most one point after at most one minus, and from nothing else. */
  lemma DecimalGrammar(s: string, v: real)
    ensures ParseDecimal(s) == Some(v) <==> DecimalText(s, v)
  {
    hide ParsePoint, UnsignedDecimal;
    PointGrammar(s, v);
    if "-" <= s {
      PointGrammar(s[1..], -v);
    }
  }
}
