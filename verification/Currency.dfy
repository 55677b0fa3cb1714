/** Amounts of a currency as text: printing, parsing, and what a text denotes. */
module Currency {
  import opened Base

  /** Two to the power of 128. */
  const U128_LIMIT: nat := 0x1_0000_0000_0000_0000_0000_0000_0000_0000

  type U128 = x: int | 0 <= x < U128_LIMIT

  datatype Currency = Currency(symbol: string, decimals: nat) {
    /** A symbol is one word, and the unit of the currency is a 128-bit number. */
    predicate Valid() {
      symbol != "" && decimals <= 38 && forall i :: 0 <= i < |symbol| ==> !IsSpace(symbol[i])
    }
  }

  const ETHEREUM := Currency("ETH", 18)
  const WRAPPED_VARA := Currency("WVARA", 12)

  datatype ParseError = InvalidFormat | IntParse | IntOverflow

  // ---------------------------------------------------------------------
  // Characters and digits

  /** ASCII white space: space, tab, line feed, form feed, carriage return. */
  predicate IsSpace(c: char) {
    c == ' ' || c == '\t' || c == '\n' || c as int == 12 || c == '\r'
  }

  predicate IsDigit(c: char) {
    '0' <= c <= '9'
  }

  predicate AllDigits(s: string) {
    forall i :: 0 <= i < |s| ==> IsDigit(s[i])
  }

  function Pow10(n: nat): (p: nat)
    ensures p > 0
  {
    if n == 0 then 1 else 10 * Pow10(n - 1)
  }

  function DigitOf(n: nat): (c: char)
    requires n < 10
    ensures IsDigit(c) && c as int - '0' as int == n
  {
    (n + '0' as int) as char
  }

  /** The shortest decimal text of a number. */
  function Digits(n: nat): (s: string)
    ensures s != "" && AllDigits(s)
  {
    if n < 10 then [DigitOf(n)] else Digits(n / 10) + [DigitOf(n % 10)]
  }

  function FromDigits(s: string): nat
    requires AllDigits(s)
  {
    if s == "" then 0 else FromDigits(s[..|s| - 1]) * 10 + (s[|s| - 1] as int - '0' as int)
  }

  function Pad(s: string, width: nat): (r: string)
    decreases width - |s|
  {
    if |s| >= width then s else Pad("0" + s, width)
  }

  function TrimZeros(s: string): string {
    if s != "" && s[|s| - 1] == '0' then TrimZeros(s[..|s| - 1]) else s
  }

  /** Bytes of a character in UTF-8. */
  function Width(c: char): nat {
    if c as int < 0x80 then 1 else if c as int < 0x800 then 2 else if c as int < 0x1_0000 then 3 else 4
  }

  function ByteLength(s: string): nat {
    if s == "" then 0 else ByteLength(s[..|s| - 1]) + Width(s[|s| - 1])
  }

  // ---------------------------------------------------------------------
  // Splitting

  /** The position of the first character that satisfies the predicate, or the length. */
  function Find(s: string, f: char -> bool): (n: nat)
    ensures n <= |s| && (n < |s| ==> f(s[n])) && forall i :: 0 <= i < n ==> !f(s[i])
  {
    if s == "" || f(s[0]) then 0 else 1 + Find(s[1..], f)
  }

  function Words(s: string): seq<string>
    decreases |s|
  {
    if s == "" then []
    else if IsSpace(s[0]) then Words(s[1..])
    else
      var n := Find(s, IsSpace);
      [s[..n]] + Words(s[n..])
  }

  function SplitDots(s: string): (parts: seq<string>)
    ensures |parts| > 0
    decreases |s|
  {
    var n := Find(s, c => c == '.');
    if n == |s| then [s] else [s[..n]] + SplitDots(s[n + 1..])
  }

  // ---------------------------------------------------------------------
  // Printing and parsing

  /** An unsigned number with an optional plus sign. */
  function ParseU128(s: string): Option<U128> {
    var digits := if s != "" && s[0] == '+' then s[1..] else s;
    if digits == "" || !AllDigits(digits) || FromDigits(digits) >= U128_LIMIT then None
    else Some(FromDigits(digits))
  }

  function CheckedMul(a: U128, b: U128): Result<U128, ParseError> {
    var p: nat := Times(a, b);
    if p < U128_LIMIT then Ok(p) else Err(IntOverflow)
  }

  function Times(a: nat, b: nat): nat {
    a * b
  }

  function CheckedAdd(a: U128, b: U128): Result<U128, ParseError> {
    if a + b < U128_LIMIT then Ok(a + b) else Err(IntOverflow)
  }

  lemma {:induction false} Pow10Monotone(a: nat, b: nat)
    requires a <= b
    ensures Pow10(a) <= Pow10(b)
    decreases b
  {
    if a < b {
      Pow10Monotone(a, b - 1);
    }
  }

  lemma {:induction false} Pow10Sum(a: nat, b: nat)
    ensures Pow10(a + b) == Pow10(a) * Pow10(b)
    decreases a
  {
    if a > 0 {
      Pow10Sum(a - 1, b);
    }
  }

  lemma UnitFits(n: nat)
    requires n <= 38
    ensures Pow10(n) < U128_LIMIT
  {
    assert Pow10(5) == 100_000;
    Pow10Sum(5, 5);
    Pow10Sum(10, 10);
    assert Pow10(8) == 100_000_000;
    Pow10Sum(10, 8);
    Pow10Sum(20, 18);
    Pow10Monotone(n, 38);
  }

  function Unit(n: nat): U128
    requires n <= 38
  {
    UnitFits(n);
    Pow10(n)
  }

  function NumberText(c: Currency, whole: nat, fraction: nat): string {
    if fraction == 0 then Digits(whole)
    else Digits(whole) + "." + TrimZeros(Pad(Digits(fraction), c.decimals))
  }

  function Print(c: Currency, value: U128): string
    requires c.Valid()
  {
    NumberText(c, value / Unit(c.decimals), value % Unit(c.decimals)) + " " + c.symbol
  }

  /** The whole part and, if there is one, the fraction and its length. */
  function ParseNumber(c: Currency, s: string): Result<(U128, Option<(U128, nat)>), ParseError> {
    var parts := SplitDots(s);
    if |parts| == 1 then
      match ParseU128(parts[0]) case Some(whole) => Ok((whole, None)) case None => Err(IntParse)
    else if |parts| == 2 && ByteLength(parts[1]) <= c.decimals then
      match (ParseU128(parts[0]), ParseU128(parts[1]))
      case (Some(whole), Some(fraction)) => Ok((whole, Some((fraction, ByteLength(parts[1])))))
      case _ => Err(IntParse)
    else Err(InvalidFormat)
  }

  function Parse(c: Currency, s: string): Result<U128, ParseError>
    requires c.Valid()
  {
    var words := Words(s);
    if |words| != 2 || words[1] != c.symbol then Err(InvalidFormat)
    else
      var number :- ParseNumber(c, words[0]);
      var scaled :- Scaled(c, number.1);
      var whole :- CheckedMul(number.0, Unit(c.decimals));
      CheckedAdd(whole, scaled)
  }

  function Scaled(c: Currency, fraction: Option<(U128, nat)>): Result<U128, ParseError>
    requires c.Valid()
  {
    match fraction
    case None => Ok(0)
    case Some((value, length)) => CheckedMul(value, Unit(if length <= c.decimals then c.decimals - length else 0))
  }

  datatype Amount = Raw(value: U128) | Formatted(value: U128)

  datatype AmountError = BadShape | BadInteger | BadFormatted(error: ParseError)

  function PrintAmount(c: Currency, a: Amount): string
    requires c.Valid()
  {
    match a case Raw(v) => Digits(v) case Formatted(v) => Print(c, v)
  }

  function ParseAmount(c: Currency, s: string): Result<Amount, AmountError>
    requires c.Valid()
  {
    var words := Words(s);
    if |words| == 1 then
      match ParseU128(words[0]) case Some(v) => Ok(Raw(v)) case None => Err(BadInteger)
    else if |words| == 2 then
      match Parse(c, s) case Ok(v) => Ok(Formatted(v)) case Err(e) => Err(BadFormatted(e))
    else Err(BadShape)
  }
}
