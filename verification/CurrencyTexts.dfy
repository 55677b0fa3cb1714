/** Printed amounts parse back, and every accepted text denotes the amount it is parsed to. */
module CurrencyTexts {
  import opened Base
  import opened Currency

  // ---------------------------------------------------------------------
  // Digits

  lemma {:induction false} DigitsRoundTrip(n: nat)
    ensures FromDigits(Digits(n)) == n
  {
    if n >= 10 {
      DigitsRoundTrip(n / 10);
      assert Digits(n)[..|Digits(n)| - 1] == Digits(n / 10);
    }
  }

  lemma {:induction false} FromDigitsBound(s: string)
    requires AllDigits(s)
    ensures FromDigits(s) < Pow10(|s|)
  {
    if s != "" {
      FromDigitsBound(s[..|s| - 1]);
    }
  }

  lemma {:induction false} LeadingZero(s: string)
    requires AllDigits(s)
    ensures AllDigits("0" + s) && FromDigits("0" + s) == FromDigits(s)
  {
    if s != "" {
      assert ("0" + s)[..|s|] == "0" + s[..|s| - 1];
      LeadingZero(s[..|s| - 1]);
    }
  }

  lemma {:induction false} PadKeeps(s: string, width: nat)
    requires AllDigits(s) && |s| <= width
    ensures var r := Pad(s, width); AllDigits(r) && FromDigits(r) == FromDigits(s) && |r| == width
    decreases width - |s|
  {
    if |s| < width {
      LeadingZero(s);
      PadKeeps("0" + s, width);
    }
  }

  /** A trimmed zero is a factor of ten. */
  lemma {:induction false} TrimKeeps(s: string)
    requires AllDigits(s)
    ensures var r := TrimZeros(s);
      && AllDigits(r) && |r| <= |s| && FromDigits(s) == FromDigits(r) * Pow10(|s| - |r|)
      && (r != "" ==> r[|r| - 1] != '0')
  {
    if s != "" && s[|s| - 1] == '0' {
      var front := s[..|s| - 1];
      TrimKeeps(front);
      var r := TrimZeros(front);
      TimesTen(FromDigits(r), Pow10(|front| - |r|));
      assert Pow10(|s| - |r|) == 10 * Pow10(|front| - |r|);
    } else {
      assert Pow10(0) == 1;
    }
  }

  lemma TimesTen(x: nat, p: nat)
    ensures x * p * 10 == x * (10 * p)
  {
  }

  lemma {:induction false} DigitsLength(n: nat, width: nat)
    requires n < Pow10(width) && width > 0
    ensures |Digits(n)| <= width
    decreases width
  {
    if n >= 10 {
      DigitsLength(n / 10, width - 1);
    }
  }

  // ---------------------------------------------------------------------
  // Splitting what was joined

  predicate NoSpace(s: string) {
    forall i :: 0 <= i < |s| ==> !IsSpace(s[i])
  }

  predicate NoDot(s: string) {
    forall i :: 0 <= i < |s| ==> s[i] != '.'
  }

  lemma OneWord(s: string)
    requires s != "" && NoSpace(s)
    ensures Words(s) == [s]
  {
    assert Find(s, IsSpace) == |s|;
    assert s[..|s|] == s && s[|s|..] == "";
  }

  lemma TwoWords(a: string, b: string)
    requires a != "" && b != "" && NoSpace(a) && NoSpace(b)
    ensures Words(a + " " + b) == [a, b]
  {
    var s := a + " " + b;
    var n := Find(s, IsSpace);
    assert s[|a|] == ' ';
    assert forall i :: 0 <= i < |a| ==> s[i] == a[i];
    assert n == |a|;
    assert s[..n] == a && s[n..][1..] == b && s[n..][0] == ' ';
    OneWord(b);
  }

  lemma OnePart(s: string)
    requires NoDot(s)
    ensures SplitDots(s) == [s]
  {
  }

  lemma TwoParts(a: string, b: string)
    requires NoDot(a) && NoDot(b)
    ensures SplitDots(a + "." + b) == [a, b]
  {
    var s := a + "." + b;
    var n := Find(s, c => c == '.');
    assert s[|a|] == '.';
    assert forall i :: 0 <= i < |a| ==> s[i] == a[i];
    assert n == |a|;
    assert s[..n] == a && s[n + 1..] == b;
    OnePart(b);
  }

  predicate AllSpace(s: string) {
    forall i :: 0 <= i < |s| ==> IsSpace(s[i])
  }

  /** The characters from position `i` to `j` are no white space, all before them are, and so is the one after them. */
  predicate IsFirstWord(s: string, i: nat, j: nat) {
    && i < j <= |s| && (j == |s| || IsSpace(s[j]))
    && (forall k :: 0 <= k < i ==> IsSpace(s[k])) && (forall k :: i <= k < j ==> !IsSpace(s[k]))
  }

  /** The words are the longest stretches of other characters between white space, in order, and all of them. */
  ghost predicate AreWords(s: string, words: seq<string>)
    decreases |words|
  {
    if words == [] then AllSpace(s)
    else exists i: nat, j: nat :: IsFirstWord(s, i, j) && words[0] == s[i..j] && AreWords(s[j..], words[1..])
  }

  lemma FirstWordUnique(s: string, i: nat, j: nat, k: nat, l: nat)
    requires IsFirstWord(s, i, j) && IsFirstWord(s, k, l)
    ensures i == k && j == l
  {
    assert !IsSpace(s[i]) && !IsSpace(s[k]);
    assert j < |s| ==> IsSpace(s[j]);
  }

  /** Splitting at white space gives the words of the text. */
  lemma {:induction false} WordsExact(s: string)
    ensures AreWords(s, Words(s))
    decreases |s|
  {
    if s != "" {
      if IsSpace(s[0]) {
        WordsExact(s[1..]);
        SkipSpace(s, Words(s[1..]));
      } else {
        var n := Find(s, IsSpace);
        WordsExact(s[n..]);
        var words := Words(s);
        assert words[0] == s[0..n] && words[1..] == Words(s[n..]);
        StartsWithWord(s, 0, n, words);
      }
    }
  }

  lemma FirstWordLater(s: string, i: nat, j: nat)
    requires s != "" && IsSpace(s[0]) && IsFirstWord(s[1..], i, j)
    ensures IsFirstWord(s, i + 1, j + 1) && s[i + 1..j + 1] == s[1..][i..j] && s[j + 1..] == s[1..][j..]
  {
    var rest := s[1..];
    assert forall k :: 0 <= k < |rest| ==> s[k + 1] == rest[k];
    forall k | 0 <= k < i + 1
      ensures IsSpace(s[k])
    {
      assert k > 0 ==> s[k] == rest[k - 1];
    }
    forall k | i + 1 <= k < j + 1
      ensures !IsSpace(s[k])
    {
      assert s[k] == rest[k - 1];
    }
  }

  lemma StartsWithWord(s: string, i: nat, j: nat, words: seq<string>)
    requires words != [] && IsFirstWord(s, i, j) && words[0] == s[i..j] && AreWords(s[j..], words[1..])
    ensures AreWords(s, words)
  {
  }

  lemma SkipSpace(s: string, words: seq<string>)
    requires s != "" && IsSpace(s[0]) && AreWords(s[1..], words)
    ensures AreWords(s, words)
  {
    var rest := s[1..];
    if words != [] {
      var i: nat, j: nat :| IsFirstWord(rest, i, j) && words[0] == rest[i..j] && AreWords(rest[j..], words[1..]);
      hide AreWords, IsFirstWord;
      FirstWordLater(s, i, j);
      StartsWithWord(s, i + 1, j + 1, words);
    } else {
      assert s == [s[0]] + rest;
    }
  }

  /** Only white space has no words. */
  lemma NoWords(s: string, words: seq<string>)
    requires AreWords(s, words)
    ensures words == [] <==> AllSpace(s)
  {
    if words != [] {
      var i: nat, j: nat :| IsFirstWord(s, i, j) && words[0] == s[i..j] && AreWords(s[j..], words[1..]);
      assert !IsSpace(s[i]);
    }
  }

  /** A text has its words in one way only. */
  lemma {:induction false} WordsUnique(s: string, a: seq<string>, b: seq<string>)
    requires AreWords(s, a) && AreWords(s, b)
    ensures a == b
    decreases |a|
  {
    NoWords(s, a);
    NoWords(s, b);
    if a != [] {
      var i: nat, j: nat :| IsFirstWord(s, i, j) && a[0] == s[i..j] && AreWords(s[j..], a[1..]);
      var k: nat, l: nat :| IsFirstWord(s, k, l) && b[0] == s[k..l] && AreWords(s[l..], b[1..]);
      FirstWordUnique(s, i, j, k, l);
      WordsUnique(s[j..], a[1..], b[1..]);
      assert a == [a[0]] + a[1..] && b == [b[0]] + b[1..];
    }
  }

  /** The parts with a dot between any two. */
  function Dotted(parts: seq<string>): string {
    if |parts| == 0 then "" else if |parts| == 1 then parts[0] else parts[0] + "." + Dotted(parts[1..])
  }

  /** Splitting at dots undoes joining with dots: the parts hold no dot and make up the text. */
  lemma {:induction false} DotsExact(s: string)
    ensures Dotted(SplitDots(s)) == s
    ensures forall i :: 0 <= i < |SplitDots(s)| ==> NoDot(SplitDots(s)[i])
    decreases |s|
  {
    var n := Find(s, c => c == '.');
    if n < |s| {
      DotsExact(s[n + 1..]);
      var parts := SplitDots(s);
      assert parts == [s[..n]] + SplitDots(s[n + 1..]) && parts[1..] == SplitDots(s[n + 1..]);
      assert s == s[..n] + "." + s[n + 1..];
    }
  }

  lemma PlainNumber(s: string)
    requires s != "" && AllDigits(s) && FromDigits(s) < U128_LIMIT
    ensures ParseU128(s) == Some(FromDigits(s))
  {
    assert IsDigit(s[0]);
  }

  lemma {:induction false} DigitsAreBytes(s: string)
    requires AllDigits(s)
    ensures ByteLength(s) == |s|
  {
    if s != "" {
      DigitsAreBytes(s[..|s| - 1]);
    }
  }

  // ---------------------------------------------------------------------
  // Round trip

  /** The printed fraction: at most as many digits as the currency has, and worth the fraction. */
  lemma FractionText(c: Currency, fraction: nat)
    requires c.Valid() && 0 < fraction < Pow10(c.decimals)
    ensures var t := TrimZeros(Pad(Digits(fraction), c.decimals));
      && t != "" && AllDigits(t) && |t| <= c.decimals && t[|t| - 1] != '0'
      && FromDigits(t) * Pow10(c.decimals - |t|) == fraction && FromDigits(t) <= fraction
  {
    hide Pow10, Digits, FromDigits, TrimZeros, Pad;
    NoDecimals();
    DigitsLength(fraction, c.decimals);
    DigitsRoundTrip(fraction);
    PadKeeps(Digits(fraction), c.decimals);
    var padded := Pad(Digits(fraction), c.decimals);
    TrimKeeps(padded);
    var t := TrimZeros(padded);
    NothingIsZero();
    NotMore(FromDigits(t), Pow10(c.decimals - |t|));
  }

  lemma NoDecimals()
    ensures Pow10(0) == 1
  {
  }

  lemma NothingIsZero()
    ensures FromDigits("") == 0
  {
  }

  lemma NotMore(x: nat, p: nat)
    requires p > 0
    ensures x <= x * p && 0 * p == 0
  {
  }

  lemma Divide(value: nat, unit: nat)
    requires unit > 0
    ensures value / unit * unit + value % unit == value && value / unit * unit <= value && value / unit <= value
  {
    NotMore(value / unit, unit);
  }

  lemma ParsePrintedNumber(c: Currency, whole: U128, fraction: U128)
    requires c.Valid() && fraction < Pow10(c.decimals)
    ensures var text := NumberText(c, whole, fraction);
      && text != "" && NoSpace(text)
      && exists number: (U128, Option<(U128, nat)>) ::
        && ParseNumber(c, text) == Ok(number) && number.0 == whole && Scaled(c, number.1) == Ok(fraction)
  {
    hide Digits, FromDigits, TrimZeros, Pad, SplitDots, ByteLength, ParseU128, Pow10;
    DigitsRoundTrip(whole);
    PlainNumber(Digits(whole));
    if fraction == 0 {
      OnePart(Digits(whole));
      assert ParseNumber(c, Digits(whole)) == Ok((whole, None));
    } else {
      FractionText(c, fraction);
      var t := TrimZeros(Pad(Digits(fraction), c.decimals));
      TwoParts(Digits(whole), t);
      DigitsAreBytes(t);
      PlainNumber(t);
      assert ParseNumber(c, Digits(whole) + "." + t) == Ok((whole, Some((FromDigits(t), |t|))));
    }
  }

  lemma SumUp(whole: U128, unit: U128, fraction: U128, value: U128)
    requires whole * unit + fraction == value
    ensures Times(whole, unit) < U128_LIMIT && CheckedMul(whole, unit) == Ok(Times(whole, unit))
    ensures CheckedAdd(Times(whole, unit), fraction) == Ok(value)
  {
  }

  /** Main result: the printed text of every amount parses to the amount. */
  lemma RoundTrip(c: Currency, value: U128)
    requires c.Valid()
    ensures Parse(c, Print(c, value)) == Ok(value) && |Words(Print(c, value))| == 2
  {
    hide NumberText, Words, ParseNumber, Scaled, Pow10, Times, CheckedMul, CheckedAdd;
    var unit := Unit(c.decimals);
    Divide(value, unit);
    var whole, fraction := value / unit, value % unit;
    ParsePrintedNumber(c, whole, fraction);
    var text := NumberText(c, whole, fraction);
    TwoWords(text, c.symbol);
    var number: (U128, Option<(U128, nat)>) :|
      ParseNumber(c, text) == Ok(number) && number.0 == whole && Scaled(c, number.1) == Ok(fraction);
    SumUp(whole, unit, fraction, value);
  }

  /** Raw and formatted amounts are told apart. */
  lemma AmountRoundTrip(c: Currency, a: Amount)
    requires c.Valid()
    ensures ParseAmount(c, PrintAmount(c, a)) == Ok(a)
  {
    hide Digits, TrimZeros, Pad, Words, Parse, ParseU128, Pow10;
    match a {
      case Raw(v) =>
        OneWord(Digits(v));
        DigitsRoundTrip(v);
        PlainNumber(Digits(v));
      case Formatted(v) =>
        RoundTrip(c, v);
    }
  }

  // ---------------------------------------------------------------------
  // What an accepted text denotes

  /** The digits of a number without its optional plus sign. */
  function Unsigned(s: string): string {
    if s != "" && s[0] == '+' then s[1..] else s
  }

  predicate IsNumber(s: string) {
    Unsigned(s) != "" && AllDigits(Unsigned(s))
  }

  /** The text is a whole number, or a whole number and at most `decimals` bytes of fraction, and a symbol. */
  ghost predicate IsAmountText(c: Currency, words: seq<string>) {
    && |words| == 2 && words[1] == c.symbol
    && var parts := SplitDots(words[0]);
      && 1 <= |parts| <= 2 && IsNumber(parts[0])
      && (|parts| == 2 ==> IsNumber(parts[1]) && ByteLength(parts[1]) <= c.decimals)
  }

  /** The amount of such a text, in smallest units: whole * 10^D + fraction * 10^(D - length). */
  ghost function Denoted(c: Currency, words: seq<string>): nat
    requires IsAmountText(c, words)
  {
    var parts := SplitDots(words[0]);
    FromDigits(Unsigned(parts[0])) * Pow10(c.decimals) +
    if |parts| == 2 then FromDigits(Unsigned(parts[1])) * Pow10(c.decimals - ByteLength(parts[1])) else 0
  }

  lemma NumberBound(s: string)
    requires IsNumber(s)
    ensures FromDigits(Unsigned(s)) < Pow10(ByteLength(s))
  {
    FromDigitsBound(Unsigned(s));
    NumberBytes(s);
    Pow10Monotone(|Unsigned(s)|, ByteLength(s));
  }

  lemma NumberBytes(s: string)
    requires IsNumber(s)
    ensures ByteLength(s) == |s| >= |Unsigned(s)|
  {
    DigitsAreBytes(Unsigned(s));
    if s[0] == '+' {
      PlusIsOneByte(s[1..]);
      assert s == "+" + s[1..];
    }
  }

  lemma {:induction false} PlusIsOneByte(digits: string)
    requires AllDigits(digits)
    ensures ByteLength("+" + digits) == 1 + |digits|
  {
    var s := "+" + digits;
    if digits != "" {
      assert s[..|s| - 1] == "+" + digits[..|digits| - 1];
      PlusIsOneByte(digits[..|digits| - 1]);
    } else {
      assert s[..0] == "";
    }
  }

  /** Scaling a fraction never overflows: it stays below one unit. */
  lemma FractionNeverOverflows(c: Currency, s: string)
    requires c.Valid() && IsNumber(s) && ByteLength(s) <= c.decimals
    ensures var x := FromDigits(Unsigned(s));
      && x < U128_LIMIT
      && x * Pow10(c.decimals - ByteLength(s)) < Pow10(c.decimals) < U128_LIMIT
      && Scaled(c, Some((x, ByteLength(s)))) == Ok(x * Pow10(c.decimals - ByteLength(s)))
  {
    hide Pow10, ByteLength, FromDigits;
    var x, n := FromDigits(Unsigned(s)), ByteLength(s);
    NumberBound(s);
    Pow10Sum(n, c.decimals - n);
    Larger(x, Pow10(n), Pow10(c.decimals - n));
    UnitFits(c.decimals);
    UnitFits(n);
  }

  lemma Larger(x: nat, y: nat, p: nat)
    requires x < y && p > 0
    ensures x * p < y * p
  {
    assert (y - x) * p == y * p - x * p;
    NotMore(y - x, p);
  }

  /** A number and the symbol, with at most one dot and at most `decimals` bytes after it. */
  ghost predicate HasShape(c: Currency, words: seq<string>) {
    && |words| == 2 && words[1] == c.symbol
    && var parts := SplitDots(words[0]); |parts| == 1 || (|parts| == 2 && ByteLength(parts[1]) <= c.decimals)
  }

  /** Main result: a text is accepted if and only if it has the form of an amount and what it denotes fits in 128
      bits, and then it is parsed to what it denotes; each error says exactly what was wrong. */
  lemma ParseExact(c: Currency, s: string, words: seq<string>)
    requires c.Valid() && AreWords(s, words)
    ensures
      if IsAmountText(c, words) && Denoted(c, words) < U128_LIMIT then Parse(c, s) == Ok(Denoted(c, words))
      else if !HasShape(c, words) then Parse(c, s) == Err(InvalidFormat)
      else if IsAmountText(c, words) && FromDigits(Unsigned(SplitDots(words[0])[0])) < U128_LIMIT then
        Parse(c, s) == Err(IntOverflow)
      else Parse(c, s) == Err(IntParse)
  {
    hide Words, SplitDots, Pow10, ByteLength, FromDigits, AllDigits, AreWords;
    WordsExact(s);
    WordsUnique(s, words, Words(s));
    if |words| == 2 && words[1] == c.symbol {
      var parts := SplitDots(words[0]);
      if 1 <= |parts| <= 2 && IsNumber(parts[0]) {
        var x := FromDigits(Unsigned(parts[0]));
        NotMore(x, Pow10(c.decimals));
        if |parts| == 2 && IsNumber(parts[1]) && ByteLength(parts[1]) <= c.decimals {
          FractionNeverOverflows(c, parts[1]);
        }
      }
    }
  }

  /** A text is a raw amount exactly when it is one word that is a number in range, a formatted one exactly when it is two
      words that parse; each error says exactly what was wrong. */
  lemma AmountExact(c: Currency, s: string, words: seq<string>)
    requires c.Valid() && AreWords(s, words)
    ensures ParseAmount(c, s) ==
            if |words| == 1 then
              if IsNumber(words[0]) && FromDigits(Unsigned(words[0])) < U128_LIMIT then Ok(Raw(FromDigits(Unsigned(words[0]))))
              else Err(BadInteger)
            else if |words| == 2 then
              match Parse(c, s) case Ok(v) => Ok(Formatted(v)) case Err(e) => Err(BadFormatted(e))
            else Err(BadShape)
  {
    hide Words, Parse, FromDigits, AllDigits, AreWords;
    WordsExact(s);
    WordsUnique(s, words, Words(s));
  }

  // ---------------------------------------------------------------------
  // A plus sign in the fraction

  /** The ordinary reading of whole and fraction: each digit after the dot is worth a tenth of the one before. */
  ghost function OrdinaryReading(c: Currency, words: seq<string>): nat
    requires IsAmountText(c, words) && |SplitDots(words[0])| == 2
  {
    var parts := SplitDots(words[0]);
    NumberBytes(parts[1]);
    FromDigits(Unsigned(parts[0])) * Pow10(c.decimals) +
    FromDigits(Unsigned(parts[1])) * Pow10(c.decimals - |Unsigned(parts[1])|)
  }

  predicate HasPlus(s: string) {
    s != "" && s[0] == '+'
  }

  /** An accepted text with a fraction is parsed to its ordinary reading if and only if the fraction has no plus sign or
      is zero: a plus sign counts as a digit. */
  lemma OrdinaryExactly(c: Currency, s: string)
    requires c.Valid() && Parse(c, s).Ok? && |SplitDots(Words(s)[0])| == 2
    ensures var fraction := SplitDots(Words(s)[0])[1];
      && IsAmountText(c, Words(s))
      && (Parse(c, s).value == OrdinaryReading(c, Words(s)) <==>
          !HasPlus(fraction) || FromDigits(Unsigned(fraction)) == 0)
  {
    hide Words, SplitDots, Pow10, ByteLength, FromDigits, Parse;
    WordsExact(s);
    ParseExact(c, s, Words(s));
    var words := Words(s);
    var fraction := SplitDots(words[0])[1];
    NumberBytes(fraction);
    var x, n := FromDigits(Unsigned(fraction)), c.decimals - ByteLength(fraction);
    if HasPlus(fraction) {
      TenTimesMore(x, n);
    }
  }

  lemma TenTimesMore(x: nat, n: nat)
    ensures x * Pow10(n) == x * Pow10(n + 1) <==> x == 0
  {
    TimesTen(x, Pow10(n));
    NotMore(x, Pow10(n));
  }

  /** One ether and five hundredths, where five tenths are written. */
  lemma PlusMisread()
    ensures Parse(ETHEREUM, "1.+5 ETH") == Ok(1_050_000_000_000_000_000)
    ensures IsAmountText(ETHEREUM, Words("1.+5 ETH")) && |SplitDots(Words("1.+5 ETH")[0])| == 2
    ensures OrdinaryReading(ETHEREUM, Words("1.+5 ETH")) == 1_500_000_000_000_000_000
  {
    hide Words, SplitDots, Pow10, ByteLength, FromDigits, Parse, AreWords;
    TwoWords("1.+5", "ETH");
    TwoParts("1", "+5");
    assert "1.+5" + " " + "ETH" == "1.+5 ETH" && "1" + "." + "+5" == "1.+5";
    assert "+5"[1..] == "5";
    OneDigit("1");
    OneDigit("5");
    PlusIsOneByte("5");
    assert "+" + "5" == "+5";
    EtherPowers();
    WordsExact("1.+5 ETH");
    ParseExact(ETHEREUM, "1.+5 ETH", Words("1.+5 ETH"));
  }

  lemma OneDigit(s: string)
    requires |s| == 1 && AllDigits(s)
    ensures FromDigits(s) == s[0] as int - '0' as int
  {
    assert s[..0] == "";
  }

  lemma EtherPowers()
    ensures Pow10(16) == 10_000_000_000_000_000 && Pow10(17) == 100_000_000_000_000_000
    ensures Pow10(18) == 1_000_000_000_000_000_000
  {
    assert Pow10(4) == 10_000;
    Pow10Sum(4, 4);
    Pow10Sum(8, 8);
    Pow10Sum(16, 1);
    Pow10Sum(16, 2);
  }

  /** Both currencies of the command line meet what printing and parsing ask for. */
  lemma CurrenciesRoundTrip(c: Currency, value: U128)
    requires c == ETHEREUM || c == WRAPPED_VARA
    ensures c.Valid() && Parse(c, Print(c, value)) == Ok(value)
  {
    hide Parse, Print, Pow10;
    RoundTrip(c, value);
  }
}
