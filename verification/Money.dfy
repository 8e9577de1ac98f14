/**
 Money text of `lib/admin/billing-utils.ts`: reading a typed amount into minor units and printing minor units with
 the grouping and two fraction digits of the en-US locale.
 */
module Money {
  import opened Text

  /** `s.replace(/,/g, "")`. */
  function RemoveCommas(s: string): string {
    if s == "" then "" else RemoveCommas(s[..|s| - 1]) + if s[|s| - 1] == ',' then "" else [s[|s| - 1]]
  }

  /** `s.replace(/\D/g, "")`. */
  function OnlyDigits(s: string): (r: string)
    ensures AllDigits(r)
  {
    if s == "" then "" else OnlyDigits(s[..|s| - 1]) + if IsDigit(s[|s| - 1]) then [s[|s| - 1]] else ""
  }

  /** The number a digit string denotes; 0 for the empty one. */
  function ParseNat(s: string): nat
    requires AllDigits(s)
  {
    if s == "" then 0 else ParseNat(s[..|s| - 1]) * 10 + DigitValue(s[|s| - 1])
  }

  /** `s.padEnd(2, "0").slice(0, 2)`. */
  function TwoDigits(s: string): (r: string)
    ensures |r| == 2 && (AllDigits(s) ==> AllDigits(r))
  {
    if |s| == 0 then "00" else if |s| == 1 then s + "0" else s[..2]
  }

  /** The part before the first dot. */
  function UpToDot(s: string): string {
    var dot := IndexOfChar(s, '.');
    if dot == -1 then s else s[..dot]
  }

  /** The part between the first dot and the next. */
  function FractionPart(s: string): string {
    var dot := IndexOfChar(s, '.');
    if dot == -1 then "" else UpToDot(s[dot + 1..])
  }

  function UnsignedMinorUnits(unsigned: string): nat {
    ParseNat(OnlyDigits(UpToDot(unsigned))) * 100 + ParseNat(TwoDigits(OnlyDigits(FractionPart(unsigned))))
  }

  function ToMinorUnits(amount: string): int {
    SignedMinorUnits(Trim(RemoveCommas(amount)))
  }

  function SignedMinorUnits(cleaned: string): int {
    if cleaned == "" then 0
    else if cleaned[0] == '-' then -(UnsignedMinorUnits(cleaned[1..]) as int)
    else UnsignedMinorUnits(cleaned)
  }

  /** The branch of `toMinorUnits` for an amount that is a finite number, given its product with 100. */
  function RoundProduct(amount: real, product: real): int {
    if amount <= 0.0 then 0 else (product + 0.5).Floor
  }

  /** The same with the product exact. */
  function NumberToMinorUnits(amount: real): int {
    RoundProduct(amount, amount * 100.0)
  }

  // ---- printing ----

  function ThreeDigits(n: nat): string
    requires n < 1000
  {
    [DigitChar(n / 100), DigitChar(n / 10 % 10), DigitChar(n % 10)]
  }

  function Grouped(n: nat): string {
    if n < 1000 then Digits(n) else Grouped(n / 1000) + "," + ThreeDigits(n % 1000)
  }

  function Abs(n: int): nat {
    if n < 0 then -n else n
  }

  /** The hundredths an amount is printed with, rounded half away from zero, without its sign. */
  function Hundredths(amount: real): nat {
    ((if amount < 0.0 then -amount else amount) * 100.0 + 0.5).Floor
  }

  function Sign(amount: real): string {
    if amount < 0.0 then "-" else ""
  }

  /** `${currency} ${amount.toLocaleString(…)}` with two fraction digits. */
  function FormatAmount(amount: real, currency: string): string {
    currency + " " + Sign(amount) + Grouped(Hundredths(amount) / 100) + "." + Cents(Hundredths(amount) % 100)
  }

  /** `formatMoney` with the division by 100 exact. */
  function FormatMoney(cents: int, currency: string): string {
    FormatAmount(cents as real / 100.0, currency)
  }

  function Cents(n: nat): string
    requires n < 100
  {
    [DigitChar(n / 10), DigitChar(n % 10)]
  }

  // ---- filters over concatenation ----

  lemma {:induction false} RemoveCommasAppend(a: string, b: string)
    ensures RemoveCommas(a + b) == RemoveCommas(a) + RemoveCommas(b)
    decreases |b|
  {
    if b == "" {
      assert a + b == a;
    } else {
      assert (a + b)[..|a + b| - 1] == a + b[..|b| - 1];
      RemoveCommasAppend(a, b[..|b| - 1]);
    }
  }

  lemma {:induction false} OnlyDigitsAppend(a: string, b: string)
    ensures OnlyDigits(a + b) == OnlyDigits(a) + OnlyDigits(b)
    decreases |b|
  {
    if b == "" {
      assert a + b == a;
    } else {
      assert (a + b)[..|a + b| - 1] == a + b[..|b| - 1];
      OnlyDigitsAppend(a, b[..|b| - 1]);
    }
  }

  lemma {:induction false} NoCommas(s: string)
    requires ',' !in s
    ensures RemoveCommas(s) == s
    decreases |s|
  {
    if s != "" {
      NoCommas(s[..|s| - 1]);
      assert s == s[..|s| - 1] + [s[|s| - 1]];
    }
  }

  lemma {:induction false} DigitsStay(s: string)
    requires AllDigits(s)
    ensures OnlyDigits(s) == s
    decreases |s|
  {
    if s != "" {
      DigitsStay(s[..|s| - 1]);
      assert s == s[..|s| - 1] + [s[|s| - 1]];
    }
  }

  lemma {:induction false} NonDigitsGo(s: string)
    requires forall k | 0 <= k < |s| :: !IsDigit(s[k])
    ensures OnlyDigits(s) == ""
    decreases |s|
  {
    if s != "" {
      NonDigitsGo(s[..|s| - 1]);
    }
  }

  // ---- printed numbers read back ----

  lemma ParsePush(s: string, c: char)
    requires AllDigits(s) && IsDigit(c)
    ensures AllDigits(s + [c]) && ParseNat(s + [c]) == ParseNat(s) * 10 + DigitValue(c)
  {
    assert (s + [c])[..|s + [c]| - 1] == s;
  }

  lemma ThreePlaces(n: nat)
    requires n < 1000
    ensures n == (n / 100 * 10 + n / 10 % 10) * 10 + n % 10 && n / 100 < 10
  {
    assert n / 10 / 10 == n / 100;
  }

  lemma ParseThree(s: string, n: nat)
    requires AllDigits(s) && n < 1000
    ensures AllDigits(s + ThreeDigits(n)) && ParseNat(s + ThreeDigits(n)) == ParseNat(s) * 1000 + n
  {
    hide ParseNat, AllDigits;
    ThreePlaces(n);
    var x, y, z := n / 100, n / 10 % 10, n % 10;
    ParsePush(s, DigitChar(x));
    ParsePush(s + [DigitChar(x)], DigitChar(y));
    ParsePush(s + [DigitChar(x)] + [DigitChar(y)], DigitChar(z));
    assert s + ThreeDigits(n) == s + [DigitChar(x)] + [DigitChar(y)] + [DigitChar(z)];
  }

  lemma {:induction false} DigitsParse(n: nat)
    ensures AllDigits(Digits(n)) && Digits(n) != "" && ParseNat(Digits(n)) == n
  {
    if n < 10 {
      ParsePush("", DigitChar(n));
      assert Digits(n) == "" + [DigitChar(n)];
    } else {
      DigitsParse(n / 10);
      ParsePush(Digits(n / 10), DigitChar(n % 10));
    }
  }

  lemma CommaGoes(high: string, n: nat)
    requires n < 1000
    ensures RemoveCommas(high + "," + ThreeDigits(n)) == RemoveCommas(high) + ThreeDigits(n)
  {
    var low := ThreeDigits(n);
    RemoveCommasAppend(high + ",", low);
    RemoveCommasAppend(high, ",");
    NoCommas(low);
    assert ","[..0] == "";
  }

  /** Grouping only adds commas: without them the printed number reads back as itself. */
  lemma {:induction false} GroupedParses(n: nat)
    ensures var d := RemoveCommas(Grouped(n)); AllDigits(d) && d != "" && ParseNat(d) == n
  {
    hide RemoveCommas, ThreeDigits, Digits, ParseNat;
    if n < 1000 {
      DigitsParse(n);
      NoCommas(Digits(n));
    } else {
      GroupedParses(n / 1000);
      CommaGoes(Grouped(n / 1000), n % 1000);
      ParseThree(RemoveCommas(Grouped(n / 1000)), n % 1000);
    }
  }

  lemma CentsParse(n: nat)
    requires n < 100
    ensures AllDigits(Cents(n)) && ParseNat(Cents(n)) == n
  {
    ParsePush("", DigitChar(n / 10));
    ParsePush("" + [DigitChar(n / 10)], DigitChar(n % 10));
    assert Cents(n) == "" + [DigitChar(n / 10)] + [DigitChar(n % 10)];
  }

  // ---- what a plain decimal text is worth ----

  /** Text that reading ignores except for a leading minus: no digit, no dot. */
  predicate Inert(s: string) {
    forall k | 0 <= k < |s| :: !IsDigit(s[k]) && s[k] != '.'
  }

  lemma DotParts(before: string, after: string)
    requires '.' !in before && '.' !in after
    ensures UpToDot(before + "." + after) == before && FractionPart(before + "." + after) == after
  {
    var s := before + "." + after;
    IndexOfCharAfter(before, '.', after);
    IndexOfCharAbsent(after, '.');
    assert s[..|before|] == before && s[|before| + 1..] == after;
  }

  lemma InertDigits(head: string, whole: string)
    requires Inert(head) && AllDigits(whole)
    ensures OnlyDigits(head + whole) == whole && '.' !in head + whole
  {
    OnlyDigitsAppend(head, whole);
    NonDigitsGo(head);
    DigitsStay(whole);
  }

  /** Digits after the second fraction digit are dropped, not rounded. */
  lemma DecimalValue(head: string, whole: string, frac: string)
    requires Inert(head) && AllDigits(whole) && AllDigits(frac)
    ensures UnsignedMinorUnits(head + whole + "." + frac) == ParseNat(whole) * 100 + ParseNat(TwoDigits(frac))
  {
    InertDigits(head, whole);
    DigitsStay(frac);
    DotParts(head + whole, frac);
  }

  lemma SignedDecimalValue(head: string, whole: string, frac: string)
    requires Inert(head) && whole != "" && AllDigits(whole) && AllDigits(frac)
    ensures var value := ParseNat(whole) * 100 + ParseNat(TwoDigits(frac));
            SignedMinorUnits(head + whole + "." + frac) == if head != "" && head[0] == '-' then -value else value
  {
    var s := head + whole + "." + frac;
    if head != "" && head[0] == '-' {
      assert s[1..] == head[1..] + whole + "." + frac;
      DecimalValue(head[1..], whole, frac);
    } else {
      assert s[0] != '-' by {
        assert s[0] == (head + whole)[0] == if head != "" then head[0] else whole[0];
      }
      DecimalValue(head, whole, frac);
    }
  }

  lemma TrimEndOfSolid(s: string)
    requires s != "" && !IsSpace(s[|s| - 1])
    ensures TrimEnd(s) == s
  {
  }

  /** Trimming a text that ends in a digit only removes leading white space. */
  lemma TrimBeforeDot(pre: string, tail: string)
    requires tail != "" && !IsSpace(tail[0]) && !IsSpace(tail[|tail| - 1])
    ensures Trim(pre + tail) == TrimStart(pre) + tail
  {
    hide IsSpace, TrimStart;
    TrimStartKeeps(pre, tail);
    TrimEndOfSolid(TrimStart(pre) + tail);
  }

  // ---- main results ----

  /** A comma typed anywhere leaves the amount unchanged. */
  lemma CommaAnywhere(amount: string, at: nat)
    requires at <= |amount|
    ensures ToMinorUnits(amount[..at] + "," + amount[at..]) == ToMinorUnits(amount)
  {
    var a, b := amount[..at], amount[at..];
    RemoveCommasAppend(a + ",", b);
    RemoveCommasAppend(a, ",");
    RemoveCommasAppend(a, b);
    assert amount == a + b;
    assert ","[..0] == "" && RemoveCommas(",") == "";
    assert RemoveCommas(a + ",") == RemoveCommas(a);
  }

  lemma FractionValue(before: string, frac: string)
    requires '.' !in before && AllDigits(frac)
    ensures UnsignedMinorUnits(before + "." + frac)
            == ParseNat(OnlyDigits(before)) * 100 + ParseNat(TwoDigits(frac))
  {
    DotParts(before, frac);
    DigitsStay(frac);
  }

  /** The text `ToMinorUnits` works on, when the amount ends in a fraction. */
  lemma CleanedFraction(head: string, frac: string)
    requires frac != "" && AllDigits(frac)
    ensures Trim(RemoveCommas(head + "." + frac)) == TrimStart(RemoveCommas(head)) + "." + frac
  {
    hide RemoveCommas, TrimStart, Trim;
    var tail := "." + frac;
    RemoveCommasAppend(head, tail);
    NoCommas(tail);
    assert head + "." + frac == head + tail;
    assert tail[|tail| - 1] == frac[|frac| - 1];
    TrimBeforeDot(RemoveCommas(head), tail);
    assert TrimStart(RemoveCommas(head)) + tail == TrimStart(RemoveCommas(head)) + "." + frac;
  }

  lemma {:induction false} RemoveCommasShrinks(s: string)
    ensures forall c | c in RemoveCommas(s) :: c in s
    decreases |s|
  {
    if s != "" {
      RemoveCommasShrinks(s[..|s| - 1]);
    }
  }

  /** The value of a text of that form, by whether it starts with a minus. */
  function FractionWorth(head: string, frac: string): int
    requires AllDigits(frac)
  {
    var cents := ParseNat(TwoDigits(frac));
    if head != "" && head[0] == '-' then -(ParseNat(OnlyDigits(head[1..])) * 100 + cents)
    else ParseNat(OnlyDigits(head)) * 100 + cents
  }

  lemma SignedFractionValue(head: string, frac: string)
    requires '.' !in head && AllDigits(frac)
    ensures SignedMinorUnits(head + "." + frac) == FractionWorth(head, frac)
  {
    var s := head + "." + frac;
    if head != "" && head[0] == '-' {
      var rest := head[1..];
      assert s[0] == '-' && s[1..] == rest + "." + frac;
      assert '.' !in rest;
      FractionValue(rest, frac);
    } else {
      assert s[0] == if head == "" then '.' else head[0];
      FractionValue(head, frac);
    }
  }

  /** Fraction digits after the second are dropped, whatever precedes the dot. */
  lemma ExtraDigitsTruncate(head: string, frac: string, more: string)
    requires '.' !in head && |frac| >= 2 && AllDigits(frac) && AllDigits(more)
    ensures ToMinorUnits(head + "." + frac + more) == ToMinorUnits(head + "." + frac)
  {
    hide RemoveCommas, TrimStart, Trim, SignedMinorUnits, ParseNat, OnlyDigits;
    var h := RemoveCommas(head);
    RemoveCommasShrinks(head);
    TrimStartIsSuffix(h);
    CleanedFraction(head, frac);
    CleanedFraction(head, frac + more);
    assert head + "." + frac + more == head + "." + (frac + more);
    SignedFractionValue(TrimStart(h), frac);
    SignedFractionValue(TrimStart(h), frac + more);
    assert TwoDigits(frac + more) == TwoDigits(frac);
  }

  /** A currency code that reading cannot mistake for part of the number. */
  predicate PlainCurrency(currency: string) {
    Inert(currency) && ',' !in currency && '-' !in currency
  }

  /** Cleaning a printed amount drops the grouping commas and the leading white space. */
  lemma FormattedCleaned(pre: string, grouped: string, frac: string)
    requires ',' !in pre && frac != "" && AllDigits(frac)
    requires RemoveCommas(grouped) != "" && AllDigits(RemoveCommas(grouped))
    ensures Trim(RemoveCommas(pre + grouped + "." + frac)) == TrimStart(pre) + RemoveCommas(grouped) + "." + frac
  {
    NoCommas(pre);
    RemoveCommasAppend(pre, grouped);
    CleanedFraction(pre + grouped, frac);
    TrimStartKeeps(pre, RemoveCommas(grouped));
  }

  /** What is left of the currency code and the sign in front of the digits. */
  lemma HeadOfFormatted(currency: string, sign: string)
    requires PlainCurrency(currency) && (sign == "" || sign == "-")
    ensures var head := TrimStart(currency + " " + sign);
            Inert(head) && (head != "" && head[0] == '-' <==> AllSpace(currency) && sign == "-")
  {
    var pre := currency + " " + sign;
    TrimStartIsSuffix(pre);
    if AllSpace(currency) {
      TrimStartSkips(currency + " ", sign);
    } else {
      NonBlankKept(currency, " " + sign);
      assert pre == currency + (" " + sign);
    }
  }

  lemma {:induction false} NonBlankKept(s: string, tail: string)
    requires !AllSpace(s)
    ensures TrimStart(s + tail) != "" && TrimStart(s + tail)[0] in s
  {
    if IsSpace(s[0]) {
      assert (s + tail)[1..] == s[1..] + tail;
      assert !AllSpace(s[1..]) by {
        var k :| 0 <= k < |s| && !IsSpace(s[k]);
        assert s[1..][k - 1] == s[k];
      }
      NonBlankKept(s[1..], tail);
    } else {
      assert (s + tail)[0] == s[0];
    }
  }

  /** What was printed is read back to the hundredth, without its sign unless the currency code is blank. */
  lemma AmountReadsBack(amount: real, currency: string)
    requires PlainCurrency(currency)
    ensures ToMinorUnits(FormatAmount(amount, currency))
            == if AllSpace(currency) && amount < 0.0 then -(Hundredths(amount) as int) else Hundredths(amount)
  {
    hide ParseNat, RemoveCommas, Trim, TrimStart, Grouped, UnsignedMinorUnits, AllDigits, IsSpace, Hundredths;
    var n := Hundredths(amount);
    var head := TrimStart(currency + " " + Sign(amount));
    var whole := RemoveCommas(Grouped(n / 100));
    HeadOfFormatted(currency, Sign(amount));
    GroupedParses(n / 100);
    CentsParse(n % 100);
    FormattedCleaned(currency + " " + Sign(amount), Grouped(n / 100), Cents(n % 100));
    SignedDecimalValue(head, whole, Cents(n % 100));
    assert TwoDigits(Cents(n % 100)) == Cents(n % 100);
  }

  /** Any amount closer than half a minor unit to `cents` is printed with those hundredths. */
  lemma NearAmount(amount: real, cents: int)
    requires -0.5 < amount * 100.0 - cents as real < 0.5
    ensures Hundredths(amount) == Abs(cents)
    ensures cents > 0 ==> amount > 0.0
    ensures cents < 0 ==> amount < 0.0
  {
    var size := (if amount < 0.0 then -amount else amount) * 100.0;
    var n := Abs(cents) as real;
    assert n <= size + 0.5 < n + 1.0;
  }

  /**
   Printing and reading back gives the amount again, except that a minus sign standing behind a currency code is
   not seen: the amount loses its sign unless the code is blank. It is enough that what is printed is closer than half a
   minor unit to the amount.
   */
  lemma NearAmountReadsBack(amount: real, cents: int, currency: string)
    requires PlainCurrency(currency) && -0.5 < amount * 100.0 - cents as real < 0.5
    ensures ToMinorUnits(FormatAmount(amount, currency)) == if AllSpace(currency) then cents else Abs(cents)
  {
    hide FormatAmount, ToMinorUnits, Hundredths, AllSpace, PlainCurrency;
    AmountReadsBack(amount, currency);
    NearAmount(amount, cents);
  }

  lemma FormattedReadsBack(cents: int, currency: string)
    requires PlainCurrency(currency)
    ensures ToMinorUnits(FormatMoney(cents, currency)) == if AllSpace(currency) then cents else Abs(cents)
  {
    hide FormatAmount, ToMinorUnits, AllSpace, PlainCurrency;
    NearAmountReadsBack(cents as real / 100.0, cents, currency);
  }

  lemma BirrIsPlain()
    ensures PlainCurrency("ETB") && !AllSpace("ETB")
  {
    assert "ETB"[0] == 'E' && !IsSpace('E');
  }

  /** `toMinorUnits(formatMoney(c, "ETB")) === c` exactly for the amounts that are not negative. */
  lemma BirrRoundTrip(cents: int)
    ensures ToMinorUnits(FormatMoney(cents, "ETB")) == cents <==> cents >= 0
  {
    hide FormatMoney, ToMinorUnits, AllSpace, PlainCurrency;
    BirrIsPlain();
    FormattedReadsBack(cents, "ETB");
  }

  /** The number branch and the text branch agree on every amount of whole minor units. */
  lemma NumberAndTextAgree(cents: nat)
    ensures NumberToMinorUnits(cents as real / 100.0) == ToMinorUnits(FormatMoney(cents, "ETB"))
  {
    BirrRoundTrip(cents);
    assert cents as real / 100.0 * 100.0 == cents as real;
  }

  // ---- doubles ----

  function Pow2(k: nat): nat {
    if k == 0 then 1 else 2 * Pow2(k - 1)
  }

  /**
   `x` is a result of rounding `exact`, which is not negative, to the nearest double: below 2^k doubles lie 2^(k - 53)
   apart or closer, so the error is at most half of that.
   */
  ghost predicate RoundedTo(exact: real, x: real) {
    x >= 0.0 && forall k: nat | exact < Pow2(k) as real ::
      -(Pow2(k) as real) <= (x - exact) * 18014398509481984.0 <= Pow2(k) as real
  }

  /** 100 * 2^46 and 100 * 2^45. */
  const TEXT_LIMIT := 7_036_874_417_766_400
  const NUMBER_LIMIT := 3_518_437_208_883_200

  lemma Powers()
    ensures Pow2(45) * 100 == NUMBER_LIMIT && Pow2(46) * 100 == TEXT_LIMIT && Pow2(52) == 4_503_599_627_370_496
    ensures Pow2(54) == 18_014_398_509_481_984
  {
    assert Pow2(10) == 1024;
    PowersAdd(10, 10);
    PowersAdd(20, 20);
    PowersAdd(40, 5);
    PowersAdd(45, 1);
    PowersAdd(46, 6);
    PowersAdd(52, 2);
    assert Pow2(5) == 32 && Pow2(1) == 2 && Pow2(6) == 64 && Pow2(2) == 4;
  }

  lemma {:induction false} PowersAdd(a: nat, b: nat)
    ensures Pow2(a + b) == Pow2(a) * Pow2(b)
  {
    if b > 0 {
      PowersAdd(a, b - 1);
    }
  }

  /** With the division rounded as JavaScript rounds it, amounts below 100 * 2^46 minor units are still read back. */
  lemma DoubleReadsBack(cents: nat, quotient: real)
    requires cents < TEXT_LIMIT && RoundedTo(cents as real / 100.0, quotient)
    ensures ToMinorUnits(FormatAmount(quotient, "ETB")) == cents
  {
    hide Pow2, ToMinorUnits, FormatAmount, PlainCurrency, AllSpace;
    Powers();
    BirrIsPlain();
    assert cents as real / 100.0 < Pow2(46) as real;
    NearAmountReadsBack(quotient, cents, "ETB");
  }

  /** With the product rounded as well, the number branch recovers amounts below 100 * 2^45 minor units. */
  lemma DoubleNumberReadsBack(cents: nat, amount: real, product: real)
    requires cents < NUMBER_LIMIT && RoundedTo(cents as real / 100.0, amount) && RoundedTo(amount * 100.0, product)
    ensures RoundProduct(amount, product) == cents
  {
    hide Pow2;
    Powers();
    assert cents as real / 100.0 < Pow2(45) as real;
    assert amount * 100.0 < Pow2(52) as real;
    assert -0.5 < product - cents as real < 0.5;
  }

  lemma {:induction false} PowersGrow(a: nat, b: nat)
    requires a <= b
    ensures Pow2(a) <= Pow2(b)
  {
    if a < b { PowersGrow(a, b - 1); }
  }

  /** The error of a rounding need only be compared with the first power of two above the exact value. */
  lemma RoundedWhenBracketed(exact: real, x: real, k: nat)
    requires k > 0 && x >= 0.0 && Pow2(k - 1) as real <= exact
    requires -(Pow2(k) as real) <= (x - exact) * 18014398509481984.0 <= Pow2(k) as real
    ensures RoundedTo(exact, x)
  {
    hide Pow2;
    forall j: nat | exact < Pow2(j) as real
      ensures -(Pow2(j) as real) <= (x - exact) * 18014398509481984.0 <= Pow2(j) as real
    {
      if j < k { PowersGrow(j, k - 1); } else { PowersGrow(k, j); }
    }
  }

  /** One minor unit above the limit the quotient is the double 2^46 + 1/64, which is printed a minor unit too high. */
  lemma TextLimitIsSharp()
    ensures var cents, quotient := TEXT_LIMIT + 1, 70368744177664.015625;
            && RoundedTo(cents as real / 100.0, quotient)
            && ToMinorUnits(FormatAmount(quotient, "ETB")) == cents + 1
  {
    hide Pow2, ToMinorUnits, FormatAmount, PlainCurrency, AllSpace;
    Powers();
    BirrIsPlain();
    assert Pow2(47) == 140_737_488_355_328 by { PowersAdd(46, 1); TwoIsTwo(); }
    RoundedWhenBracketed((TEXT_LIMIT + 1) as real / 100.0, 70368744177664.015625, 47);
    NearAmountReadsBack(70368744177664.015625, TEXT_LIMIT + 2, "ETB");
  }

  lemma TwoIsTwo()
    ensures Pow2(1) == 2 && Pow2(6) == 64
  {
  }

  /** Above its limit the number branch can be a minor unit too high: both roundings go up. */
  lemma NumberLimitMatters()
    ensures var cents, amount, product := 3_840_455_820_970_320, 38404558209703.203125, 3840455820970320.5;
            && RoundedTo(cents as real / 100.0, amount) && RoundedTo(amount * 100.0, product)
            && RoundProduct(amount, product) == cents + 1
  {
    hide Pow2;
    Powers();
    assert Pow2(51) == 2_251_799_813_685_248 by { PowersAdd(45, 6); TwoIsTwo(); }
    RoundedWhenBracketed(38404558209703.2, 38404558209703.203125, 46);
    RoundedWhenBracketed(3840455820970320.3125, 3840455820970320.5, 52);
  }

  // ---- what is printed ----

  /**
   The grouping of a whole number: counted from the right, a comma in every fourth place and nowhere else, and no comma
   or superfluous zero in front.
   */
  lemma {:induction false} CommasStand(n: nat)
    ensures var g := Grouped(n);
            && g != "" && IsDigit(g[0]) && (n > 0 ==> g[0] != '0') && (n == 0 ==> g == "0")
            && forall k | 0 <= k < |g| :: if k % 4 == 3 then g[|g| - 1 - k] == ',' else IsDigit(g[|g| - 1 - k])
  {
    hide Digits;
    if n < 1000 {
      SmallNumber(n);
    } else {
      CommasStand(n / 1000);
      var high, low := Grouped(n / 1000), ThreeDigits(n % 1000);
      var g := Grouped(n);
      assert g == high + "," + low && |low| == 3;
      forall k | 0 <= k < |g|
        ensures if k % 4 == 3 then g[|g| - 1 - k] == ',' else IsDigit(g[|g| - 1 - k])
      {
        if k >= 4 { assert g[|g| - 1 - k] == high[|high| - 1 - (k - 4)] && (k - 4) % 4 == k % 4; }
      }
      assert g[0] == high[0];
    }
  }

  lemma SmallNumber(n: nat)
    requires n < 1000
    ensures var d := Digits(n);
            && 1 <= |d| <= 3 && (forall k | 0 <= k < |d| :: IsDigit(d[k]))
            && (n > 0 ==> d[0] != '0') && (n == 0 ==> d == "0")
  {
    if n >= 10 {
      assert Digits(n) == Digits(n / 10) + [DigitChar(n % 10)];
      if n >= 100 { assert Digits(n / 10) == Digits(n / 100) + [DigitChar(n / 10 % 10)]; }
    }
  }

  /** Code, space, sign, grouped whole units, a dot and exactly two digits. */
  lemma PrintedForm(amount: real, currency: string)
    ensures var n := Hundredths(amount);
            FormatAmount(amount, currency)
            == (currency + (if amount < 0.0 then " -" else " ")) + Grouped(n / 100) + "."
               + ['0' + (n % 100 / 10) as char, '0' + (n % 10) as char]
  {
    var n := Hundredths(amount);
    assert n % 100 % 10 == n % 10;
    assert " " + Sign(amount) == if amount < 0.0 then " -" else " ";
    assert currency + " " + Sign(amount) == currency + (" " + Sign(amount));
  }

  lemma PrintedExample()
    ensures FormatMoney(123_450, "ETB") == "ETB 1,234.50"
  {
    hide FormatAmount, Grouped, Hundredths;
    assert 123_450 as real / 100.0 == 1234.5;
    NearAmount(1234.5, 123_450);
    PrintedForm(1234.5, "ETB");
    GroupedExample();
    ExampleSpelt();
  }

  lemma ExampleSpelt()
    ensures ("ETB" + " ") + "1,234" + "." + ['0' + 5 as char, '0' + 0 as char] == "ETB 1,234.50"
  {
  }

  lemma GroupedExample()
    ensures Grouped(1234) == "1,234"
  {
    assert Grouped(1) == Digits(1) == "1" && ThreeDigits(234) == "234";
    assert Grouped(1234) == "1" + "," + "234";
  }

  /** Reading: nothing, or only white space and commas, is zero; so is a number that is not positive. */
  lemma NothingReads(amount: real)
    ensures ToMinorUnits("") == 0 && ToMinorUnits(" , ") == 0
    ensures amount <= 0.0 ==> NumberToMinorUnits(amount) == 0
  {
    assert RemoveCommas("") == "";
    assert " , "[..2] == " ," && " ,"[..1] == " " && " "[..0] == "";
    assert RemoveCommas(" , ") == "  ";
    TrimAround("  ", "", "");
    assert "  " + "" + "" == "  ";
    TrimBlank();
  }

  /** A tie is rounded away from zero. */
  lemma TiesRoundAway(n: nat)
    ensures Hundredths((n as real + 0.5) / 100.0) == n + 1 && Hundredths(-(n as real + 0.5) / 100.0) == n + 1
  {
    var x := (n as real + 0.5) / 100.0;
    assert x * 100.0 + 0.5 == (n + 1) as real;
    assert -(n as real + 0.5) / 100.0 == -x;
  }
}
