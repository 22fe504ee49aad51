/** Option and Result, in the shape every other module uses. */
module Results {
  datatype Option<+T> = None | Some(value: T)

  datatype Result<+T, +E> = Ok(value: T) | Err(error: E)
}

/**
 Exact cents arithmetic: decimal text in and out, round-half-up percentages, and the stored
 commission/subtotal ratio carried forward onto partial amounts.
 */
module Money {
  import opened Results

  datatype MoneyError = TooManyDecimals | NotDecimal

  // ---------------------------------------------------------------------
  // Decimal text
  // ---------------------------------------------------------------------

  predicate IsDigit(c: char) {
    '0' <= c <= '9'
  }

  predicate AllDigits(s: string) {
    forall i | 0 <= i < |s| :: IsDigit(s[i])
  }

  /** The white space String.prototype.trim removes. */
  predicate IsSpace(c: char) {
    || '\t' <= c <= '\r' || c == ' ' || c == '\U{A0}' || c == '\U{1680}' || '\U{2000}' <= c <= '\U{200A}'
    || c == '\U{2028}' || c == '\U{2029}' || c == '\U{202F}' || c == '\U{205F}' || c == '\U{3000}' || c == '\U{FEFF}'
  }

  function TrimStart(s: string): string {
    if s != "" && IsSpace(s[0]) then TrimStart(s[1..]) else s
  }

  function TrimEnd(s: string): string {
    if s != "" && IsSpace(s[|s| - 1]) then TrimEnd(s[..|s| - 1]) else s
  }

  /** The text up to the first decimal point. */
  function BeforePoint(s: string): string {
    if s == "" || s[0] == '.' then "" else [s[0]] + BeforePoint(s[1..])
  }

  /** The text after the first decimal point; empty when there is none. */
  function AfterPoint(s: string): string {
    if s == "" then "" else if s[0] == '.' then s[1..] else AfterPoint(s[1..])
  }

  function DigitValue(c: char): nat
    requires IsDigit(c)
  {
    c as int - '0' as int
  }

  function DigitsValue(s: string): nat
    requires AllDigits(s)
  {
    if s == "" then 0 else 10 * DigitsValue(s[..|s| - 1]) + DigitValue(s[|s| - 1])
  }

  function PadEnd2(s: string): string
    requires |s| <= 2
  {
    if |s| == 0 then "00" else if |s| == 1 then s + "0" else s
  }

  /** Text after a second decimal point is dropped, exactly as destructuring the split does. */
  function ParseMoneyToCents(value: string): Result<int, MoneyError> {
    var trimmed := TrimEnd(TrimStart(value));
    var negative := trimmed != "" && trimmed[0] == '-';
    var unsigned := if negative then trimmed[1..] else trimmed;
    var whole := BeforePoint(unsigned);
    var fraction := BeforePoint(AfterPoint(unsigned));
    if |fraction| > 2 then Err(TooManyDecimals)
    else if !AllDigits(whole) || !AllDigits(fraction) then Err(NotDecimal)
    else
      var cents := DigitsValue(whole) * 100 + DigitsValue(PadEnd2(fraction));
      Ok(if negative then -cents else cents)
  }

  function Digit(d: nat): char
    requires d < 10
  {
    '0' + d as char
  }

  function ShowNat(n: nat): string {
    if n < 10 then [Digit(n)] else ShowNat(n / 10) + [Digit(n % 10)]
  }

  function PadStart2(s: string): string {
    if |s| == 0 then "00" else if |s| == 1 then "0" + s else s
  }

  function Signed(negative: bool, unsigned: string): string {
    if negative then "-" + unsigned else unsigned
  }

  function FormatCentsToMoney(cents: int): string {
    var abs := if cents < 0 then -cents else cents;
    Signed(cents < 0, ShowNat(abs / 100) + "." + PadStart2(ShowNat(abs % 100)))
  }

  /** No superfluous leading zero. */
  predicate IsCanonicalWhole(s: string) {
    |s| > 0 && AllDigits(s) && (|s| > 1 ==> s[0] != '0')
  }

  predicate IsCanonicalUnsigned(s: string) {
    && |s| >= 4
    && IsCanonicalWhole(s[..|s| - 3])
    && s[|s| - 3] == '.'
    && AllDigits(s[|s| - 2..])
  }

  /** Exactly two decimals, no superfluous zero, and a minus sign only in front of a non-zero amount. */
  predicate IsCanonical(s: string) {
    if s != "" && s[0] == '-' then IsCanonicalUnsigned(s[1..]) && s != "-0.00" else IsCanonicalUnsigned(s)
  }

  lemma {:induction false} ShowNatIsCanonical(n: nat)
    ensures IsCanonicalWhole(ShowNat(n)) && DigitsValue(ShowNat(n)) == n
    ensures n >= 10 ==> ShowNat(n)[0] != '0' && |ShowNat(n)| >= 2
    ensures n > 0 ==> ShowNat(n)[0] != '0'
  {
    if n >= 10 {
      ShowNatIsCanonical(n / 10);
      assert ShowNat(n)[..|ShowNat(n)| - 1] == ShowNat(n / 10);
    } else {
      assert ShowNat(n)[..0] == "";
    }
  }

  lemma {:induction false} ShowNatOfDigits(s: string)
    requires IsCanonicalWhole(s)
    ensures ShowNat(DigitsValue(s)) == s
    ensures |s| > 1 ==> DigitsValue(s) >= 10
    ensures |s| == 1 ==> DigitsValue(s) < 10
    ensures s[0] != '0' ==> DigitsValue(s) > 0
  {
    var init := s[..|s| - 1];
    if |s| > 1 {
      ShowNatOfDigits(init);
      assert s == init + [s[|s| - 1]];
    } else {
      assert init == "";
    }
  }

  lemma ValueOfTwoDigits(s: string)
    requires |s| == 2 && AllDigits(s)
    ensures DigitsValue(s) == 10 * DigitValue(s[0]) + DigitValue(s[1])
  {
    var init := s[..1];
    assert init[..0] == "";
    assert DigitsValue(init) == DigitValue(s[0]);
  }

  /** Two digits are two digits: padding the printed value restores them. */
  lemma PadOfTwoDigits(s: string)
    requires |s| == 2 && AllDigits(s)
    ensures DigitsValue(s) < 100 && PadStart2(ShowNat(DigitsValue(s))) == s
  {
    ValueOfTwoDigits(s);
    if s[0] != '0' {
      ShowNatOfDigits(s);
    } else {
      assert Digit(DigitValue(s[1])) == s[1];
    }
  }

  lemma PadStartIsTwoDigits(n: nat)
    requires n < 100
    ensures var p := PadStart2(ShowNat(n)); |p| == 2 && AllDigits(p) && DigitsValue(p) == n
  {
    if n < 10 {
      assert ShowNat(n) == [Digit(n)];
    } else {
      assert ShowNat(n / 10) == [Digit(n / 10)];
      assert ShowNat(n) == [Digit(n / 10), Digit(n % 10)];
    }
    ValueOfTwoDigits(PadStart2(ShowNat(n)));
  }

  lemma {:induction false} SplitAtPoint(whole: string, rest: string)
    requires AllDigits(whole)
    ensures BeforePoint(whole + "." + rest) == whole && AfterPoint(whole + "." + rest) == rest
  {
    var s := whole + "." + rest;
    if whole == "" {
      assert s[1..] == rest;
    } else {
      SplitAtPoint(whole[1..], rest);
      assert s[1..] == whole[1..] + "." + rest;
    }
  }

  lemma {:induction false} BeforePointOfDigits(s: string)
    requires AllDigits(s)
    ensures BeforePoint(s) == s
  {
    if s != "" {
      BeforePointOfDigits(s[1..]);
    }
  }

  function Unsigned(s: string): string {
    if s != "" && s[0] == '-' then s[1..] else s
  }

  /** The amount a canonical text spells. */
  function CanonicalValue(s: string): int
    requires IsCanonical(s)
  {
    var u := Unsigned(s);
    var cents := DigitsValue(u[..|u| - 3]) * 100 + DigitsValue(u[|u| - 2..]);
    if s[0] == '-' then -cents else cents
  }

  lemma CanonicalHasNoSpace(s: string)
    requires IsCanonical(s)
    ensures TrimStart(s) == s && TrimEnd(s) == s && Unsigned(s)[0] != '-'
  {}

  lemma ParseCanonical(s: string)
    requires IsCanonical(s)
    ensures ParseMoneyToCents(s) == Ok(CanonicalValue(s))
  {
    hide DigitsValue;
    CanonicalHasNoSpace(s);
    var u := Unsigned(s);
    var whole, fraction := u[..|u| - 3], u[|u| - 2..];
    assert u == whole + "." + fraction;
    SplitAtPoint(whole, fraction);
    BeforePointOfDigits(fraction);
    assert PadEnd2(fraction) == fraction;
  }

  lemma ZeroText(whole: string, fraction: string)
    requires whole == "0" && fraction == "00"
    ensures DigitsValue(whole) == 0 && DigitsValue(fraction) == 0
  {}

  lemma NonZeroText(whole: string, fraction: string)
    requires IsCanonicalWhole(whole) && |fraction| == 2 && AllDigits(fraction)
    requires whole != "0" || fraction != "00"
    ensures DigitsValue(whole) * 100 + DigitsValue(fraction) > 0
  {}

  /** The two halves of a canonical unsigned text, and their value. */
  lemma JoinAtPoint(whole: string, fraction: string)
    requires IsCanonicalWhole(whole) && |fraction| == 2 && AllDigits(fraction)
    ensures var u := whole + "." + fraction;
            IsCanonicalUnsigned(u) && u[..|u| - 3] == whole && u[|u| - 2..] == fraction && IsDigit(u[0])
  {}

  lemma SignedIsCanonical(negative: bool, whole: string, fraction: string)
    requires IsCanonicalWhole(whole) && |fraction| == 2 && AllDigits(fraction)
    requires negative ==> whole != "0" || fraction != "00"
    ensures var s := Signed(negative, whole + "." + fraction);
            IsCanonical(s) && Unsigned(s) == whole + "." + fraction && (negative <==> s[0] == '-')
  {}

  lemma FormatIsCanonical(cents: int)
    ensures IsCanonical(FormatCentsToMoney(cents))
    ensures CanonicalValue(FormatCentsToMoney(cents)) == cents
  {
    hide ShowNat, DigitsValue;
    var abs := if cents < 0 then -cents else cents;
    var whole, fraction := ShowNat(abs / 100), PadStart2(ShowNat(abs % 100));
    ShowNatIsCanonical(abs / 100);
    PadStartIsTwoDigits(abs % 100);
    if whole == "0" && fraction == "00" {
      ZeroText(whole, fraction);
    }
    SignedIsCanonical(cents < 0, whole, fraction);
    JoinAtPoint(whole, fraction);
  }

  lemma FormatOfCanonical(s: string)
    requires IsCanonical(s)
    ensures FormatCentsToMoney(CanonicalValue(s)) == s
  {
    hide ShowNat, DigitsValue, FormatCentsToMoney;
    var u := Unsigned(s);
    var whole, fraction := u[..|u| - 3], u[|u| - 2..];
    assert u == whole + "." + fraction;
    assert s == Signed(s[0] == '-', u);
    if whole == "0" && fraction == "00" {
      assert u == "0.00";
      assert "-" + u == "-0.00";
    }
    FormatOfParts(s[0] == '-', whole, fraction);
  }

  lemma FormatOfParts(negative: bool, whole: string, fraction: string)
    requires IsCanonicalWhole(whole) && |fraction| == 2 && AllDigits(fraction)
    requires negative ==> whole != "0" || fraction != "00"
    ensures var cents := DigitsValue(whole) * 100 + DigitsValue(fraction);
            FormatCentsToMoney(if negative then -cents else cents) == Signed(negative, whole + "." + fraction)
  {
    hide ShowNat, DigitsValue, FormatCentsToMoney;
    ShowNatOfDigits(whole);
    PadOfTwoDigits(fraction);
    if negative {
      NonZeroText(whole, fraction);
    }
    FormatUnfolded(negative, DigitsValue(whole), DigitsValue(fraction));
  }

  lemma FormatUnfolded(negative: bool, w: nat, f: nat)
    requires f < 100 && (negative ==> w * 100 + f > 0)
    ensures FormatCentsToMoney(if negative then -(w * 100 + f) else w * 100 + f)
         == Signed(negative, ShowNat(w) + "." + PadStart2(ShowNat(f)))
  {
    var abs := w * 100 + f;
    assert abs / 100 == w && abs % 100 == f;
  }

  /** Printing then parsing is the identity on every amount, negative ones included. */
  lemma ParseUndoesFormat(cents: int)
    ensures ParseMoneyToCents(FormatCentsToMoney(cents)) == Ok(cents)
  {
    hide FormatCentsToMoney, ParseMoneyToCents;
    FormatIsCanonical(cents);
    ParseCanonical(FormatCentsToMoney(cents));
  }

  /** Parsing then printing gives a text back exactly when the text is canonical. */
  lemma FormatUndoesParseIff(s: string)
    ensures (ParseMoneyToCents(s).Ok? && FormatCentsToMoney(ParseMoneyToCents(s).value) == s) <==> IsCanonical(s)
  {
    hide FormatCentsToMoney, ParseMoneyToCents, CanonicalValue;
    if ParseMoneyToCents(s).Ok? {
      FormatIsCanonical(ParseMoneyToCents(s).value);
    }
    if IsCanonical(s) {
      ParseCanonical(s);
      FormatOfCanonical(s);
    }
  }

  /** What the request DTOs accept as a price: digits, then at most two decimals. */
  predicate IsPriceText(s: string) {
    var whole, fraction := BeforePoint(s), AfterPoint(s);
    && whole != "" && AllDigits(whole)
    && (s == whole || (s == whole + "." + fraction && 1 <= |fraction| <= 2 && AllDigits(fraction)))
  }

  lemma {:induction false} NoPointNoRest(s: string)
    requires BeforePoint(s) == s
    ensures AfterPoint(s) == ""
  {
    if s != "" {
      NoPointNoRest(s[1..]);
    }
  }

  /** A price text always parses, to a non-negative amount. */
  lemma PriceTextParses(s: string)
    requires IsPriceText(s)
    ensures ParseMoneyToCents(s).Ok? && ParseMoneyToCents(s).value >= 0
  {
    var whole, fraction := BeforePoint(s), AfterPoint(s);
    assert s[0] == whole[0] && IsDigit(s[0]);
    if s == whole {
      assert IsDigit(s[|s| - 1]);
      NoPointNoRest(s);
    } else {
      assert s[|s| - 1] == fraction[|fraction| - 1];
      BeforePointOfDigits(fraction);
    }
    assert TrimStart(s) == s && TrimEnd(s) == s;
  }

  /** The amount a price text stands for. */
  function PriceCents(s: string): (cents: int)
    requires IsPriceText(s)
    ensures ParseMoneyToCents(s) == Ok(cents) && cents >= 0
  {
    PriceTextParses(s);
    ParseMoneyToCents(s).value
  }

  // ---------------------------------------------------------------------
  // Rounding
  // ---------------------------------------------------------------------

  /** BigInt division: truncates toward zero. */
  function TruncDiv(n: int, d: int): int
    requires d != 0
  {
    var q := (if n < 0 then -n else n) / (if d < 0 then -d else d);
    if (n < 0) == (d < 0) then q else -q
  }

  function RoundHalfUpDivide(numerator: int, denominator: int): int
    requires denominator != 0
  {
    var quotient := TruncDiv(numerator, denominator);
    var remainder := numerator - quotient * denominator;
    if remainder * 2 >= denominator then quotient + 1 else quotient
  }

  function SumCents(values: seq<int>): int {
    if values == [] then 0 else values[0] + SumCents(values[1..])
  }

  /** `percent` is decimal text: "10.00" means 10%. */
  function ApplyPercent(cents: int, percent: string): Result<int, MoneyError> {
    match ParseMoneyToCents(percent)
    case Err(e) => Err(e)
    case Ok(hundredths) => Ok(RoundHalfUpDivide(cents * hundredths, 10_000))
  }

  function ApplyRatio(amount: int, numerator: int, denominator: int): int {
    if denominator == 0 then 0 else RoundHalfUpDivide(amount * numerator, denominator)
  }

  lemma Distribute(a: int, b: int, c: int)
    ensures a * (b + c) == a * b + a * c
  {}

  lemma NonNegProduct(a: int, b: int)
    requires a >= 0 && b >= 0
    ensures a * b >= 0
  {}

  lemma NoSmallMultiple(d: int, k: int)
    requires d > 0
    ensures k > 0 ==> d * k >= d
    ensures k < 0 ==> d * k <= 0 - d
  {}

  lemma HalfUpError(n: int, d: int)
    requires n >= 0 && d > 0
    ensures -d < 2 * (d * RoundHalfUpDivide(n, d) - n) <= d
  {}

  /** Round-half-up is the unique integer within half a unit of the quotient, ties going up. */
  lemma RoundHalfUpIsNearest(n: int, d: int, q: int)
    requires n >= 0 && d > 0
    ensures q == RoundHalfUpDivide(n, d) <==> -d < 2 * (d * q - n) <= d
  {
    var r := RoundHalfUpDivide(n, d);
    HalfUpError(n, d);
    NoSmallMultiple(d, q - r);
    Distribute(d, r, q - r);
  }

  /** A percentage of at most 100% lies between nothing and the whole. */
  lemma PercentWithinWhole(cents: int, percent: string)
    requires cents >= 0
    requires ParseMoneyToCents(percent).Ok? && 0 <= ParseMoneyToCents(percent).value <= 10_000
    ensures ApplyPercent(cents, percent).Ok? && 0 <= ApplyPercent(cents, percent).value <= cents
  {
    RatioWithin(cents, ParseMoneyToCents(percent).value, 10_000);
  }

  /** A ratio of at most one carries an amount to something between nothing and the amount. */
  lemma RatioWithin(amount: int, numerator: int, denominator: int)
    requires 0 <= amount && 0 <= numerator <= denominator
    ensures 0 <= ApplyRatio(amount, numerator, denominator) <= amount
  {
    if denominator > 0 {
      var n := amount * numerator;
      assert 0 <= n <= amount * denominator by {
        Distribute(amount, numerator, denominator - numerator);
        assert amount * (denominator - numerator) >= 0;
      }
      WithinHalfUnit(n, amount, denominator);
    }
  }

  lemma WithinHalfUnit(n: int, most: int, d: int)
    requires d > 0 && 0 <= n <= most * d
    ensures 0 <= RoundHalfUpDivide(n, d) <= most
  {}

  /** Carrying the ratio onto the whole gives the numerator back exactly. */
  lemma RatioOfWhole(numerator: int, denominator: int)
    requires numerator >= 0 && denominator > 0
    ensures ApplyRatio(denominator, numerator, denominator) == numerator
  {
    assert denominator * numerator >= 0;
    RoundHalfUpIsNearest(denominator * numerator, denominator, numerator);
  }

  // ---------------------------------------------------------------------
  // Drift of a split
  // ---------------------------------------------------------------------

  predicate NonNegative(values: seq<int>) {
    forall i | 0 <= i < |values| :: values[i] >= 0
  }

  /** The signed rounding error of one carried amount, in units of 1/denominator of a cent. */
  function Residue(amount: int, numerator: int, denominator: int): int
    requires denominator > 0
  {
    var r := amount * numerator % denominator;
    if 2 * r >= denominator then denominator - r else -r
  }

  function Corrections(amounts: seq<int>, numerator: int, denominator: int): seq<int> {
    if amounts == [] then []
    else [ApplyRatio(amounts[0], numerator, denominator)] + Corrections(amounts[1..], numerator, denominator)
  }

  function SumResidues(amounts: seq<int>, numerator: int, denominator: int): int
    requires denominator > 0
  {
    if amounts == [] then 0
    else Residue(amounts[0], numerator, denominator) + SumResidues(amounts[1..], numerator, denominator)
  }

  lemma RatioResidue(amount: int, numerator: int, denominator: int)
    requires amount >= 0 && numerator >= 0 && denominator > 0
    ensures denominator * ApplyRatio(amount, numerator, denominator)
         == numerator * amount + Residue(amount, numerator, denominator)
    ensures -denominator < 2 * Residue(amount, numerator, denominator) <= denominator
  {}

  lemma DriftStep(d: int, n: int, a: int, c: int, r: int, as': int, cs: int, rs: int)
    requires d * c == n * a + r && d * cs == n * as' + rs
    ensures d * (c + cs) == n * (a + as') + (r + rs)
  {}

  /** The exact drift of a split: what the corrections add up to, in units of 1/denominator of a cent. */
  lemma {:induction false} DriftOfSplit(amounts: seq<int>, numerator: int, denominator: int)
    requires denominator > 0 && numerator >= 0 && NonNegative(amounts)
    ensures denominator * SumCents(Corrections(amounts, numerator, denominator))
         == numerator * SumCents(amounts) + SumResidues(amounts, numerator, denominator)
  {
    if amounts != [] {
      var a, rest := amounts[0], amounts[1..];
      DriftOfSplit(rest, numerator, denominator);
      RatioResidue(a, numerator, denominator);
      var c, cs := ApplyRatio(a, numerator, denominator), Corrections(rest, numerator, denominator);
      assert ([c] + cs)[1..] == cs;
      DriftStep(denominator, numerator, a, c, Residue(a, numerator, denominator),
                SumCents(rest), SumCents(cs), SumResidues(rest, numerator, denominator));
    }
  }

  /** -n*d < 2*total <= n*d, with nothing at all for no parts. */
  predicate WithinHalfUnits(total: int, n: nat, d: int) {
    (n == 0 ==> total == 0) && (n > 0 ==> 0 - n * d < 2 * total) && 2 * total <= n * d
  }

  lemma BoundStep(d: int, n: nat, r: int, rs: int)
    requires d > 0 && n > 0 && -d < 2 * r <= d && WithinHalfUnits(rs, n - 1, d)
    ensures WithinHalfUnits(r + rs, n, d)
  {}

  lemma {:induction false} ResiduesAreBounded(amounts: seq<int>, numerator: int, denominator: int)
    requires denominator > 0 && numerator >= 0 && NonNegative(amounts)
    ensures WithinHalfUnits(SumResidues(amounts, numerator, denominator), |amounts|, denominator)
  {
    if amounts != [] {
      ResiduesAreBounded(amounts[1..], numerator, denominator);
      RatioResidue(amounts[0], numerator, denominator);
      BoundStep(denominator, |amounts|, Residue(amounts[0], numerator, denominator),
                SumResidues(amounts[1..], numerator, denominator));
    }
  }

  /**
   The drift of n parts, d times what they correct less numerator times what they amount to, is less than n half units
   down and at most n half units up.
   */
  lemma DriftIsBounded(amounts: seq<int>, numerator: int, denominator: int)
    requires denominator > 0 && numerator >= 0 && NonNegative(amounts)
    ensures WithinHalfUnits(denominator * SumCents(Corrections(amounts, numerator, denominator))
                            - numerator * SumCents(amounts), |amounts|, denominator)
  {
    hide WithinHalfUnits, Corrections, SumResidues, SumCents;
    DriftOfSplit(amounts, numerator, denominator);
    ResiduesAreBounded(amounts, numerator, denominator);
  }

  /** Refunding the whole in parts reverses the whole commission exactly when the rounding errors cancel. */
  lemma ZeroDriftIff(amounts: seq<int>, numerator: int, denominator: int)
    requires denominator > 0 && numerator >= 0 && NonNegative(amounts)
    requires SumCents(amounts) == denominator
    ensures SumCents(Corrections(amounts, numerator, denominator)) == numerator
       <==> SumResidues(amounts, numerator, denominator) == 0
  {
    DriftOfSplit(amounts, numerator, denominator);
    var total := SumCents(Corrections(amounts, numerator, denominator));
    NoSmallMultiple(denominator, total - numerator);
    Distribute(denominator, numerator, total - numerator);
  }

  /** Three units at 5 cents, commission 2: each unit corrects a cent, one cent more than was ever charged. */
  lemma ZeroDriftFails()
    ensures SumCents([5, 5, 5]) == 15 && ApplyPercent(15, "10.00") == Ok(2)
    ensures SumCents(Corrections([5, 5, 5], 2, 15)) == 3
  {
    assert ShowNat(10) == "10" by { assert ShowNat(1) == "1"; }
    ParseUndoesFormat(1000);
    assert FormatCentsToMoney(1000) == "10.00";
    var amounts := [5, 5, 5];
    assert amounts[1..] == [5, 5] && amounts[1..][1..] == [5];
    assert ApplyRatio(5, 2, 15) == 1;
    assert Corrections(amounts, 2, 15) == [1, 1, 1];
    var ones := [1, 1, 1];
    assert ones[1..] == [1, 1] && ones[1..][1..] == [1];
  }
}
