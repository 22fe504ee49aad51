/** What decimal text is worth, said of its digits: every text, and every price a request may carry. */
module MoneyTexts {
  import opened Results
  import opened Money

  predicate AllSpaces(s: string) {
    forall i | 0 <= i < |s| :: IsSpace(s[i])
  }

  lemma {:induction false} TrimsPadding(lead: string, body: string, trail: string)
    requires AllSpaces(lead) && AllSpaces(trail)
    requires body != "" ==> !IsSpace(body[0]) && !IsSpace(body[|body| - 1])
    ensures TrimEnd(TrimStart(lead + body + trail)) == body
    decreases |lead| + |trail|
  {
    var s := lead + body + trail;
    if lead != "" {
      assert s[1..] == lead[1..] + body + trail;
      TrimsPadding(lead[1..], body, trail);
    } else if body == "" {
      assert s == trail;
      TrimsSpaces(trail);
    } else {
      assert s[0] == body[0];
      TrimsTrail(body, trail);
    }
  }

  lemma {:induction false} TrimsSpaces(s: string)
    requires AllSpaces(s)
    ensures TrimStart(s) == ""
  {
    if s != "" {
      TrimsSpaces(s[1..]);
    }
  }

  lemma {:induction false} TrimsTrail(body: string, trail: string)
    requires AllSpaces(trail) && body != "" && !IsSpace(body[|body| - 1])
    ensures TrimEnd("" + body + trail) == body
  {
    var s := "" + body + trail;
    if trail != "" {
      assert s[..|s| - 1] == "" + body + trail[..|trail| - 1];
      TrimsTrail(body, trail[..|trail| - 1]);
    } else {
      assert s == body;
    }
  }

  predicate HasNoPoint(s: string) {
    forall i | 0 <= i < |s| :: s[i] != '.'
  }

  lemma {:induction false} CutsAtPoint(part: string, rest: string)
    requires HasNoPoint(part) && (rest == "" || rest[0] == '.')
    ensures BeforePoint(part + rest) == part && AfterPoint(part + rest) == if rest == "" then "" else rest[1..]
  {
    if part == "" {
      assert part + rest == rest;
    } else {
      assert (part + rest)[1..] == part[1..] + rest;
      CutsAtPoint(part[1..], rest);
    }
  }

  /** What decimals are worth: one of them counts tens of cents. */
  function DecimalsValue(decimals: string): nat
    requires |decimals| <= 2 && AllDigits(decimals)
  {
    (if |decimals| > 0 then 10 * DigitValue(decimals[0]) else 0)
    + (if |decimals| > 1 then DigitValue(decimals[1]) else 0)
  }

  /** A third decimal is refused before a stray character is; missing digits do no harm. */
  function ReadValue(negative: bool, whole: string, decimals: string): Result<int, MoneyError> {
    if |decimals| > 2 then Err(TooManyDecimals)
    else if !AllDigits(whole) || !AllDigits(decimals) then Err(NotDecimal)
    else
      var cents := 100 * DigitsValue(whole) + DecimalsValue(decimals);
      Ok(if negative then -cents else cents)
  }

  function Tail(point: bool, decimals: string, rest: string): string {
    if point then "." + decimals + rest else ""
  }

  lemma CutsTwice(whole: string, point: bool, decimals: string, rest: string)
    requires HasNoPoint(whole) && HasNoPoint(decimals) && (rest == "" || rest[0] == '.')
    requires point || decimals == ""
    ensures var unsigned := whole + Tail(point, decimals, rest);
            BeforePoint(unsigned) == whole && BeforePoint(AfterPoint(unsigned)) == decimals
  {
    CutsAtPoint(whole, Tail(point, decimals, rest));
    if point {
      assert Tail(point, decimals, rest)[1..] == decimals + rest;
      CutsAtPoint(decimals, rest);
    }
  }

  /**
   What any text is read as, from its parts: blanks around it and anything from a second point on do not count. `rest`
   is empty or starts with that point.
   */
  lemma ParseMeans(
    lead: string, negative: bool, whole: string, point: bool, decimals: string, rest: string, trail: string)
    requires AllSpaces(lead) && AllSpaces(trail) && HasNoPoint(whole) && HasNoPoint(decimals)
    requires (point || decimals == "") && (rest == "" || rest[0] == '.')
    requires !negative && whole != "" ==> whole[0] != '-'
    requires var body := Signed(negative, whole + Tail(point, decimals, rest));
             body != "" ==> !IsSpace(body[0]) && !IsSpace(body[|body| - 1])
    ensures ParseMoneyToCents(lead + Signed(negative, whole + Tail(point, decimals, rest)) + trail)
         == ReadValue(negative, whole, decimals)
  {
    var unsigned := whole + Tail(point, decimals, rest);
    assert !negative && unsigned != "" ==> unsigned[0] != '-';
    hide *;
    SignedParts(negative, unsigned);
    CutsTwice(whole, point, decimals, rest);
    TrimsPadding(lead, Signed(negative, unsigned), trail);
    ReadTrimmed(lead + Signed(negative, unsigned) + trail, Signed(negative, unsigned), negative, unsigned);
  }

  lemma ReadTrimmed(value: string, trimmed: string, negative: bool, unsigned: string)
    requires TrimEnd(TrimStart(value)) == trimmed && negative == (trimmed != "" && trimmed[0] == '-')
    requires unsigned == if negative then trimmed[1..] else trimmed
    ensures ParseMoneyToCents(value) == ReadValue(negative, BeforePoint(unsigned), BeforePoint(AfterPoint(unsigned)))
  {
    var whole, decimals := BeforePoint(unsigned), BeforePoint(AfterPoint(unsigned));
    hide TrimStart, TrimEnd, BeforePoint, AfterPoint, DigitsValue, DecimalsValue, PadEnd2, AllDigits, IsSpace;
    if |decimals| <= 2 && AllDigits(decimals) {
      PadWorth(decimals);
    }
  }

  lemma SignedParts(negative: bool, unsigned: string)
    requires !negative && unsigned != "" ==> unsigned[0] != '-'
    ensures var text := Signed(negative, unsigned);
            (text != "" && text[0] == '-') == negative && (if negative then text[1..] else text) == unsigned
  {}

  lemma PadWorth(decimals: string)
    requires |decimals| <= 2 && AllDigits(decimals)
    ensures AllDigits(PadEnd2(decimals)) && DigitsValue(PadEnd2(decimals)) == DecimalsValue(decimals)
  {
    ValueOfTwoDigits(PadEnd2(decimals));
  }

  /** A price text is worth its whole part and its decimals: "12.5" is 1250 cents. */
  lemma PriceTextMeans(s: string, whole: string, decimals: string)
    requires whole != "" && AllDigits(whole) && |decimals| <= 2 && AllDigits(decimals)
    requires s == if decimals == "" then whole else whole + "." + decimals
    ensures IsPriceText(s) && ParseMoneyToCents(s) == Ok(100 * DigitsValue(whole) + DecimalsValue(decimals))
  {
    PriceTextShape(s, whole, decimals);
    PriceTextEnds(s, whole, decimals);
    hide *;
    ParseMeans("", false, whole, decimals != "", decimals, "", "");
  }

  lemma PriceTextShape(s: string, whole: string, decimals: string)
    requires whole != "" && AllDigits(whole) && |decimals| <= 2 && AllDigits(decimals)
    requires s == if decimals == "" then whole else whole + "." + decimals
    ensures IsPriceText(s)
    ensures var body := Signed(false, whole + Tail(decimals != "", decimals, "")); body == s == "" + body + ""
  {
    var tail := Tail(decimals != "", decimals, "");
    assert s == whole + tail;
    assert decimals != "" ==> tail[1..] == decimals;
    hide IsDigit;
    DigitsHaveNoPoint(whole);
    CutsAtPoint(whole, tail);
    hide BeforePoint, AfterPoint;
  }

  lemma DigitsHaveNoPoint(s: string)
    requires AllDigits(s)
    ensures HasNoPoint(s)
  {}

  lemma PriceTextEnds(s: string, whole: string, decimals: string)
    requires whole != "" && AllDigits(whole) && |decimals| <= 2 && AllDigits(decimals)
    requires s == if decimals == "" then whole else whole + "." + decimals
    ensures AllSpaces("") && HasNoPoint(whole) && HasNoPoint(decimals) && whole[0] != '-'
    ensures !IsSpace(s[0]) && !IsSpace(s[|s| - 1])
    ensures ReadValue(false, whole, decimals) == Ok(100 * DigitsValue(whole) + DecimalsValue(decimals))
  {
    hide DigitsValue, DecimalsValue;
    assert IsDigit(s[0]) && IsDigit(s[|s| - 1]);
  }
}
