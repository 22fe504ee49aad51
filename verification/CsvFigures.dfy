/** What the exported report's fields hold, and which figure of a day stands under which heading. */
module CsvFigures {
  import opened Money
  import opened CsvExports

  lemma {:induction false} TextAt(row: seq<Value>, j: nat)
    requires j < |row|
    ensures |GuardedTexts(row)| == |row| && GuardedTexts(row)[j] == Guard(Plain(row[j]))
    decreases |row|
  {
    hide Guard, Plain;
    if |row| > 1 {
      TextAt(row[1..], if j == 0 then 0 else j - 1);
    } else {
      assert row[1..] == [];
    }
  }

  lemma {:induction false} RowAt(rows: seq<seq<Value>>, k: nat)
    requires k < |rows|
    ensures |GuardedRows(rows)| == |rows| && GuardedRows(rows)[k] == GuardedTexts(rows[k])
    decreases |rows|
  {
    hide GuardedTexts;
    if |rows| > 1 {
      RowAt(rows[1..], if k == 0 then 0 else k - 1);
    } else {
      assert rows[1..] == [];
    }
  }

  lemma {:induction false} DayAt(days: seq<Day>, k: nat)
    requires k < |days|
    ensures var d := days[k]; DayRows(days)[k] == [d.date, d.orders, d.gross, d.commission, d.refunds, d.net]
    decreases |days|
  {
    if k > 0 {
      DayAt(days[1..], k - 1);
    }
  }

  /** What a reader finds in column j: the heading, and the guarded text of day k's value. */
  lemma ColumnReadsBack(days: seq<Day>, k: nat, j: nat)
    requires k < |days| && j < 6
    ensures var read, d := ParseCsv(ExportCsv(days)), days[k];
            && read.Some? && |read.value| == |days| + 1 && |read.value[0]| == |read.value[k + 1]| == 6
            && read.value[0][j]
               == ["date", "orders", "gross_sales", "platform_commission", "refunds", "effective_seller_net"][j]
            && read.value[k + 1][j]
               == Guard(Plain([d.date, d.orders, d.gross, d.commission, d.refunds, d.net][j]))
  {
    ExportReadsBack(days);
    var rows := [HEADER] + DayRows(days);
    RowAt(rows, 0);
    RowAt(rows, k + 1);
    DayAt(days, k);
    hide ParseCsv, ExportCsv, Guard, Plain, DayRows, GuardedTexts, GuardedRows;
    TextAt(rows[k + 1], j);
  }

  /** A number is exported as its own decimal digits, a minus sign in front of a negative one. */
  lemma NumberIsDigits(n: int)
    ensures var text := Plain(Number(n)); var digits := if n < 0 then text[1..] else text;
            && (n < 0 ==> text != "" && text[0] == '-')
            && IsCanonicalWhole(digits) && DigitsValue(digits) == if n < 0 then 0 - n else n
    ensures Plain(Missing) == "" && Plain(Truth(true)) == "true" && Plain(Truth(false)) == "false"
  {
    ShowNatIsCanonical(if n < 0 then 0 - n else n);
    hide ShowNat, DigitsValue;
  }

  /** Exactly the texts that begin with one of four signs get an apostrophe in front. */
  lemma FourSignsAreGuarded(sign: char, rest: string)
    ensures Guard([sign] + rest) == if sign == '=' || sign == '+' || sign == '-' || sign == '@'
                                    then ['\'', sign] + rest else [sign] + rest
    ensures Guard("") == ""
  {
    assert "'" + ([sign] + rest) == ['\'', sign] + rest;
  }
}
