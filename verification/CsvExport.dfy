/** The admin report as comma-separated text, and what a reader of that format gets back. */
module CsvExports {
  import opened Results
  import opened Money

  // ---------------------------------------------------------------------
  // Printing
  // ---------------------------------------------------------------------

  datatype Value = Missing | Text(text: string) | Number(number: int) | Truth(truth: bool)

  function Plain(v: Value): string {
    match v
    case Missing => ""
    case Text(text) => text
    case Number(n) => Signed(n < 0, ShowNat(if n < 0 then -n else n))
    case Truth(b) => if b then "true" else "false"
  }

  /** The first characters a spreadsheet takes for a formula. */
  predicate StartsFormula(text: string) {
    text != "" && text[0] in {'=', '+', '-', '@'}
  }

  function Guard(text: string): string {
    if StartsFormula(text) then "'" + text else text
  }

  function DoubleQuotes(text: string): string {
    if text == "" then ""
    else if text[0] == '"' then ['"', '"'] + DoubleQuotes(text[1..])
    else [text[0]] + DoubleQuotes(text[1..])
  }

  function Quoted(text: string): string {
    ['"'] + DoubleQuotes(text) + ['"']
  }

  function ProtectCsvValue(v: Value): string {
    Quoted(Guard(Plain(v)))
  }

  function Join(parts: seq<string>, separator: string): string {
    if parts == [] then "" else if |parts| == 1 then parts[0] else parts[0] + separator + Join(parts[1..], separator)
  }

  function ProtectRow(row: seq<Value>): (fields: seq<string>)
    ensures |fields| == |row|
  {
    if row == [] then [] else [ProtectCsvValue(row[0])] + ProtectRow(row[1..])
  }

  function PrintRows(rows: seq<seq<Value>>): (records: seq<string>)
    ensures |records| == |rows|
  {
    if rows == [] then [] else [Join(ProtectRow(rows[0]), ",")] + PrintRows(rows[1..])
  }

  function PrintCsv(rows: seq<seq<Value>>): string {
    Join(PrintRows(rows), "\r\n")
  }

  datatype Day = Day(date: Value, orders: Value, gross: Value, commission: Value, refunds: Value, net: Value)

  const HEADER: seq<Value> :=
    [Text("date"), Text("orders"), Text("gross_sales"), Text("platform_commission"),
     Text("refunds"), Text("effective_seller_net")]

  function DayRows(days: seq<Day>): (rows: seq<seq<Value>>)
    ensures |rows| == |days| && forall row | row in rows :: row != []
  {
    if days == [] then []
    else
      var d := days[0];
      [[d.date, d.orders, d.gross, d.commission, d.refunds, d.net]] + DayRows(days[1..])
  }

  function ExportCsv(days: seq<Day>): string {
    PrintCsv([HEADER] + DayRows(days))
  }

  // ---------------------------------------------------------------------
  // Reading: the grammar of section 2 of RFC 4180, one character at a time
  // ---------------------------------------------------------------------

  datatype Mode = FieldStart | Unquoted | InQuotes | QuoteInQuotes | AfterReturn

  datatype Reader = Reader(rows: seq<seq<string>>, row: seq<string>, field: string, mode: Mode)

  function EndField(r: Reader, mode: Mode): Reader {
    Reader(r.rows, r.row + [r.field], "", mode)
  }

  /** None when the character cannot come next. */
  function ReadChar(r: Reader, c: char): Option<Reader> {
    match r.mode
    case InQuotes => Some(if c == '"' then r.(mode := QuoteInQuotes) else r.(field := r.field + [c]))
    case QuoteInQuotes =>
      if c == '"' then Some(r.(field := r.field + [c], mode := InQuotes))
      else if c == ',' then Some(EndField(r, FieldStart))
      else if c == '\r' then Some(EndField(r, AfterReturn))
      else None
    case AfterReturn => if c == '\n' then Some(Reader(r.rows + [r.row], [], "", FieldStart)) else None
    case _ =>
      if c == ',' then Some(EndField(r, FieldStart))
      else if c == '\r' then Some(EndField(r, AfterReturn))
      else if c == '"' then (if r.mode.FieldStart? then Some(r.(mode := InQuotes)) else None)
      else if c == '\n' then None
      else Some(r.(field := r.field + [c], mode := Unquoted))
  }

  function Read(r: Reader, text: string): Option<Reader>
    decreases |text|
  {
    if text == "" then Some(r)
    else match ReadChar(r, text[0]) case None => None case Some(next) => Read(next, text[1..])
  }

  /** The last record may or may not end in a line break. */
  function ParseCsv(text: string): Option<seq<seq<string>>> {
    match Read(Reader([], [], "", FieldStart), text)
    case None => None
    case Some(r) =>
      if r.mode.InQuotes? || r.mode.AfterReturn? then None
      else if r.mode.FieldStart? && r.row == [] then Some(r.rows)
      else Some(r.rows + [r.row + [r.field]])
  }

  // ---------------------------------------------------------------------
  // Reading undoes printing
  // ---------------------------------------------------------------------

  lemma {:induction false} ReadOn(r: Reader, s: string, t: string)
    requires Read(r, s).Some?
    ensures Read(r, s + t) == Read(Read(r, s).value, t)
    decreases |s|
  {
    if s == "" {
      assert s + t == t;
    } else {
      assert (s + t)[1..] == s[1..] + t;
      ReadOn(ReadChar(r, s[0]).value, s[1..], t);
    }
  }

  lemma {:induction false} ReadInsideQuotes(r: Reader, text: string)
    requires r.mode == InQuotes
    ensures Read(r, DoubleQuotes(text)) == Some(r.(field := r.field + text))
    decreases |text|
  {
    if text == "" {
      assert r.field + text == r.field;
    } else {
      var next := r.(field := r.field + [text[0]]);
      var rest := DoubleQuotes(text[1..]);
      ReadInsideQuotes(next, text[1..]);
      assert next.field + text[1..] == r.field + text;
      if text[0] == '"' {
        assert DoubleQuotes(text)[1..] == ['"'] + rest && (['"'] + rest)[1..] == rest;
      } else {
        assert DoubleQuotes(text)[1..] == rest;
      }
    }
  }

  lemma ReadQuoted(r: Reader, text: string)
    requires r.mode == FieldStart && r.field == ""
    ensures Read(r, Quoted(text)) == Some(r.(field := text, mode := QuoteInQuotes))
  {
    hide DoubleQuotes;
    var body := DoubleQuotes(text);
    assert Quoted(text)[1..] == body + ['"'];
    var inside := r.(mode := InQuotes);
    ReadInsideQuotes(inside, text);
    assert inside.field + text == text;
    ReadOn(inside, body, ['"']);
  }

  function GuardedTexts(row: seq<Value>): seq<string> {
    if row == [] then [] else [Guard(Plain(row[0]))] + GuardedTexts(row[1..])
  }

  function GuardedRows(rows: seq<seq<Value>>): seq<seq<string>> {
    if rows == [] then [] else [GuardedTexts(rows[0])] + GuardedRows(rows[1..])
  }

  /** The record a reader is in, its open field included. */
  function Record(r: Reader): seq<string> {
    r.row + [r.field]
  }

  function Records(r: Reader): seq<seq<string>> {
    r.rows + [Record(r)]
  }

  lemma JoinSplits(parts: seq<string>, separator: string)
    requires |parts| > 1
    ensures Join(parts, separator) == parts[0] + (separator + Join(parts[1..], separator))
  {}

  /** A field, a separator and the rest. */
  lemma ReadSeparator(r: Reader, rest: string)
    requires r.mode == QuoteInQuotes
    ensures Read(r, "," + rest) == Read(Reader(r.rows, Record(r), "", FieldStart), rest)
    ensures Read(r, "\r\n" + rest) == Read(Reader(Records(r), [], "", FieldStart), rest)
  {}

  lemma {:induction false} ReadRow(r: Reader, row: seq<Value>)
    requires row != [] && r.mode == FieldStart && r.field == ""
    ensures var end := Read(r, Join(ProtectRow(row), ","));
            end.Some? && end.value.mode == QuoteInQuotes && end.value.rows == r.rows
            && Record(end.value) == r.row + GuardedTexts(row)
    decreases |row|
  {
    hide Read, Guard, Plain, Quoted, ReadChar;
    var text, fields := Guard(Plain(row[0])), ProtectRow(row);
    assert fields[1..] == ProtectRow(row[1..]);
    ReadQuoted(r, text);
    if |row| > 1 {
      var rest := Join(fields[1..], ",");
      var inside := r.(field := text, mode := QuoteInQuotes);
      JoinSplits(fields, ",");
      ReadOn(r, fields[0], "," + rest);
      ReadSeparator(inside, rest);
      ReadRow(Reader(r.rows, Record(inside), "", FieldStart), row[1..]);
      assert r.row + [text] + GuardedTexts(row[1..]) == r.row + GuardedTexts(row);
    } else {
      assert row[1..] == [] && GuardedTexts(row) == [text];
    }
  }

  lemma {:induction false} ReadRows(r: Reader, rows: seq<seq<Value>>)
    requires rows != [] && (forall row | row in rows :: row != [])
    requires r.mode == FieldStart && r.field == "" && r.row == []
    ensures var end := Read(r, PrintCsv(rows));
            end.Some? && end.value.mode == QuoteInQuotes && Records(end.value) == r.rows + GuardedRows(rows)
    decreases |rows|
  {
    hide Read, GuardedTexts, ProtectRow, ReadChar;
    var printed, records := Join(ProtectRow(rows[0]), ","), PrintRows(rows);
    assert records[1..] == PrintRows(rows[1..]);
    assert rows[0] in rows;
    ReadRow(r, rows[0]);
    var inside := Read(r, printed).value;
    assert [] + GuardedTexts(rows[0]) == GuardedTexts(rows[0]);
    if |rows| > 1 {
      var rest := Join(records[1..], "\r\n");
      JoinSplits(records, "\r\n");
      ReadOn(r, printed, "\r\n" + rest);
      ReadSeparator(inside, rest);
      assert forall row | row in rows[1..] :: row in rows;
      ReadRows(Reader(Records(inside), [], "", FieldStart), rows[1..]);
      assert r.rows + [GuardedTexts(rows[0])] + GuardedRows(rows[1..]) == r.rows + GuardedRows(rows);
    } else {
      assert rows[1..] == [] && GuardedRows(rows) == [GuardedTexts(rows[0])];
    }
  }

  /** Whatever quotes, commas and line breaks the fields hold, reading the export gives back its guarded field texts. */
  lemma ParseUndoesPrint(rows: seq<seq<Value>>)
    requires forall row | row in rows :: row != []
    ensures ParseCsv(PrintCsv(rows)) == Some(GuardedRows(rows))
  {
    hide PrintCsv, Read;
    if rows != [] {
      ReadRows(Reader([], [], "", FieldStart), rows);
      assert [] + GuardedRows(rows) == GuardedRows(rows);
    } else {
      EmptyReads();
    }
  }

  lemma EmptyReads()
    ensures PrintCsv([]) == "" && ParseCsv("") == Some([])
  {}

  /** The report's own export: its header, then one row of six fields a day. */
  lemma ExportReadsBack(days: seq<Day>)
    ensures ParseCsv(ExportCsv(days)) == Some(GuardedRows([HEADER] + DayRows(days)))
    ensures GuardedTexts(HEADER)
            == ["date", "orders", "gross_sales", "platform_commission", "refunds", "effective_seller_net"]
  {
    HeaderIsPlain();
    hide GuardedTexts, GuardedRows, ParseCsv, PrintCsv, DayRows;
    ParseUndoesPrint([HEADER] + DayRows(days));
  }

  lemma HeaderIsPlain()
    ensures GuardedTexts(HEADER)
            == ["date", "orders", "gross_sales", "platform_commission", "refunds", "effective_seller_net"]
    ensures HEADER != []
  {}

  // ---------------------------------------------------------------------
  // What the guard costs
  // ---------------------------------------------------------------------

  /** No exported field starts a formula; a text comes through unchanged exactly when it does not start one itself. */
  lemma GuardIsSafe(text: string)
    ensures !StartsFormula(Guard(text))
    ensures Guard(text) == text <==> !StartsFormula(text)
  {}

  /** Reads a guarded text as if every apostrophe in front of a formula had been added by the guard. */
  function Unguard(text: string): string {
    if text != "" && text[0] == '\'' && StartsFormula(text[1..]) then text[1..] else text
  }

  /** The original text can be told from the export exactly when it does not look guarded already. */
  lemma UnguardUndoesGuardIff(text: string)
    ensures Unguard(Guard(text)) == text <==> Unguard(text) == text
  {}

  /**
   An amount column reads back as the amount exactly when the
   amount is not negative: a loss is exported as guarded text.
   */
  lemma AmountReadsBackIff(cents: int)
    ensures ParseMoneyToCents(Guard(FormatCentsToMoney(cents))) == Ok(cents) <==> cents >= 0
  {
    hide ShowNat, DigitsValue;
    var text := FormatCentsToMoney(cents);
    FormatIsCanonical(cents);
    ParseUndoesFormat(cents);
    if cents < 0 {
      var s := "'" + text;
      assert text[0] == '-' && Guard(text) == s && s[1..] == text;
      QuotedMinusFails(s);
    } else {
      CanonicalStartsWithDigit(cents);
    }
  }

  lemma CanonicalStartsWithDigit(cents: nat)
    ensures IsDigit(FormatCentsToMoney(cents)[0])
  {
    ShowNatIsCanonical(cents / 100);
  }

  lemma QuotedMinusFails(s: string)
    requires |s| > 1 && s[0] == '\'' && s[1] == '-' && IsCanonical(s[1..])
    ensures ParseMoneyToCents(s).Err?
  {
    hide DigitsValue;
    CanonicalHasNoSpace(s[1..]);
    LastIsDigit(s[1..]);
    assert TrimStart(s) == s && TrimEnd(s) == s;
    var whole := BeforePoint(s);
    assert whole[0] == '\'';
    assert !AllDigits(whole);
  }

  lemma LastIsDigit(s: string)
    requires IsCanonical(s)
    ensures IsDigit(s[|s| - 1])
  {}
}
