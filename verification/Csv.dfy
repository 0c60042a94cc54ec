/** Comma-separated rows of exported rounds, and a reader for them. */
module Csv {
  import opened Decimals
  import opened Sequences
  import opened Wrappers

  /** A stored round. Dates are given as the text they are exported with, `json` is the text of the row's JSON record. */
  datatype Row = Row(id: int, gameId: string, multiplier: string, hash: Option<string>, salt: Option<string>,
                     beganAt: Option<string>, crashedAt: Option<string>, ingestedAt: Option<string>, json: string)

  const CSV_COLUMNS: seq<string> :=
    ["id", "game_id", "multiplier", "hash", "salt", "began_at", "crashed_at", "ingested_at"]

  predicate Special(c: char) {
    c == '"' || c == ',' || c == '\n' || c == '\r'
  }

  predicate NeedsQuotes(text: string) {
    text != "" && (Special(text[0]) || NeedsQuotes(text[1..]))
  }

  /** Every quote doubled. */
  function Doubled(text: string): string {
    if text == "" then ""
    else (if text[0] == '"' then ['"', '"'] else [text[0]]) + Doubled(text[1..])
  }

  function TextOf(value: Option<string>): string {
    if value.None? then "" else value.value
  }

  function CsvCell(value: Option<string>): string {
    var text := TextOf(value);
    if NeedsQuotes(text) then ['"'] + Doubled(text) + ['"'] else text
  }

  function Cells(r: Row): seq<Option<string>> {
    [Some(Decimal(r.id)), Some(r.gameId), Some(r.multiplier), r.hash, r.salt, r.beganAt, r.crashedAt, r.ingestedAt]
  }

  function TextsOf(cells: seq<Option<string>>): seq<string> {
    if cells == [] then [] else [TextOf(cells[0])] + TextsOf(cells[1..])
  }

  /** The cells joined by commas, ended by a line feed. */
  function CsvLine(cells: seq<Option<string>>): string {
    if cells == [] then "\n"
    else if |cells| == 1 then CsvCell(cells[0]) + ['\n']
    else CsvCell(cells[0]) + ([','] + CsvLine(cells[1..]))
  }

  function CsvLines(rows: seq<seq<Option<string>>>): string {
    if rows == [] then "" else CsvLine(rows[0]) + CsvLines(rows[1..])
  }

  function CellTable(rows: seq<Row>): seq<seq<Option<string>>> {
    if rows == [] then [] else [Cells(rows[0])] + CellTable(rows[1..])
  }

  function TextTable(rows: seq<seq<Option<string>>>): seq<seq<string>> {
    if rows == [] then [] else [TextsOf(rows[0])] + TextTable(rows[1..])
  }

  // ---------------------------------------------------------------- reading

  datatype Mode = Start | Plain | Quoted | Closed

  /** A reader of RFC 4180 fields (section 2, items 5 to 7) with records ended by a line feed. */
  datatype Reader =
    | Reading(mode: Mode, field: string, fields: seq<string>, records: seq<seq<string>>)
    | Broken

  function EndField(r: Reader): Reader
    requires r.Reading?
  {
    Reading(Start, "", r.fields + [r.field], r.records)
  }

  function EndRecord(r: Reader): Reader
    requires r.Reading?
  {
    Reading(Start, "", [], r.records + [r.fields + [r.field]])
  }

  function Outside(r: Reader, c: char): Reader
    requires r.Reading?
  {
    if c == ',' then EndField(r)
    else if c == '\n' then EndRecord(r)
    else if c == '\r' || c == '"' then Broken
    else r.(mode := Plain, field := r.field + [c])
  }

  function Step(r: Reader, c: char): Reader {
    if r.Broken? then Broken
    else
      match r.mode
      case Start => if c == '"' then r.(mode := Quoted) else Outside(r, c)
      case Plain => Outside(r, c)
      case Quoted => if c == '"' then r.(mode := Closed) else r.(field := r.field + [c])
      case Closed =>
        if c == '"' then r.(mode := Quoted, field := r.field + [c])
        else if c == ',' || c == '\n' then Outside(r, c)
        else Broken
  }

  function Scan(r: Reader, text: string): Reader
    decreases |text|
  {
    if text == "" then r else Scan(Step(r, text[0]), text[1..])
  }

  /** The records of a text whose every record is ended; none when a quote is misplaced or a record is cut off. */
  function ReadCsv(text: string): Option<seq<seq<string>>> {
    var r := Scan(Reading(Start, "", [], []), text);
    if r.Reading? && r.mode == Start && r.fields == [] then Some(r.records) else None
  }

  lemma {:induction false} ScanAppend(r: Reader, a: string, b: string)
    ensures Scan(r, a + b) == Scan(Scan(r, a), b)
    decreases |a|
  {
    if a == "" {
      assert a + b == b;
    } else {
      assert (a + b)[1..] == a[1..] + b;
      ScanAppend(Step(r, a[0]), a[1..], b);
    }
  }

  lemma {:induction false} ScanOne(r: Reader, c: char)
    ensures Scan(r, [c]) == Step(r, c)
  {
    assert [c][1..] == "";
  }

  lemma {:induction false} PlainScan(r: Reader, text: string)
    requires r.Reading? && r.mode == Plain && !NeedsQuotes(text)
    ensures Scan(r, text) == r.(field := r.field + text)
    decreases |text|
  {
    if text != "" {
      PlainScan(r.(field := r.field + [text[0]]), text[1..]);
      assert (r.field + [text[0]]) + text[1..] == r.field + text;
    } else {
      assert r.field + text == r.field;
    }
  }

  lemma {:induction false} DoubledStep(r: Reader, c: char)
    requires r.Reading? && r.mode == Quoted
    ensures Scan(r, if c == '"' then ['"', '"'] else [c]) == r.(field := r.field + [c])
  {
    if c == '"' {
      assert ['"', '"'] == ['"'] + ['"'];
      ScanAppend(r, ['"'], ['"']);
      ScanOne(r, c);
      ScanOne(r.(mode := Closed), c);
    } else {
      ScanOne(r, c);
    }
  }

  lemma {:induction false} QuotedScan(r: Reader, text: string)
    requires r.Reading? && r.mode == Quoted
    ensures Scan(r, Doubled(text)) == r.(field := r.field + text)
    decreases |text|
  {
    if text != "" {
      var first := if text[0] == '"' then ['"', '"'] else [text[0]];
      ScanAppend(r, first, Doubled(text[1..]));
      DoubledStep(r, text[0]);
      QuotedScan(r.(field := r.field + [text[0]]), text[1..]);
      assert (r.field + [text[0]]) + text[1..] == r.field + text;
    } else {
      assert r.field + text == r.field;
    }
  }

  /** Whatever a cell holds, the separator after it closes exactly that cell. */
  lemma {:induction false} CellScan(fields: seq<string>, records: seq<seq<string>>, value: Option<string>, c: char)
    requires c == ',' || c == '\n'
    ensures Step(Scan(Reading(Start, "", fields, records), CsvCell(value)), c)
         == Outside(Reading(Plain, TextOf(value), fields, records), c)
  {
    var r, text := Reading(Start, "", fields, records), TextOf(value);
    if NeedsQuotes(text) {
      var inside := Reading(Quoted, "", fields, records);
      ScanAppend(r, ['"'] + Doubled(text), ['"']);
      ScanAppend(r, ['"'], Doubled(text));
      ScanOne(r, '"');
      QuotedScan(inside, text);
      assert "" + text == text;
      ScanOne(inside.(field := text), '"');
    } else if text != "" {
      PlainScan(Reading(Plain, [text[0]], fields, records), text[1..]);
      assert [text[0]] + text[1..] == text;
      assert "" + [text[0]] == [text[0]];
    }
  }

  lemma {:induction false} CellThenScan(fields: seq<string>, records: seq<seq<string>>, value: Option<string>, c: char,
                                       rest: string)
    requires c == ',' || c == '\n'
    ensures Scan(Reading(Start, "", fields, records), CsvCell(value) + ([c] + rest))
         == Scan(Outside(Reading(Plain, TextOf(value), fields, records), c), rest)
  {
    var r := Reading(Start, "", fields, records);
    var after := Scan(r, CsvCell(value));
    ScanAppend(r, CsvCell(value), [c] + rest);
    ScanAppend(after, [c], rest);
    ScanOne(after, c);
    CellScan(fields, records, value, c);
  }

  lemma {:induction false} LineSplits(cells: seq<Option<string>>)
    requires |cells| > 1
    ensures CsvLine(cells) == CsvCell(cells[0]) + ([','] + CsvLine(cells[1..]))
    ensures TextsOf(cells) == [TextOf(cells[0])] + TextsOf(cells[1..])
  {}

  lemma {:induction false} LastCell(cells: seq<Option<string>>)
    requires |cells| == 1
    ensures CsvLine(cells) == CsvCell(cells[0]) + (['\n'] + "")
    ensures TextsOf(cells) == [TextOf(cells[0])]
  {
    assert ['\n'] + "" == ['\n'];
    assert cells[1..] == [];
  }

  lemma {:induction false} LineScan(fields: seq<string>, records: seq<seq<string>>, cells: seq<Option<string>>)
    requires cells != []
    ensures Scan(Reading(Start, "", fields, records), CsvLine(cells))
         == Reading(Start, "", [], records + [fields + TextsOf(cells)])
    decreases |cells|
  {
    if |cells| == 1 {
      LastCell(cells);
      CellThenScan(fields, records, cells[0], '\n', "");
    } else {
      LineSplits(cells);
      CellThenScan(fields, records, cells[0], ',', CsvLine(cells[1..]));
      LineScan(fields + [TextOf(cells[0])], records, cells[1..]);
      Regroup(fields, [TextOf(cells[0])], TextsOf(cells[1..]));
    }
  }

  ghost predicate NoEmptyRow(rows: seq<seq<Option<string>>>) {
    rows == [] || (rows[0] != [] && NoEmptyRow(rows[1..]))
  }

  lemma {:induction false} LinesScan(records: seq<seq<string>>, rows: seq<seq<Option<string>>>)
    requires NoEmptyRow(rows)
    ensures Scan(Reading(Start, "", [], records), CsvLines(rows)) == Reading(Start, "", [], records + TextTable(rows))
    decreases |rows|
  {
    if rows == [] {
      assert records + [] == records;
    } else {
      ScanAppend(Reading(Start, "", [], records), CsvLine(rows[0]), CsvLines(rows[1..]));
      LineScan([], records, rows[0]);
      assert [] + TextsOf(rows[0]) == TextsOf(rows[0]);
      LinesScan(records + [TextsOf(rows[0])], rows[1..]);
      assert (records + [TextsOf(rows[0])]) + TextTable(rows[1..]) == records + TextTable(rows);
    }
  }

  /** Reading printed rows gives back the text of every cell: no quote, comma or line break in a cell moves a boundary. */
  lemma {:induction false} PrintedRowsReadBack(rows: seq<seq<Option<string>>>)
    requires NoEmptyRow(rows)
    ensures ReadCsv(CsvLines(rows)) == Some(TextTable(rows))
  {
    LinesScan([], rows);
    assert [] + TextTable(rows) == TextTable(rows);
  }

  /** Two tables print alike exactly when their cells have the same text. */
  lemma {:induction false} PrintAlikeIff(a: seq<seq<Option<string>>>, b: seq<seq<Option<string>>>)
    requires NoEmptyRow(a) && NoEmptyRow(b)
    ensures CsvLines(a) == CsvLines(b) <==> TextTable(a) == TextTable(b)
  {
    PrintedRowsReadBack(a);
    PrintedRowsReadBack(b);
    if TextTable(a) == TextTable(b) { SameTextsPrintAlike(a, b); }
  }

  lemma {:induction false} SameLine(a: seq<Option<string>>, b: seq<Option<string>>)
    requires TextsOf(a) == TextsOf(b)
    ensures CsvLine(a) == CsvLine(b) && |a| == |b|
    decreases |a|
  {
    if a != [] && b != [] {
      assert TextsOf(a)[1..] == TextsOf(a[1..]) && TextsOf(b)[1..] == TextsOf(b[1..]);
      assert TextsOf(a)[0] == TextOf(a[0]) && TextsOf(b)[0] == TextOf(b[0]);
      SameLine(a[1..], b[1..]);
    }
  }

  lemma {:induction false} SameTextsPrintAlike(a: seq<seq<Option<string>>>, b: seq<seq<Option<string>>>)
    requires TextTable(a) == TextTable(b)
    ensures CsvLines(a) == CsvLines(b)
    decreases |a|
  {
    if a != [] && b != [] {
      assert TextTable(a)[1..] == TextTable(a[1..]) && TextTable(b)[1..] == TextTable(b[1..]);
      assert TextTable(a)[0] == TextsOf(a[0]) && TextTable(b)[0] == TextsOf(b[0]);
      SameLine(a[0], b[0]);
      SameTextsPrintAlike(a[1..], b[1..]);
    }
  }

  /** An absent value and an empty one cannot be told apart in the printed row; any other two cells can. */
  lemma {:induction false} CellsPrintAlikeIff(a: Option<string>, b: Option<string>)
    ensures CsvCell(a) == CsvCell(b) <==> (a == b || {a, b} == {None, Some("")})
  {
    CellScan([], [], a, ',');
    CellScan([], [], b, ',');
    assert {a, b} == {None, Some("")} ==> TextOf(a) == TextOf(b);
    if CsvCell(a) == CsvCell(b) {
      assert [] + [TextOf(a)] == [TextOf(a)] && [] + [TextOf(b)] == [TextOf(b)];
      assert [TextOf(a)][0] == [TextOf(b)][0];
    }
  }

  // ---------------------------------------------------------------- columns

  /** The `i`-th column has that name, and the record holds the text in it. */
  predicate Holds(record: seq<string>, i: nat, name: string, text: string) {
    i < |CSV_COLUMNS| && i < |record| && CSV_COLUMNS[i] == name && record[i] == text
  }

  lemma {:induction false} TextsAt(cells: seq<Option<string>>, i: nat)
    requires i < |cells|
    ensures |TextsOf(cells)| == |cells| && TextsOf(cells)[i] == TextOf(cells[i])
  {
    if |cells| > 1 { TextsAt(cells[1..], if i > 0 then i - 1 else 0); }
  }

  lemma {:induction false} RowAt(rows: seq<Row>, k: nat)
    requires k < |rows|
    ensures var table := TextTable(CellTable(rows)); |table| == |rows| && table[k] == TextsOf(Cells(rows[k]))
  {
    if |rows| > 1 { RowAt(rows[1..], if k > 0 then k - 1 else 0); }
  }

  lemma {:induction false} ColumnHolds(r: Row, i: nat, name: string)
    requires i < |CSV_COLUMNS| && CSV_COLUMNS[i] == name
    ensures Holds(TextsOf(Cells(r)), i, name, TextOf(Cells(r)[i]))
  {
    TextsAt(Cells(r), i);
  }

  /** Every field of the row stands under its own name, and there are no other columns. */
  predicate Carries(record: seq<string>, r: Row) {
    && |record| == |CSV_COLUMNS| == 8
    && Holds(record, 0, "id", Decimal(r.id)) && Holds(record, 1, "game_id", r.gameId)
    && Holds(record, 2, "multiplier", r.multiplier) && Holds(record, 3, "hash", TextOf(r.hash))
    && Holds(record, 4, "salt", TextOf(r.salt)) && Holds(record, 5, "began_at", TextOf(r.beganAt))
    && Holds(record, 6, "crashed_at", TextOf(r.crashedAt)) && Holds(record, 7, "ingested_at", TextOf(r.ingestedAt))
  }

  lemma {:induction false} FieldsStandUnderTheirNames(r: Row)
    ensures Carries(TextsOf(Cells(r)), r)
  {
    ColumnHolds(r, 0, "id");
    ColumnHolds(r, 1, "game_id");
    ColumnHolds(r, 2, "multiplier");
    ColumnHolds(r, 3, "hash");
    ColumnHolds(r, 4, "salt");
    ColumnHolds(r, 5, "began_at");
    ColumnHolds(r, 6, "crashed_at");
    ColumnHolds(r, 7, "ingested_at");
    TextsAt(Cells(r), 0);
  }
}
