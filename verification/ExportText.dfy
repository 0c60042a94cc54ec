/** The exported file as one text, and what a reader gets back from it. */
module ExportText {
  import opened Csv
  import opened Decimals
  import opened Export
  import opened Wrappers

  /** All chunks of an export. */
  function Chunks(format: Format, count: int, generatedAt: string, rows: seq<Row>, history: History, batchSize: nat): seq<string> {
    [Header(format, count, generatedAt)] + Texts(format, AllPages(rows, history, batchSize)) + Footer(format)
  }

  lemma {:induction false} ConcatOne(text: string)
    ensures Concat([text]) == text
  {
    assert [text][..0] == [] && "" + text == text;
  }

  /** The CSV file is the header line and the lines of all streamed rows, nothing before and nothing behind. */
  lemma {:induction false} CsvFileText(count: int, generatedAt: string, rows: seq<Row>, history: History, batchSize: nat)
    ensures Concat(Chunks(CsvFormat, count, generatedAt, rows, history, batchSize))
         == CsvHeader() + CsvRows(Streamed(rows, history, batchSize))
  {
    var text := CsvHeader() + CsvRows(Streamed(rows, history, batchSize));
    ExportIsOneRendering(CsvFormat, count, generatedAt, rows, history, batchSize);
    assert text + "" == text;
  }

  /** The JSON file is one object with the declared count and the records of all streamed rows in its list. */
  lemma {:induction false} JsonFileText(count: int, generatedAt: string, rows: seq<Row>, history: History, batchSize: nat)
    ensures Concat(Chunks(JsonFormat, count, generatedAt, rows, history, batchSize))
         == "{\"source\":\"crash_rounds\",\"ordering\":\"id asc\",\"exportedAt\":" + generatedAt + ",\"count\":" + Decimal(count)
            + ",\"rounds\":[" + JsonRows(Streamed(rows, history, batchSize)) + "]}"
  {
    ExportIsOneRendering(JsonFormat, count, generatedAt, rows, history, batchSize);
    ConcatOne("]}");
  }

  /** Read back, a CSV file starts with the column names, and every streamed row follows with its fields under them. */
  lemma {:induction false} CsvFileReadsBack(count: int, generatedAt: string, rows: seq<Row>, history: History, batchSize: nat)
    ensures var streamed := Streamed(rows, history, batchSize);
      var table := ReadCsv(Concat(Chunks(CsvFormat, count, generatedAt, rows, history, batchSize)));
      && table.Some? && |table.value| == 1 + |streamed| && table.value[0] == CSV_COLUMNS
      && forall k :: 0 <= k < |streamed| ==> Carries(table.value[1 + k], streamed[k])
  {
    var streamed := Streamed(rows, history, batchSize);
    CsvFileText(count, generatedAt, rows, history, batchSize);
    ExportedCsvReadsBack(rows, history, batchSize);
    TableCarries(streamed);
  }

  lemma {:induction false} TableCarries(rows: seq<Row>)
    ensures var table := [CSV_COLUMNS] + TextTable(CellTable(rows));
      |table| == 1 + |rows| && forall k :: 0 <= k < |rows| ==> Carries(table[1 + k], rows[k])
  {
    if rows != [] { RowAt(rows, 0); }
    forall k | 0 <= k < |rows| ensures Carries(([CSV_COLUMNS] + TextTable(CellTable(rows)))[1 + k], rows[k]) {
      RowAt(rows, k);
      FieldsStandUnderTheirNames(rows[k]);
    }
  }

  // ---------------------------------------------------------------- reading a JSON list

  /** Where a reader of JSON text stands: how deep, and whether in a string (RFC 8259, sections 4, 5 and 7). */
  datatype Place = Place(depth: int, quoted: bool, escaped: bool)

  const TOP := Place(0, false, false)

  function Moved(p: Place, c: char): Place {
    if p.escaped then p.(escaped := false)
    else if p.quoted then if c == '\\' then p.(escaped := true) else if c == '"' then p.(quoted := false) else p
    else if c == '"' then p.(quoted := true)
    else if c == '{' || c == '[' then p.(depth := p.depth + 1)
    else if c == '}' || c == ']' then p.(depth := p.depth - 1)
    else p
  }

  /** A reader that cuts the elements of a list at the commas between them. */
  datatype ListReader = ListReader(place: Place, pending: string, records: seq<string>)

  function Took(r: ListReader, c: char): ListReader {
    if c == ',' && r.place == TOP then ListReader(TOP, "", r.records + [r.pending])
    else r.(place := Moved(r.place, c), pending := r.pending + [c])
  }

  function TookAll(r: ListReader, text: string): ListReader
    decreases |text|
  {
    if text == "" then r else TookAll(Took(r, text[0]), text[1..])
  }

  /** The elements of a list without its brackets. */
  function ReadList(text: string): seq<string> {
    if text == "" then [] else var r := TookAll(ListReader(TOP, "", []), text); r.records + [r.pending]
  }

  /** The text of one element: closed, and without a comma outside its own brackets and strings. */
  predicate IsElement(text: string) {
    text != "" && TookAll(ListReader(TOP, "", []), text) == ListReader(TOP, text, [])
  }

  lemma {:induction false} TookBoth(r: ListReader, a: string, b: string)
    ensures TookAll(r, a + b) == TookAll(TookAll(r, a), b)
    decreases |a|
  {
    if a == "" {
      assert a + b == b;
    } else {
      assert (a + b)[0] == a[0] && (a + b)[1..] == a[1..] + b;
      TookBoth(Took(r, a[0]), a[1..], b);
    }
  }

  /** What was cut off before changes nothing. */
  lemma {:induction false} RecordsBefore(r: ListReader, before: seq<string>, text: string)
    ensures var t := TookAll(r, text);
      TookAll(r.(records := before + r.records), text) == t.(records := before + t.records)
    decreases |text|
  {
    if text != "" {
      var next := Took(r, text[0]);
      if text[0] == ',' && r.place == TOP { assert before + next.records == (before + r.records) + [r.pending]; }
      RecordsBefore(next, before, text[1..]);
    }
  }

  function Records(rows: seq<Row>): seq<string> {
    if rows == [] then [] else [rows[0].json] + Records(rows[1..])
  }

  lemma {:induction false} ListIsCut(rows: seq<Row>, before: seq<string>)
    requires rows != [] && forall k :: 0 <= k < |rows| ==> IsElement(rows[k].json)
    ensures var r := TookAll(ListReader(TOP, "", before), JsonRows(rows));
      r.records + [r.pending] == before + Records(rows)
    decreases |rows|
  {
    var first := rows[0].json;
    var start := ListReader(TOP, "", before);
    RecordsBefore(ListReader(TOP, "", []), before, first);
    assert before + [] == before;
    assert TookAll(start, first) == ListReader(TOP, first, before);
    if |rows| > 1 {
      var rest := JsonRows(rows[1..]);
      TookBoth(start, first, [','] + rest);
      assert ([','] + rest)[1..] == rest;
      assert Took(ListReader(TOP, first, before), ',') == ListReader(TOP, "", before + [first]);
      ListIsCut(rows[1..], before + [first]);
      assert (before + [first]) + Records(rows[1..]) == before + Records(rows);
    } else {
      assert Records(rows[1..]) == [];
    }
  }

  lemma {:induction false} ListStarts(rows: seq<Row>)
    requires rows != [] && IsElement(rows[0].json)
    ensures JsonRows(rows) != ""
  {}

  /** Whatever the page size, the list of the JSON file reads back as the records of the streamed rows, in order. */
  lemma {:induction false} JsonListReadsBack(rows: seq<Row>, history: History, batchSize: nat)
    requires forall k :: 0 <= k < |Streamed(rows, history, batchSize)| ==> IsElement(Streamed(rows, history, batchSize)[k].json)
    ensures ReadList(JsonRows(Streamed(rows, history, batchSize))) == Records(Streamed(rows, history, batchSize))
  {
    var streamed := Streamed(rows, history, batchSize);
    if streamed != [] {
      ListStarts(streamed);
      ListIsCut(streamed, []);
      assert [] + Records(streamed) == Records(streamed);
    }
  }
}
