/** The export of all rounds: keyset pages, rendered chunk by chunk. */
module Export {
  import opened Csv
  import opened Decimals
  import opened Wrappers

  datatype Format = CsvFormat | JsonFormat

  /** The rows by ascending id; a primary key, so no two rows share one. */
  predicate Sorted(rows: seq<Row>) {
    forall i, j :: 0 <= i < j < |rows| ==> rows[i].id < rows[j].id
  }

  // ---------------------------------------------------------------- rendering

  function CsvRows(rows: seq<Row>): string {
    CsvLines(CellTable(rows))
  }

  /** The records of the rows, separated by commas. */
  function JsonRows(rows: seq<Row>): string {
    if rows == [] then ""
    else if |rows| == 1 then rows[0].json
    else rows[0].json + ([','] + JsonRows(rows[1..]))
  }

  function Joined(texts: seq<string>): string {
    if texts == [] then "" else texts[0] + (if |texts| == 1 then "" else [','] + Joined(texts[1..]))
  }

  function CsvHeader(): string {
    Joined(CSV_COLUMNS) + ['\n']
  }

  /** `generatedAt` is the JSON text of the date. */
  function JsonHeader(count: int, generatedAt: string): string {
    "{\"source\":\"crash_rounds\",\"ordering\":\"id asc\",\"exportedAt\":" + generatedAt
    + ",\"count\":" + Decimal(count) + ",\"rounds\":["
  }

  function Header(format: Format, count: int, generatedAt: string): string {
    if format.CsvFormat? then CsvHeader() else JsonHeader(count, generatedAt)
  }

  function Footer(format: Format): seq<string> {
    if format.JsonFormat? then ["]}"] else []
  }

  function Rendered(format: Format, rows: seq<Row>): string {
    if format.CsvFormat? then CsvRows(rows) else JsonRows(rows)
  }

  /** The text of a page; all but the first JSON page start with a comma. */
  function PageText(format: Format, first: bool, page: seq<Row>): string {
    if format.CsvFormat? then CsvRows(page)
    else if first then JsonRows(page)
    else [','] + JsonRows(page)
  }

  function Texts(format: Format, pages: seq<seq<Row>>): seq<string> {
    if pages == [] then []
    else
      var n := |pages| - 1;
      Texts(format, pages[..n]) + [PageText(format, n == 0, pages[n])]
  }

  function Concat(texts: seq<string>): string {
    if texts == [] then "" else Concat(texts[..|texts| - 1]) + texts[|texts| - 1]
  }

  function Flat(pages: seq<seq<Row>>): seq<Row> {
    if pages == [] then [] else Flat(pages[..|pages| - 1]) + pages[|pages| - 1]
  }

  // ---------------------------------------------------------------- reading pages

  /** The rows a reader sees at its `k`-th query: rows committed later, or deleted before, are invisible to it. */
  type History = seq<set<int>>

  predicate Seen(history: History, k: nat, id: int) {
    k < |history| ==> id in history[k]
  }

  /** `id > after order by id limit n` over the rows visible at the `k`-th query. */
  function Page(rows: seq<Row>, history: History, k: nat, after: int, limit: nat): seq<Row>
    decreases |rows|
  {
    if rows == [] || limit == 0 then []
    else if rows[0].id > after && Seen(history, k, rows[0].id) then
      [rows[0]] + Page(rows[1..], history, k, after, limit - 1)
    else
      Page(rows[1..], history, k, after, limit)
  }

  /** How many rows there still are above `after`. */
  function Above(rows: seq<Row>, after: int): nat {
    if rows == [] then 0 else (if rows[0].id > after then 1 else 0) + Above(rows[1..], after)
  }

  function LastId(rows: seq<Row>): int
    requires rows != []
  {
    rows[|rows| - 1].id
  }

  lemma {:induction false} PageRow(rows: seq<Row>, history: History, k: nat, after: int, limit: nat, i: nat)
    requires i < |Page(rows, history, k, after, limit)|
    ensures |Page(rows, history, k, after, limit)| <= limit
    ensures var r := Page(rows, history, k, after, limit)[i];
      r in rows && r.id > after && Seen(history, k, r.id)
    decreases |rows|
  {
    assert rows == [rows[0]] + rows[1..];
    if rows[0].id > after && Seen(history, k, rows[0].id) {
      if i > 0 {
        PageRow(rows[1..], history, k, after, limit - 1, i - 1);
      } else if Page(rows[1..], history, k, after, limit - 1) != [] {
        PageRow(rows[1..], history, k, after, limit - 1, 0);
      }
    } else {
      PageRow(rows[1..], history, k, after, limit, i);
    }
  }

  lemma {:induction false} AboveFalls(rows: seq<Row>, low: int, high: int)
    requires low <= high
    ensures Above(rows, high) <= Above(rows, low)
    ensures (exists r :: r in rows && low < r.id <= high) ==> Above(rows, high) < Above(rows, low)
    decreases |rows|
  {
    if rows != [] {
      AboveFalls(rows[1..], low, high);
      assert rows == [rows[0]] + rows[1..];
    }
  }

  lemma {:induction false} PageAdvances(rows: seq<Row>, history: History, k: nat, after: int, limit: nat)
    requires Page(rows, history, k, after, limit) != []
    ensures var page := Page(rows, history, k, after, limit);
      LastId(page) > after && Above(rows, LastId(page)) < Above(rows, after)
  {
    var page := Page(rows, history, k, after, limit);
    PageRow(rows, history, k, after, limit, |page| - 1);
    AboveFalls(rows, after, LastId(page));
  }

  /** The pages of an export from the `k`-th query on. */
  function Pages(rows: seq<Row>, history: History, k: nat, after: int, batchSize: nat): seq<seq<Row>>
    decreases Above(rows, after)
  {
    var page := Page(rows, history, k, after, batchSize);
    if page == [] then []
    else if |page| < batchSize then [page]
    else
      PageAdvances(rows, history, k, after, batchSize);
      [page] + Pages(rows, history, k + 1, LastId(page), batchSize)
  }

  function AllPages(rows: seq<Row>, history: History, batchSize: nat): seq<seq<Row>> {
    Pages(rows, history, 0, 0, batchSize)
  }

  /** All rows an export reads. */
  function Streamed(rows: seq<Row>, history: History, batchSize: nat): seq<Row> {
    Flat(AllPages(rows, history, batchSize))
  }

  // ---------------------------------------------------------------- the generator

  method RenderCsvRows(rows: seq<Row>) returns (text: string)
    ensures text == CsvRows(rows)
  {
    text := "";
    for i := 0 to |rows|
      invariant text == CsvRows(rows[..i])
    {
      text := text + CsvLine(Cells(rows[i]));
      CsvRowsGrow(rows[..i], rows[i]);
      assert rows[..i] + [rows[i]] == rows[..i + 1];
    }
    assert rows[..|rows|] == rows;
  }

  method RenderJsonRows(rows: seq<Row>) returns (text: string)
    ensures text == JsonRows(rows)
  {
    var parts: seq<string> := [];
    for i := 0 to |rows|
      invariant parts == seq(i, j requires 0 <= j < |rows| => rows[j].json)
    {
      parts := parts + [rows[i].json];
    }
    JoinedRecords(rows);
    text := Joined(parts);
  }

  lemma {:induction false} PagesFrom(rows: seq<Row>, history: History, k: nat, after: int, batchSize: nat)
    ensures var page, pages := Page(rows, history, k, after, batchSize), Pages(rows, history, k, after, batchSize);
      && (page == [] ==> pages == [])
      && (page != [] ==> Above(rows, LastId(page)) < Above(rows, after) && pages == [page] + pages[1..])
      && (page != [] && |page| < batchSize ==> pages[1..] == [])
      && (page != [] && |page| >= batchSize ==> pages[1..] == Pages(rows, history, k + 1, LastId(page), batchSize))
  {
    if Page(rows, history, k, after, batchSize) != [] { PageAdvances(rows, history, k, after, batchSize); }
  }

  /** The pages read so far and those still to come make up the whole export. */
  ghost predicate Underway(whole: seq<seq<Row>>, pages: seq<seq<Row>>, finished: bool,
                           rows: seq<Row>, history: History, k: nat, after: int, batchSize: nat)
  {
    whole == if finished then pages else pages + Pages(rows, history, k, after, batchSize)
  }

  /** The chunks and the row count for these pages. */
  ghost predicate Printed(format: Format, header: string, chunks: seq<string>, total: nat, pages: seq<seq<Row>>) {
    && chunks == [header] + Texts(format, pages)
    && total == |Flat(pages)|
  }

  ghost predicate Emitted(format: Format, header: string, chunks: seq<string>, needComma: bool, total: nat,
                          pages: seq<seq<Row>>)
  {
    && Printed(format, header, chunks, total, pages)
    && (needComma <==> format.JsonFormat? && pages != [])
  }

  lemma {:induction false} FirstPage(format: Format, header: string, rows: seq<Row>, history: History, batchSize: nat)
    ensures Emitted(format, header, [header], false, 0, [])
    ensures Underway(AllPages(rows, history, batchSize), [], false, rows, history, 0, 0, batchSize)
  {
    assert [] + AllPages(rows, history, batchSize) == AllPages(rows, history, batchSize);
  }

  /** One turn of the loop, seen from the list of all pages. */
  lemma {:induction false} AnotherPage(whole: seq<seq<Row>>, pages: seq<seq<Row>>,
                                       rows: seq<Row>, history: History, k: nat, after: int, batchSize: nat)
    requires Underway(whole, pages, false, rows, history, k, after, batchSize)
    ensures var page := Page(rows, history, k, after, batchSize);
      && (page == [] ==> Underway(whole, pages, true, rows, history, k, after, batchSize))
      && (page != [] ==>
            && Above(rows, LastId(page)) < Above(rows, after)
            && Underway(whole, pages + [page], |page| < batchSize, rows, history, k + 1, LastId(page), batchSize))
  {
    PagesFrom(rows, history, k, after, batchSize);
    var page, rest := Page(rows, history, k, after, batchSize), Pages(rows, history, k, after, batchSize);
    if page != [] {
      assert pages + rest == (pages + [page]) + rest[1..];
    }
  }

  lemma {:induction false} AnotherText(format: Format, header: string, chunks: seq<string>, needComma: bool, total: nat,
                                       pages: seq<seq<Row>>, page: seq<Row>)
    requires Emitted(format, header, chunks, needComma, total, pages)
    ensures Emitted(format, header, chunks + [PageText(format, !needComma, page)], format.JsonFormat?,
                    total + |page|, pages + [page])
  {
    assert (pages + [page])[..|pages|] == pages;
  }

  method RenderPage(format: Format, needComma: bool, page: seq<Row>) returns (text: string)
    ensures text == PageText(format, !needComma, page)
  {
    if format.CsvFormat? {
      text := RenderCsvRows(page);
    } else {
      text := RenderJsonRows(page);
      if needComma { text := [','] + text; }
    }
  }

  /** The body of the generator's loop for a page that is not empty. */
  method EmitPage(format: Format, ghost header: string, chunks: seq<string>, needComma: bool,
                  ghost pages: seq<seq<Row>>, page: seq<Row>, ghost total: nat)
    returns (more: seq<string>, comma: bool)
    requires Emitted(format, header, chunks, needComma, total, pages)
    ensures Emitted(format, header, more, comma, total + |page|, pages + [page])
  {
    var text := RenderPage(format, needComma, page);
    AnotherText(format, header, chunks, needComma, total, pages, page);
    more, comma := chunks + [text], format.JsonFormat?;
  }

  method GenerateExportChunks(format: Format, count: int, generatedAt: string,
                              rows: seq<Row>, history: History, batchSize: nat) returns (chunks: seq<string>, failed: bool)
    ensures chunks == [Header(format, count, generatedAt)]
                      + Texts(format, AllPages(rows, history, batchSize)) + Footer(format)
    ensures failed <==> |Streamed(rows, history, batchSize)| != count && count > 0
  {
    var header := Header(format, count, generatedAt);
    var texts, total := StreamPages(format, header, rows, history, batchSize);
    chunks := texts + Footer(format);
    failed := total != count && count > 0;
  }

  /** The loop of the generator: the chunks up to the footer, and the number of rows in them. */
  method StreamPages(format: Format, header: string, rows: seq<Row>, history: History, batchSize: nat)
    returns (chunks: seq<string>, total: nat)
    ensures Printed(format, header, chunks, total, AllPages(rows, history, batchSize))
  {
    chunks := [header];
    var afterId, needComma, k, finished := 0, false, 0, false;
    total := 0;
    ghost var pages: seq<seq<Row>> := [];
    ghost var whole := AllPages(rows, history, batchSize);
    FirstPage(format, header, rows, history, batchSize);
    while !finished
      invariant Emitted(format, header, chunks, needComma, total, pages)
      invariant Underway(whole, pages, finished, rows, history, k, afterId, batchSize)
      decreases !finished, Above(rows, afterId)
    {
      var page := Page(rows, history, k, afterId, batchSize);
      AnotherPage(whole, pages, rows, history, k, afterId, batchSize);
      if page == [] {
        finished := true;
      } else {
        chunks, needComma := EmitPage(format, header, chunks, needComma, pages, page, total);
        total := total + |page|;
        pages := pages + [page];
        k, afterId := k + 1, page[|page| - 1].id;
        finished := |page| < batchSize;
      }
    }
  }

  // ---------------------------------------------------------------- the chunks are the one-shot text

  lemma {:induction false} CsvRowsGrow(a: seq<Row>, r: Row)
    ensures CsvRows(a + [r]) == CsvRows(a) + CsvLine(Cells(r))
  {
    var one := [r];
    CsvRowsSplit(a, one);
    assert one[1..] == [];
    var cells := CellTable(one);
    assert cells == [Cells(r)] + CellTable(one[1..]);
    assert cells[1..] == [] && cells[0] == Cells(r);
    assert CsvLines(cells) == CsvLine(cells[0]) + CsvLines(cells[1..]);
    assert CsvLine(Cells(r)) + "" == CsvLine(Cells(r));
  }

  lemma {:induction false} CsvRowsSplit(a: seq<Row>, b: seq<Row>)
    ensures CsvRows(a + b) == CsvRows(a) + CsvRows(b)
    decreases |a|
  {
    if a == [] {
      assert a + b == b;
      assert "" + CsvRows(b) == CsvRows(b);
    } else {
      assert (a + b)[1..] == a[1..] + b;
      assert CellTable(a + b) == [Cells(a[0])] + CellTable(a[1..] + b);
      assert CellTable(a) == [Cells(a[0])] + CellTable(a[1..]);
      CsvRowsSplit(a[1..], b);
      assert CsvLine(Cells(a[0])) + (CsvRows(a[1..]) + CsvRows(b)) == (CsvLine(Cells(a[0])) + CsvRows(a[1..])) + CsvRows(b);
    }
  }

  lemma {:induction false} JoinedRecords(rows: seq<Row>)
    ensures Joined(seq(|rows|, i requires 0 <= i < |rows| => rows[i].json)) == JsonRows(rows)
    decreases |rows|
  {
    var texts := seq(|rows|, i requires 0 <= i < |rows| => rows[i].json);
    if rows != [] {
      JoinedRecords(rows[1..]);
      assert texts[1..] == seq(|rows| - 1, i requires 0 <= i < |rows| - 1 => rows[1..][i].json);
      assert |rows| == 1 ==> rows[0].json + "" == rows[0].json;
    }
  }

  lemma {:induction false} JsonRowsSplit(a: seq<Row>, b: seq<Row>)
    requires a != [] && b != []
    ensures JsonRows(a + b) == JsonRows(a) + ([','] + JsonRows(b))
    decreases |a|
  {
    assert (a + b)[1..] == a[1..] + b;
    if |a| == 1 {
      assert a[1..] + b == b;
    } else {
      JsonRowsSplit(a[1..], b);
      var x, y, z := a[0].json, JsonRows(a[1..]), [','] + JsonRows(b);
      assert x + ([','] + (y + z)) == (x + ([','] + y)) + z;
    }
  }

  ghost predicate Full(pages: seq<seq<Row>>) {
    pages == [] || (pages[|pages| - 1] != [] && Full(pages[..|pages| - 1]))
  }

  /** The page texts, one after the other, are the text of all rows rendered at once: no separator is lost or doubled. */
  lemma {:induction false} PagesRenderAsOne(format: Format, pages: seq<seq<Row>>)
    requires Full(pages)
    ensures Concat(Texts(format, pages)) == Rendered(format, Flat(pages))
    ensures pages != [] ==> Flat(pages) != []
  {
    if pages != [] {
      var front, page := pages[..|pages| - 1], pages[|pages| - 1];
      PagesRenderAsOne(format, front);
      var text := PageText(format, front == [], page);
      assert Texts(format, pages) == Texts(format, front) + [text];
      ConcatGrows(Texts(format, front), text);
      if format.CsvFormat? {
        CsvRowsSplit(Flat(front), page);
      } else if front != [] {
        JsonRowsSplit(Flat(front), page);
      } else {
        assert Flat(front) + page == page;
        assert "" + JsonRows(page) == JsonRows(page);
      }
    }
  }

  lemma {:induction false} ConcatGrows(texts: seq<string>, t: string)
    ensures Concat(texts + [t]) == Concat(texts) + t
  {
    assert (texts + [t])[..|texts|] == texts;
  }

  lemma {:induction false} FullGrows(page: seq<Row>, pages: seq<seq<Row>>)
    requires page != [] && Full(pages)
    ensures Full([page] + pages)
    ensures Flat([page] + pages) == page + Flat(pages)
    decreases |pages|
  {
    if pages == [] {
      assert [page] + pages == [page] && [page][..0] == [];
      assert [] + page == page + [];
    } else {
      var front, last := pages[..|pages| - 1], pages[|pages| - 1];
      FullGrows(page, front);
      assert ([page] + pages)[..|pages|] == [page] + front;
      assert (page + Flat(front)) + last == page + (Flat(front) + last);
    }
  }

  lemma {:induction false} PagesAreFull(rows: seq<Row>, history: History, k: nat, after: int, batchSize: nat)
    ensures Full(Pages(rows, history, k, after, batchSize))
    decreases Above(rows, after)
  {
    var page := Page(rows, history, k, after, batchSize);
    if page != [] {
      assert [page] + [] == [page];
      if |page| < batchSize {
        FullGrows(page, []);
      } else {
        PageAdvances(rows, history, k, after, batchSize);
        PagesAreFull(rows, history, k + 1, LastId(page), batchSize);
        FullGrows(page, Pages(rows, history, k + 1, LastId(page), batchSize));
      }
    }
  }

  /** For any batch size and any commits in between, the whole export is the header, all streamed rows at once, the footer. */
  lemma {:induction false} ExportIsOneRendering(format: Format, count: int, generatedAt: string,
                                                rows: seq<Row>, history: History, batchSize: nat)
    ensures var chunks := [Header(format, count, generatedAt)]
                          + Texts(format, AllPages(rows, history, batchSize)) + Footer(format);
      Concat(chunks) == Header(format, count, generatedAt)
                        + Rendered(format, Streamed(rows, history, batchSize)) + Concat(Footer(format))
  {
    var pages := AllPages(rows, history, batchSize);
    PagesAreFull(rows, history, 0, 0, batchSize);
    PagesRenderAsOne(format, pages);
    var header := Header(format, count, generatedAt);
    ConcatSplit([header], Texts(format, pages));
    ConcatGrows([], header);
    assert [] + [header] == [header] && "" + header == header;
    ConcatSplit([header] + Texts(format, pages), Footer(format));
  }

  lemma {:induction false} ConcatSplit(a: seq<string>, b: seq<string>)
    ensures Concat(a + b) == Concat(a) + Concat(b)
    decreases |b|
  {
    if b == [] {
      assert a + b == a;
    } else {
      var front, last := b[..|b| - 1], b[|b| - 1];
      assert a + b == (a + front) + [last];
      ConcatGrows(a + front, last);
      ConcatSplit(a, front);
      assert (Concat(a) + Concat(front)) + last == Concat(a) + (Concat(front) + last);
    }
  }

  // ---------------------------------------------------------------- no row is lost or repeated

  lemma {:induction false} PageIsSorted(rows: seq<Row>, history: History, k: nat, after: int, limit: nat)
    requires Sorted(rows)
    ensures Sorted(Page(rows, history, k, after, limit))
    ensures forall r :: r in Page(rows, history, k, after, limit) ==> r in rows && r.id > after
    decreases |rows|
  {
    if rows != [] {
      assert rows == [rows[0]] + rows[1..];
      PageIsSorted(rows[1..], history, k, after, limit);
      if limit > 0 { PageIsSorted(rows[1..], history, k, after, limit - 1); }
    }
  }

  /** A visible row above the key is on the page, unless the page is full of smaller ids. */
  lemma {:induction false} PageSkipsNothing(rows: seq<Row>, history: History, k: nat, after: int, limit: nat, r: Row)
    requires Sorted(rows) && r in rows && r.id > after && Seen(history, k, r.id)
    ensures var page := Page(rows, history, k, after, limit);
      r in page || (|page| == limit && (page == [] || LastId(page) < r.id))
    decreases |rows|
  {
    assert rows == [rows[0]] + rows[1..];
    if limit > 0 && r != rows[0] {
      if rows[0].id > after && Seen(history, k, rows[0].id) {
        PageSkipsNothing(rows[1..], history, k, after, limit - 1, r);
      } else {
        PageSkipsNothing(rows[1..], history, k, after, limit, r);
      }
    }
  }

  /** Unfolds the stream by one page. */
  lemma {:induction false} StreamFrom(rows: seq<Row>, history: History, k: nat, after: int, batchSize: nat)
    ensures var page, all := Page(rows, history, k, after, batchSize), Flat(Pages(rows, history, k, after, batchSize));
      && (page == [] ==> all == [])
      && (page != [] && |page| < batchSize ==> all == page)
      && (page != [] && |page| >= batchSize ==>
            && Above(rows, LastId(page)) < Above(rows, after)
            && all == page + Flat(Pages(rows, history, k + 1, LastId(page), batchSize)))
  {
    var page := Page(rows, history, k, after, batchSize);
    PagesFrom(rows, history, k, after, batchSize);
    if page != [] {
      if |page| < batchSize {
        FullGrows(page, []);
        assert [page] + [] == [page];
        assert page + [] == page;
      } else {
        PagesAreFull(rows, history, k + 1, LastId(page), batchSize);
        FullGrows(page, Pages(rows, history, k + 1, LastId(page), batchSize));
      }
    }
  }

  lemma {:induction false} StreamAscends(rows: seq<Row>, history: History, k: nat, after: int, batchSize: nat)
    requires Sorted(rows)
    ensures var all := Flat(Pages(rows, history, k, after, batchSize));
      Sorted(all) && forall r :: r in all ==> r in rows && r.id > after
    decreases Above(rows, after)
  {
    var page := Page(rows, history, k, after, batchSize);
    StreamFrom(rows, history, k, after, batchSize);
    PageIsSorted(rows, history, k, after, batchSize);
    if page != [] && |page| >= batchSize {
      assert page[|page| - 1] in page;
      StreamAscends(rows, history, k + 1, LastId(page), batchSize);
      SortedJoin(page, Flat(Pages(rows, history, k + 1, LastId(page), batchSize)));
    }
  }

  lemma {:induction false} SortedJoin(a: seq<Row>, b: seq<Row>)
    requires a != [] && Sorted(a) && Sorted(b) && forall r :: r in b ==> r.id > LastId(a)
    ensures Sorted(a + b)
  {
    forall i, j | 0 <= i < j < |a + b| ensures (a + b)[i].id < (a + b)[j].id {
      if i < |a| <= j {
        assert b[j - |a|] in b;
      }
    }
  }

  lemma {:induction false} VisibleIsStreamed(rows: seq<Row>, history: History, k: nat, after: int, batchSize: nat, r: Row)
    requires Sorted(rows) && r in rows && r.id > after && 0 < batchSize
    requires forall j :: k <= j ==> Seen(history, j, r.id)
    ensures r in Flat(Pages(rows, history, k, after, batchSize))
    decreases Above(rows, after)
  {
    var page := Page(rows, history, k, after, batchSize);
    StreamFrom(rows, history, k, after, batchSize);
    assert Seen(history, k, r.id);
    PageSkipsNothing(rows, history, k, after, batchSize, r);
    if r !in page {
      VisibleIsStreamed(rows, history, k + 1, LastId(page), batchSize, r);
    }
  }

  /** However rows are committed or deleted between two pages: ids rise strictly, so no row is streamed twice, and a row
      with a positive id that every query can see is streamed. */
  lemma {:induction false} NothingIsLostOrRepeated(rows: seq<Row>, history: History, batchSize: nat)
    requires Sorted(rows) && 0 < batchSize
    ensures Sorted(Streamed(rows, history, batchSize))
    ensures forall r :: r in Streamed(rows, history, batchSize) ==> r in rows && r.id > 0
    ensures forall r :: r in rows && r.id > 0 && (forall j :: 0 <= j ==> Seen(history, j, r.id)) ==>
              r in Streamed(rows, history, batchSize)
  {
    StreamAscends(rows, history, 0, 0, batchSize);
    forall r | r in rows && r.id > 0 && (forall j :: 0 <= j ==> Seen(history, j, r.id))
      ensures r in Streamed(rows, history, batchSize)
    {
      VisibleIsStreamed(rows, history, 0, 0, batchSize, r);
    }
  }

  /** The rows the key can reach: it starts at 0. */
  function Positive(rows: seq<Row>): seq<Row> {
    if rows == [] then [] else (if rows[0].id > 0 then [rows[0]] else []) + Positive(rows[1..])
  }

  lemma {:induction false} PositiveRows(rows: seq<Row>)
    requires Sorted(rows)
    ensures Sorted(Positive(rows))
    ensures forall r :: r in Positive(rows) <==> r in rows && r.id > 0
  {
    if rows != [] {
      assert rows == [rows[0]] + rows[1..];
      PositiveRows(rows[1..]);
    }
  }

  lemma {:induction false} FirstOf(a: seq<Row>)
    requires Sorted(a)
    ensures a != [] ==> a[0] in a && forall r :: r in a ==> a[0].id <= r.id
  {
  }

  lemma {:induction false} RestOf(a: seq<Row>)
    requires Sorted(a) && a != []
    ensures forall r :: r in a[1..] <==> r in a && r != a[0]
  {
    assert a == [a[0]] + a[1..];
  }

  lemma {:induction false} SameRows(a: seq<Row>, b: seq<Row>)
    requires Sorted(a) && Sorted(b) && forall r :: r in a <==> r in b
    ensures a == b
    decreases |a|
  {
    FirstOf(a);
    FirstOf(b);
    if a != [] && b != [] {
      RestOf(a);
      RestOf(b);
      SameRows(a[1..], b[1..]);
      assert a == [a[0]] + a[1..] && b == [b[0]] + b[1..];
    }
  }

  /** On a table that does not change, the stream is every row with a positive id, in id order, whatever the batch size. */
  lemma {:induction false} StillTableIsStreamedWhole(rows: seq<Row>, batchSize: nat)
    requires Sorted(rows) && 0 < batchSize
    ensures Streamed(rows, [], batchSize) == Positive(rows)
  {
    NothingIsLostOrRepeated(rows, [], batchSize);
    PositiveRows(rows);
    SameRows(Streamed(rows, [], batchSize), Positive(rows));
  }

  /** The export of an unchanging table is complete exactly when the batch size is not 0 and no id is 0 or negative. */
  lemma {:induction false} ExportIsCompleteIff(rows: seq<Row>, batchSize: nat)
    requires Sorted(rows)
    ensures Streamed(rows, [], batchSize) == rows <==> (rows == [] || (0 < batchSize && rows[0].id > 0))
  {
    PositiveRows(rows);
    if batchSize == 0 {
      StreamFrom(rows, [], 0, 0, batchSize);
    } else {
      StillTableIsStreamedWhole(rows, batchSize);
      if rows != [] && rows[0].id > 0 { SameRows(Positive(rows), rows); }
      assert rows != [] ==> rows[0] in rows;
    }
  }

  lemma {:induction false} NoQuotesNeeded(text: string)
    requires forall i :: 0 <= i < |text| ==> !Special(text[i])
    ensures !NeedsQuotes(text)
  {
    if text != "" { NoQuotesNeeded(text[1..]); }
  }

  function Present(names: seq<string>): seq<Option<string>> {
    if names == [] then [] else [Some(names[0])] + Present(names[1..])
  }

  ghost predicate AllPlain(names: seq<string>) {
    names == [] || (!NeedsQuotes(names[0]) && AllPlain(names[1..]))
  }

  /** Names without special characters print as they are. */
  lemma {:induction false} PlainNamesPrint(names: seq<string>)
    requires names != [] && AllPlain(names)
    ensures CsvLine(Present(names)) == Joined(names) + ['\n'] && TextsOf(Present(names)) == names
    decreases |names|
  {
    assert Present(names)[1..] == Present(names[1..]);
    if |names| == 1 {
      assert names[0] + "" == names[0];
      assert Present(names[1..]) == [];
    } else {
      PlainNamesPrint(names[1..]);
      assert |Present(names)| > 1;
      assert names[0] + ([','] + (Joined(names[1..]) + ['\n'])) == (names[0] + ([','] + Joined(names[1..]))) + ['\n'];
    }
  }

  lemma {:induction false} ColumnNamesArePlain()
    ensures AllPlain(CSV_COLUMNS)
  {
    AllPlainFrom(0);
  }

  lemma {:induction false} AllPlainFrom(i: nat)
    requires i <= |CSV_COLUMNS|
    ensures AllPlain(CSV_COLUMNS[i..])
    decreases |CSV_COLUMNS| - i
  {
    if i < |CSV_COLUMNS| {
      NoQuotesNeeded(CSV_COLUMNS[i]);
      AllPlainFrom(i + 1);
      assert CSV_COLUMNS[i..][1..] == CSV_COLUMNS[i + 1..];
    }
  }

  lemma {:induction false} CellTableIsFull(rows: seq<Row>)
    ensures NoEmptyRow(CellTable(rows))
  {
    if rows != [] { CellTableIsFull(rows[1..]); }
  }

  lemma {:induction false} HeadedRowsReadBack(names: seq<string>, cells: seq<seq<Option<string>>>)
    requires names != [] && AllPlain(names) && NoEmptyRow(cells)
    ensures ReadCsv((Joined(names) + ['\n']) + CsvLines(cells)) == Some([names] + TextTable(cells))
  {
    PlainNamesPrint(names);
    var all := [Present(names)] + cells;
    assert all[1..] == cells;
    PrintedRowsReadBack(all);
  }

  /** Reading an exported CSV file back gives the column names and the cell texts of the streamed rows. */
  lemma {:induction false} ExportedCsvReadsBack(rows: seq<Row>, history: History, batchSize: nat)
    ensures var streamed := Streamed(rows, history, batchSize);
      ReadCsv(CsvHeader() + CsvRows(streamed)) == Some([CSV_COLUMNS] + TextTable(CellTable(streamed)))
  {
    ColumnNamesArePlain();
    CellTableIsFull(Streamed(rows, history, batchSize));
    HeadedRowsReadBack(CSV_COLUMNS, CellTable(Streamed(rows, history, batchSize)));
  }
}
