/** The pending report's PDF and spreadsheet exports: three header rows per
    process pair of columns, the catch matrix below them, and, in the
    spreadsheet, the title block, the column widths and the merges that
    join each process's two header cells. */
module PendingExport {
  import opened Common
  import opened JsText
  import opened Names
  import opened TimeAgo
  import opened StableSort
  import opened Catches
  import opened CatchMatrix

  /** A process of the pending report, with the name the screen's lookup
      gave it. */
  datatype PendingItem = PendingItem(name: Raw, lastLoggedAt: Stamp, totalCatchCount: Option<int>,
                                     totalQuantity: Option<int>, catchDetails: seq<CatchDetail>)

  /** The filters shown above the table; an empty text is not shown. */
  datatype ReportInfo = ReportInfo(dateRange: string, groupName: string, projectName: string, lotNo: string)

  const Title: string := "Pending Process Report"
  const LastActivity: string := "\nLast Activity: "

  /** A PDF header cell and the number of columns it spans. */
  datatype HeadCell = HeadCell(content: string, colSpan: nat)

  // ---------------------------------------------------------------------
  // Header texts

  /** Header row 1: the cleaned name, and on a second line how long ago the
      process last logged activity, when it has a timestamp. */
  function ProcessHeading(now: int, item: PendingItem): string
  {
    CleanExportName(item.name) + (if item.lastLoggedAt.Missing? then "" else LastActivity + GetTimeAgo(now, item.lastLoggedAt))
  }

  /** Header row 2: `${totalCatchCount || 0}/${totalQuantity || 0}`. */
  function CountsHeading(item: PendingItem): string
  {
    IntToString(OrZero(item.totalCatchCount)) + "/" + IntToString(OrZero(item.totalQuantity))
  }

  /** The first line of a process heading is exactly the cleaned name: the
      name holds no line break, and the activity line starts with one. */
  lemma ProcessHeadingFirstLine(now: int, item: PendingItem)
    ensures var h := ProcessHeading(now, item);
            var name := CleanExportName(item.name);
            && |name| <= |h| && h[..|name|] == name
            && (forall i :: 0 <= i < |name| ==> h[i] != '\n')
            && (item.lastLoggedAt.Missing? <==> h == name)
            && (!item.lastLoggedAt.Missing? ==> h[|name|] == '\n')
  {
    var name := CleanExportName(item.name);
    assert forall i :: 0 <= i < |name| ==> name[i] != '\n' by {
      assert forall i :: 0 <= i < |name| ==> IsJsSpace(name[i]) ==> name[i] == ' ';
      assert IsJsSpace('\n');
    }
    var tail := if item.lastLoggedAt.Missing? then "" else LastActivity + GetTimeAgo(now, item.lastLoggedAt);
    assert item.lastLoggedAt.Missing? <==> tail == "" by {
      if !item.lastLoggedAt.Missing? {
        assert |tail| >= |LastActivity|;
      }
    }
    assert tail != "" ==> tail[0] == '\n';
    FirstLine(name, tail);
  }

  /** A one-line text followed by a text that is empty or starts a new
      line. */
  lemma FirstLine(name: string, tail: string)
    requires forall i :: 0 <= i < |name| ==> name[i] != '\n'
    ensures var h := name + tail;
            && |name| <= |h| && h[..|name|] == name
            && (forall i :: 0 <= i < |name| ==> h[i] != '\n')
            && (tail == "" <==> h == name)
            && (tail != "" ==> h[|name|] == tail[0])
  {
    if tail != "" {
      assert |name + tail| > |name|;
    }
  }

  lemma IntToStringHasNoSlash(n: int)
    ensures forall i :: 0 <= i < |IntToString(n)| ==> IntToString(n)[i] != '/'
  {
    if n < 0 {
      var d := NatToString(-n);
      assert IntToString(n) == "-" + d;
      assert forall i :: 1 <= i < |IntToString(n)| ==> IntToString(n)[i] == d[i - 1];
    }
  }

  /** The counts heading splits back at its only slash into the two counts,
      a missing count printing as 0. */
  lemma CountsHeadingSplits(item: PendingItem)
    ensures var h := CountsHeading(item);
            var c := IntToString(OrZero(item.totalCatchCount));
            && h[|c|] == '/' && h[..|c|] == c
            && h[|c| + 1..] == IntToString(OrZero(item.totalQuantity))
            && forall i :: 0 <= i < |h| && i != |c| ==> h[i] != '/'
  {
    var c := IntToString(OrZero(item.totalCatchCount));
    var q := IntToString(OrZero(item.totalQuantity));
    var h := CountsHeading(item);
    IntToStringHasNoSlash(OrZero(item.totalCatchCount));
    IntToStringHasNoSlash(OrZero(item.totalQuantity));
    assert forall i :: |c| < i < |h| ==> h[i] == q[i - |c| - 1];
  }

  // ---------------------------------------------------------------------
  // Header rows

  function PdfHeadRow1(now: int, data: seq<PendingItem>): (r: seq<HeadCell>)
    ensures |r| == |data|
    ensures forall k :: 0 <= k < |data| ==> r[k] == HeadCell(ProcessHeading(now, data[k]), 2)
  {
    seq(|data|, k requires 0 <= k < |data| => HeadCell(ProcessHeading(now, data[k]), 2))
  }

  function PdfHeadRow2(data: seq<PendingItem>): (r: seq<HeadCell>)
    ensures |r| == |data|
    ensures forall k :: 0 <= k < |data| ==> r[k] == HeadCell(CountsHeading(data[k]), 2)
  {
    seq(|data|, k requires 0 <= k < |data| => HeadCell(CountsHeading(data[k]), 2))
  }

  function PdfHeadRow3(n: nat): (r: seq<HeadCell>)
    ensures |r| == 2 * n
    ensures forall c :: 0 <= c < 2 * n ==> r[c] == HeadCell(if c % 2 == 0 then "Catch" else "Quantity", 1)
  {
    seq(2 * n, c requires 0 <= c < 2 * n => HeadCell(if c % 2 == 0 then "Catch" else "Quantity", 1))
  }

  /** The columns a PDF header row spans. */
  function Span(row: seq<HeadCell>): nat
  {
    if row == [] then 0 else row[0].colSpan + Span(row[1..])
  }

  lemma {:induction false} SpanOfUniform(row: seq<HeadCell>, w: nat)
    requires forall k :: 0 <= k < |row| ==> row[k].colSpan == w
    ensures Span(row) == w * |row|
  {
    if row != [] {
      SpanOfUniform(row[1..], w);
    }
  }

  /** A spreadsheet header row: the process texts, each followed by the
      empty cell its merge covers. */
  function SheetHeadRow(texts: seq<string>): (r: seq<Cell>)
    ensures |r| == 2 * |texts|
    ensures forall k :: 0 <= k < |texts| ==> r[2 * k] == Str(texts[k]) && r[2 * k + 1] == Blank
  {
    var r := seq(2 * |texts|, c requires 0 <= c < 2 * |texts| => if c % 2 == 0 then Str(texts[c / 2]) else Blank);
    assert forall k :: 0 <= k < |texts| ==> (2 * k) / 2 == k && (2 * k) % 2 == 0 && (2 * k + 1) % 2 == 1;
    r
  }

  function Headings(now: int, data: seq<PendingItem>): (r: seq<string>)
    ensures |r| == |data| && forall k :: 0 <= k < |data| ==> r[k] == ProcessHeading(now, data[k])
  {
    seq(|data|, k requires 0 <= k < |data| => ProcessHeading(now, data[k]))
  }

  function CountHeadings(data: seq<PendingItem>): (r: seq<string>)
    ensures |r| == |data| && forall k :: 0 <= k < |data| ==> r[k] == CountsHeading(data[k])
  {
    seq(|data|, k requires 0 <= k < |data| => CountsHeading(data[k]))
  }

  function SheetHeadRow3(n: nat): (r: seq<Cell>)
    ensures |r| == 2 * n
    ensures forall c :: 0 <= c < 2 * n ==> r[c] == Str(if c % 2 == 0 then "Catch" else "Quantity")
  {
    seq(2 * n, c requires 0 <= c < 2 * n => Str(if c % 2 == 0 then "Catch" else "Quantity"))
  }

  // ---------------------------------------------------------------------
  // Body

  /** Each process's grouped catches, highest quantity first. */
  function ExportLists(data: seq<PendingItem>): (r: seq<seq<CatchDetail>>)
    ensures |r| == |data|
    ensures forall k :: 0 <= k < |data| ==> r[k] == ExportList(data[k].catchDetails)
  {
    seq(|data|, k requires 0 <= k < |data| => ExportList(data[k].catchDetails))
  }

  /** `data.map(item => groupCatchDetails(item.catchDetails).sort(byQuantityDesc))` */
  method SortedData(data: seq<PendingItem>) returns (lists: seq<seq<CatchDetail>>)
    ensures lists == ExportLists(data)
  {
    lists := [];
    for k := 0 to |data|
      invariant lists == ExportLists(data[..k])
    {
      var grouped := GroupCatchDetails(data[k].catchDetails);
      lists := lists + [SortBy(grouped, CatchOrder(ByQuantity, Desc))];
      assert data[..k + 1] == data[..k] + [data[k]];
    }
    assert data[..|data|] == data;
  }

  /** The PDF table: three header rows and the catch matrix. */
  method PdfTable(now: int, data: seq<PendingItem>) returns (head: seq<seq<HeadCell>>, body: seq<seq<Cell>>)
    ensures head == [PdfHeadRow1(now, data), PdfHeadRow2(data), PdfHeadRow3(|data|)]
    ensures body == Layout(ExportLists(data), ExportTable)
  {
    head := [PdfHeadRow1(now, data), PdfHeadRow2(data), PdfHeadRow3(|data|)];
    var lists := SortedData(data);
    body := BodyRows(lists);
  }

  /** Every PDF header row spans two columns per process, the width of
      every body row. */
  lemma PdfColumnsAgree(now: int, data: seq<PendingItem>)
    ensures Span(PdfHeadRow1(now, data)) == 2 * |data|
    ensures Span(PdfHeadRow2(data)) == 2 * |data|
    ensures Span(PdfHeadRow3(|data|)) == 2 * |data|
    ensures var body := Layout(ExportLists(data), ExportTable);
            forall r :: 0 <= r < |body| ==> |body[r]| == 2 * |data|
  {
    SpanOfUniform(PdfHeadRow1(now, data), 2);
    SpanOfUniform(PdfHeadRow2(data), 2);
    SpanOfUniform(PdfHeadRow3(|data|), 1);
  }

  /** The PDF lines under the title: one per filter that is set, date,
      group, project and lot in that order, the same filters the
      spreadsheet lists under its title. */
  function PdfInfoLines(info: ReportInfo): (r: seq<string>)
    ensures |r| <= 4 && |r| == |SheetInfoRows(info)| - 1
    ensures info.dateRange != "" ==> r[0] == "Date: " + info.dateRange
    ensures info.lotNo != "" ==> r[|r| - 1] == "Lot: " + info.lotNo
    ensures info.dateRange == "" ==> forall i :: 0 <= i < |r| ==> SheetInfoRows(info)[i + 1] == [Str(r[i])]
  {
    (if info.dateRange != "" then ["Date: " + info.dateRange] else [])
    + (if info.groupName != "" then ["Group: " + info.groupName] else [])
    + (if info.projectName != "" then ["Project: " + info.projectName] else [])
    + (if info.lotNo != "" then ["Lot: " + info.lotNo] else [])
  }

  /** A line of PDF text and the height it is written at. */
  datatype TextLine = TextLine(text: string, y: int)

  /** Writes the info lines from height 30 down, 8 apart, and returns the
      height the table starts at. */
  method WritePdfInfo(info: ReportInfo) returns (lines: seq<TextLine>, startY: int)
    ensures |lines| == |PdfInfoLines(info)|
    ensures forall i :: 0 <= i < |lines| ==> lines[i] == TextLine(PdfInfoLines(info)[i], 30 + 8 * i)
    ensures startY == 30 + 8 * |lines|
  {
    var infoY := 30;
    lines := [];
    ghost var want: seq<string> := [];
    lines, infoY := WriteIf(lines, infoY, info.dateRange != "", "Date: " + info.dateRange, want);
    want := want + (if info.dateRange != "" then ["Date: " + info.dateRange] else []);
    lines, infoY := WriteIf(lines, infoY, info.groupName != "", "Group: " + info.groupName, want);
    want := want + (if info.groupName != "" then ["Group: " + info.groupName] else []);
    lines, infoY := WriteIf(lines, infoY, info.projectName != "", "Project: " + info.projectName, want);
    want := want + (if info.projectName != "" then ["Project: " + info.projectName] else []);
    lines, infoY := WriteIf(lines, infoY, info.lotNo != "", "Lot: " + info.lotNo, want);
    want := want + (if info.lotNo != "" then ["Lot: " + info.lotNo] else []);
    assert want == PdfInfoLines(info);
    startY := infoY;
  }

  /** `lines` holds the texts of `want` from height 30 down, 8 apart. */
  predicate WrittenAt(lines: seq<TextLine>, want: seq<string>)
  {
    |lines| == |want| && forall i :: 0 <= i < |lines| ==> lines[i] == TextLine(want[i], 30 + 8 * i)
  }

  /** One `if (filter) { doc.text(...); infoY += 8; }` step. */
  method WriteIf(lines: seq<TextLine>, y: int, on: bool, text: string, ghost want: seq<string>)
    returns (lines': seq<TextLine>, y': int)
    requires WrittenAt(lines, want) && y == 30 + 8 * |lines|
    ensures WrittenAt(lines', want + (if on then [text] else []))
    ensures y' == 30 + 8 * |lines'|
  {
    if on {
      lines' := lines + [TextLine(text, y)];
      y' := y + 8;
    } else {
      lines', y' := lines, y;
    }
  }

  // ---------------------------------------------------------------------
  // Spreadsheet

  /** The title block of the sheet. */
  function SheetInfoRows(info: ReportInfo): (r: seq<seq<Cell>>)
    ensures 1 <= |r| <= 5
  {
    [[Str(Title)]]
    + (if info.dateRange != "" then [[Str("Date Range: " + info.dateRange)]] else [])
    + (if info.groupName != "" then [[Str("Group: " + info.groupName)]] else [])
    + (if info.projectName != "" then [[Str("Project: " + info.projectName)]] else [])
    + (if info.lotNo != "" then [[Str("Lot: " + info.lotNo)]] else [])
  }

  /** The rows above the body: title block, an empty row (`[]`) and the
      three header rows. */
  function SheetTop(now: int, info: ReportInfo, data: seq<PendingItem>): (r: seq<seq<Cell>>)
    ensures |r| == HeadRowIndex(info) + 3
    ensures r[HeadRowIndex(info)] == SheetHeadRow(Headings(now, data))
    ensures r[HeadRowIndex(info) + 1] == SheetHeadRow(CountHeadings(data))
    ensures r[HeadRowIndex(info) + 2] == SheetHeadRow3(|data|)
  {
    SheetInfoRows(info) + [[]]
    + [SheetHeadRow(Headings(now, data)), SheetHeadRow(CountHeadings(data)), SheetHeadRow3(|data|)]
  }

  /** The sheet row by row. */
  function SheetRows(now: int, info: ReportInfo, data: seq<PendingItem>): seq<seq<Cell>>
  {
    SheetTop(now, info, data) + Layout(ExportLists(data), ExportTable)
  }

  /** The 0-based index of header row 1. */
  function HeadRowIndex(info: ReportInfo): nat
  {
    |SheetInfoRows(info)| + 1
  }

  /** Writes the rows above the body, counting the next row, 1-based, in
      `currentRow`. */
  method WriteTop(now: int, info: ReportInfo, data: seq<PendingItem>) returns (top: seq<seq<Cell>>, currentRow: int)
    ensures top == SheetTop(now, info, data)
    ensures currentRow == |top| + 1 == HeadRowIndex(info) + 4
  {
    currentRow := 1;
    top := [[Str(Title)]];
    currentRow := currentRow + 1;
    ghost var want := [[Str(Title)]];
    if info.dateRange != "" {
      top := top + [[Str("Date Range: " + info.dateRange)]];
      currentRow := currentRow + 1;
    }
    want := want + (if info.dateRange != "" then [[Str("Date Range: " + info.dateRange)]] else []);
    assert top == want && currentRow == |top| + 1;
    if info.groupName != "" {
      top := top + [[Str("Group: " + info.groupName)]];
      currentRow := currentRow + 1;
    }
    want := want + (if info.groupName != "" then [[Str("Group: " + info.groupName)]] else []);
    assert top == want && currentRow == |top| + 1;
    if info.projectName != "" {
      top := top + [[Str("Project: " + info.projectName)]];
      currentRow := currentRow + 1;
    }
    want := want + (if info.projectName != "" then [[Str("Project: " + info.projectName)]] else []);
    assert top == want && currentRow == |top| + 1;
    if info.lotNo != "" {
      top := top + [[Str("Lot: " + info.lotNo)]];
      currentRow := currentRow + 1;
    }
    want := want + (if info.lotNo != "" then [[Str("Lot: " + info.lotNo)]] else []);
    assert top == want && currentRow == |top| + 1;
    assert want == SheetInfoRows(info);
    top := top + [[]];
    currentRow := currentRow + 1;
    top := top + [SheetHeadRow(Headings(now, data))];
    currentRow := currentRow + 1;
    top := top + [SheetHeadRow(CountHeadings(data))];
    currentRow := currentRow + 1;
    top := top + [SheetHeadRow3(|data|)];
    currentRow := currentRow + 1;
    assert |top| == |want| + 4;
  }

  /** The spreadsheet export: rows written at `currentRow`, then the
      widths and the merges computed from where the writing stopped. */
  method Sheet(now: int, info: ReportInfo, data: seq<PendingItem>)
    returns (sheet: seq<seq<Cell>>, widths: seq<nat>, merges: seq<Merge>)
    ensures sheet == SheetRows(now, info, data)
    ensures |widths| == 2 * |data| && forall c :: 0 <= c < |widths| ==> widths[c] == 15
    ensures merges == HeaderMergesAt(HeadRowIndex(info), |data|)
  {
    var top, currentRow := WriteTop(now, info, data);
    var body, maxRows := WriteBody(data);
    sheet := top + body;
    currentRow := currentRow + maxRows;
    widths := ColumnWidths(|data|);
    merges := HeaderMerges(|data|, currentRow, maxRows);
  }

  /** The catch matrix of the sheet and its number of rows. */
  method WriteBody(data: seq<PendingItem>) returns (body: seq<seq<Cell>>, maxRows: nat)
    ensures body == Layout(ExportLists(data), ExportTable)
    ensures maxRows == |body|
  {
    var lists := SortedData(data);
    maxRows := MaxLen(lists);
    body := BodyRows(lists);
  }

  /** Two columns of width 15 per process. */
  method ColumnWidths(n: nat) returns (widths: seq<nat>)
    ensures |widths| == 2 * n && forall c :: 0 <= c < |widths| ==> widths[c] == 15
  {
    widths := [];
    for k := 0 to n
      invariant |widths| == 2 * k && forall c :: 0 <= c < |widths| ==> widths[c] == 15
    {
      widths := widths + [15, 15];
    }
  }

  /** The merges of the two header rows starting at row `h`: for each
      process, its two cells on row `h` and its two cells on row `h + 1`. */
  function HeaderMergesAt(h: int, n: nat): (r: seq<Merge>)
    ensures |r| == 2 * n
    ensures forall k :: 0 <= k < n ==>
              r[2 * k] == Merge(h, 2 * k, h, 2 * k + 1) && r[2 * k + 1] == Merge(h + 1, 2 * k, h + 1, 2 * k + 1)
  {
    if n == 0 then []
    else HeaderMergesAt(h, n - 1) + [Merge(h, 2 * (n - 1), h, 2 * (n - 1) + 1), Merge(h + 1, 2 * (n - 1), h + 1, 2 * (n - 1) + 1)]
  }

  /** For each process, merge its two cells on the rows `currentRow -
      maxRows - 4` and `- 3`, advancing the column by two. */
  method HeaderMerges(n: nat, currentRow: int, maxRows: int) returns (merges: seq<Merge>)
    ensures merges == HeaderMergesAt(currentRow - maxRows - 4, n)
  {
    merges := [];
    var colIndex := 0;
    for k := 0 to n
      invariant colIndex == 2 * k
      invariant merges == HeaderMergesAt(currentRow - maxRows - 4, k)
    {
      merges := merges + [Merge(currentRow - maxRows - 4, colIndex, currentRow - maxRows - 4, colIndex + 1),
                          Merge(currentRow - maxRows - 3, colIndex, currentRow - maxRows - 3, colIndex + 1)];
      colIndex := colIndex + 2;
    }
  }

  /** The merges land on the two merged header rows: each joins a process's
      heading (or counts) cell with the empty cell beside it; the row below
      names the two columns. */
  lemma MergesCoverHeadings(now: int, info: ReportInfo, data: seq<PendingItem>, k: nat)
    requires k < |data|
    ensures var top := SheetTop(now, info, data);
            var h := HeadRowIndex(info);
            && top[h][2 * k] == Str(ProcessHeading(now, data[k])) && top[h][2 * k + 1] == Blank
            && top[h + 1][2 * k] == Str(CountsHeading(data[k])) && top[h + 1][2 * k + 1] == Blank
            && top[h + 2][2 * k] == Str("Catch") && top[h + 2][2 * k + 1] == Str("Quantity")
  {
    var top, h := SheetTop(now, info, data), HeadRowIndex(info);
    assert top[h][2 * k] == Str(ProcessHeading(now, data[k])) && top[h][2 * k + 1] == Blank by {
      var hs := Headings(now, data);
      assert top[h] == SheetHeadRow(hs) && hs[k] == ProcessHeading(now, data[k]);
    }
    assert top[h + 1][2 * k] == Str(CountsHeading(data[k])) && top[h + 1][2 * k + 1] == Blank by {
      var cs := CountHeadings(data);
      assert top[h + 1] == SheetHeadRow(cs) && cs[k] == CountsHeading(data[k]);
    }
    assert top[h + 2][2 * k] == Str("Catch") && top[h + 2][2 * k + 1] == Str("Quantity") by {
      Parity(k);
      assert top[h + 2] == SheetHeadRow3(|data|);
    }
  }

  lemma Parity(k: nat)
    ensures (2 * k) % 2 == 0 && (2 * k + 1) % 2 == 1
  {
  }
}
