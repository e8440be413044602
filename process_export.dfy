/** The process production exports: the details table handed to the PDF
    writer with its parallel row types, and the two spreadsheets with their
    header rows and merges. The summary PDF is `ExportRows.SummaryTable`
    with the deny-list cleaner. */
module ProcessExport {
  import opened Common
  import opened JsText
  import opened Names
  import opened ReportRows
  import opened ExportRows
  import opened StableSort
  import opened Concat

  datatype ViewType = SummaryView | DetailsView

  function ReportTitle(view: ViewType): string
  {
    if view == SummaryView then "Process Production Summary Report" else "Process Production Details Report"
  }

  const Indent: string := "  "

  datatype ProjectEntry = ProjectEntry(projectName: Raw, counts: Counts)
  /** A details item; absent `projects` is the empty list. */
  datatype DetailsEntry = DetailsEntry(processName: Raw, counts: Counts, projects: seq<ProjectEntry>)

  /** The entries of the parallel `rowTypes` array. */
  datatype RowType = ProcessType | ProjectType

  // ---------------------------------------------------------------------
  // Details

  predicate IsTotalProcess(e: DetailsEntry)
  {
    IsTotalName(CleanExportName(e.processName))
  }

  /** A process's own row. */
  function ProcessLine(e: DetailsEntry): seq<Cell>
  {
    Line(CleanExportName(e.processName), e.counts)
  }

  /** A project's row, its cleaned name behind `indent`. */
  function ProjectLine(p: ProjectEntry, indent: string): seq<Cell>
  {
    Line(indent + CleanExportName(p.projectName), p.counts)
  }

  function ProjectRowOf(indent: string): ProjectEntry -> seq<Cell>
  {
    p => ProjectLine(p, indent)
  }

  /** A process row and, right after it, all its projects' rows. */
  function Block(e: DetailsEntry, indent: string): (r: seq<seq<Cell>>)
    ensures |r| == 1 + |e.projects|
  {
    [ProcessLine(e)] + Apply(e.projects, ProjectRowOf(indent))
  }

  /** A block names its process first, then each of its projects in
      order, behind the indent. */
  lemma BlockLabels(e: DetailsEntry, indent: string)
    ensures var r := Block(e, indent);
            && Label(r[0]) == CleanExportName(e.processName)
            && forall i :: 1 <= i < |r| ==> Label(r[i]) == indent + CleanExportName(e.projects[i - 1].projectName)
  {
    var r := Block(e, indent);
    forall i | 1 <= i < |r| ensures Label(r[i]) == indent + CleanExportName(e.projects[i - 1].projectName) {
      assert r[i] == ProjectLine(e.projects[i - 1], indent);
    }
  }

  function BlockTypes(e: DetailsEntry): (r: seq<RowType>)
    ensures |r| == 1 + |e.projects|
    ensures r[0] == ProcessType && forall i :: 1 <= i < |r| ==> r[i] == ProjectType
  {
    [ProcessType] + seq(|e.projects|, i => ProjectType)
  }

  /** The entries a details table lists in place: the PDF holds the total
      back, the spreadsheet keeps every entry. */
  function Kept(skipTotals: bool): DetailsEntry -> bool
  {
    e => !(skipTotals && IsTotalProcess(e))
  }

  function BlockOf(indent: string): DetailsEntry -> seq<seq<Cell>>
  {
    e => Block(e, indent)
  }

  function TypesOf(): DetailsEntry -> seq<RowType>
  {
    e => BlockTypes(e)
  }

  function BlockList(es: seq<DetailsEntry>, indent: string): seq<seq<seq<Cell>>>
  {
    Apply(es, BlockOf(indent))
  }

  function TypeList(es: seq<DetailsEntry>): seq<seq<RowType>>
  {
    Apply(es, TypesOf())
  }

  /** The rows of the entries a table lists in place, block after block. */
  function Blocks(details: seq<DetailsEntry>, indent: string, skipTotals: bool): seq<seq<Cell>>
  {
    Flatten(BlockList(Select(details, Kept(skipTotals)), indent))
  }

  function BlocksTypes(details: seq<DetailsEntry>, skipTotals: bool): seq<RowType>
  {
    Flatten(TypeList(Select(details, Kept(skipTotals))))
  }

  function ProjectCount(es: seq<DetailsEntry>): nat
  {
    if es == [] then 0 else ProjectCount(es[..|es| - 1]) + |es[|es| - 1].projects|
  }

  /** The counts of the last total process, if any. */
  function DetailsTotal(details: seq<DetailsEntry>): Option<Counts>
  {
    var t := LastMatch(details, IsTotalProcess);
    if t.Some? then Some(t.value.counts) else None
  }

  /** The details PDF's rows: every non-total process followed by all its
      projects, indented by two spaces, then the total row. */
  function DetailsPdfRows(details: seq<DetailsEntry>): seq<seq<Cell>>
  {
    Blocks(details, Indent, true) + TotalTail(DetailsTotal(details))
  }

  function DetailsPdfTypes(details: seq<DetailsEntry>): seq<RowType>
  {
    BlocksTypes(details, true) + (if DetailsTotal(details).Some? then [ProcessType] else [])
  }

  /** One step of the details loop: a total replaces the held total row,
      any other process appends its block. */
  lemma DetailsStep(details: seq<DetailsEntry>, k: nat, indent: string, skipTotals: bool)
    requires k < |details|
    ensures DetailsTotal(details[..k + 1]) ==
            if IsTotalProcess(details[k]) then Some(details[k].counts) else DetailsTotal(details[..k])
    ensures Blocks(details[..k + 1], indent, skipTotals) ==
            Blocks(details[..k], indent, skipTotals) + (if Kept(skipTotals)(details[k]) then Block(details[k], indent) else [])
    ensures BlocksTypes(details[..k + 1], skipTotals) ==
            BlocksTypes(details[..k], skipTotals) + (if Kept(skipTotals)(details[k]) then BlockTypes(details[k]) else [])
  {
    var pre := details[..k + 1];
    assert pre[..k] == details[..k] && pre[k] == details[k];
    FlattenApplySelectStep(details, k, Kept(skipTotals), BlockOf(indent));
    FlattenApplySelectStep(details, k, Kept(skipTotals), TypesOf());
  }

  /** `allTableData` and `rowTypes` of the details PDF. */
  method DetailsPdf(details: seq<DetailsEntry>) returns (allTableData: seq<seq<Cell>>, rowTypes: seq<RowType>)
    ensures allTableData == DetailsPdfRows(details)
    ensures rowTypes == DetailsPdfTypes(details)
  {
    allTableData := [];
    rowTypes := [];
    var totalRowData: Option<seq<Cell>> := None;
    for k := 0 to |details|
      invariant allTableData == Blocks(details[..k], Indent, true)
      invariant rowTypes == BlocksTypes(details[..k], true)
      invariant totalRowData == TotalRow(DetailsTotal(details[..k]))
    {
      var processData := details[k];
      DetailsStep(details, k, Indent, true);
      var cleanProcessName := CleanExportName(processData.processName);
      if IsTotalName(cleanProcessName) {
        totalRowData := Some(Line(TotalLabel, processData.counts));
      } else {
        var rows, types := EmitBlock(processData, Indent);
        allTableData := allTableData + rows;
        rowTypes := rowTypes + types;
      }
    }
    assert details[..|details|] == details;
    if totalRowData.Some? {
      allTableData := allTableData + [totalRowData.value];
      rowTypes := rowTypes + [ProcessType];
    }
  }

  /** Pushes a process row and then one row per project. */
  method EmitBlock(processData: DetailsEntry, indent: string) returns (rows: seq<seq<Cell>>, types: seq<RowType>)
    ensures rows == Block(processData, indent)
    ensures types == BlockTypes(processData)
  {
    rows := [ProcessLine(processData)];
    types := [ProcessType];
    var projects := processData.projects;
    for j := 0 to |projects|
      invariant rows == [ProcessLine(processData)] + Apply(projects[..j], ProjectRowOf(indent))
      invariant types == BlockTypes(processData)[..j + 1]
    {
      var project := projects[j];
      assert projects[..j + 1] == projects[..j] + [project];
      ApplySnoc(projects[..j], project, ProjectRowOf(indent));
      rows := rows + [ProjectLine(project, indent)];
      assert BlockTypes(processData)[..j + 2] == types + [ProjectType];
      types := types + [ProjectType];
    }
    assert projects[..|projects|] == projects;
  }

  /** The details spreadsheet's data: every process, totals included and
      in place, followed by its projects without indentation. */
  method DetailsExcelData(details: seq<DetailsEntry>) returns (allExcelData: seq<seq<Cell>>)
    ensures allExcelData == Blocks(details, "", false)
  {
    allExcelData := [];
    for k := 0 to |details|
      invariant allExcelData == Blocks(details[..k], "", false)
    {
      DetailsStep(details, k, "", false);
      var rows, types := EmitBlock(details[k], "");
      allExcelData := allExcelData + rows;
    }
    assert details[..|details|] == details;
  }

  /** Each process a table lists is followed at once by all its projects:
      its rows sit together, after the rows of the listed processes before
      it. */
  lemma BlockInPlace(details: seq<DetailsEntry>, k: nat, indent: string, skipTotals: bool)
    requires k < |details| && Kept(skipTotals)(details[k])
    ensures SitsAt(Blocks(details, indent, skipTotals), |Blocks(details[..k], indent, skipTotals)|, Block(details[k], indent))
  {
    FlattenApplySelectAt(details, k, Kept(skipTotals), BlockOf(indent), Block(details[k], indent));
  }

  lemma {:induction false} ChainLength(es: seq<DetailsEntry>, indent: string)
    ensures TotalLength(BlockList(es, indent)) == TotalLength(TypeList(es)) == |es| + ProjectCount(es)
  {
    if es != [] {
      var n := |es| - 1;
      ChainLength(es[..n], indent);
      ApplyPrefix(es, n, BlockOf(indent));
      ApplyPrefix(es, n, TypesOf());
    }
  }

  /** The spreadsheet holds one row per process plus one per project. */
  lemma BlocksLength(details: seq<DetailsEntry>, indent: string)
    ensures |Blocks(details, indent, false)| == |details| + ProjectCount(details)
    ensures |BlocksTypes(details, false)| == |details| + ProjectCount(details)
  {
    assert forall i :: 0 <= i < |details| ==> Kept(false)(details[i]);
    SelectAll(details, Kept(false));
    ChainLength(details, indent);
    FlattenLength(BlockList(details, indent));
    FlattenLength(TypeList(details));
  }

  /** A row starts with the two-space indent. */
  predicate Indented(row: seq<Cell>)
  {
    |Label(row)| >= 2 && Label(row)[..2] == Indent
  }

  /** A cleaned name never starts with the indent. */
  lemma NameNotIndented(name: string, c: Counts)
    requires Normalized(name)
    ensures !Indented(Line(name, c))
  {
    assert Label(Line(name, c)) == name;
  }

  lemma TotalNotIndented(c: Counts)
    ensures !Indented(Line(TotalLabel, c))
  {
    assert Label(Line(TotalLabel, c))[0] == 'T';
  }

  lemma IndentedName(name: string, c: Counts)
    ensures Indented(Line(Indent + name, c))
  {
    assert (Indent + name)[..2] == Indent;
  }

  /** The type marks a block row as a project row exactly when the row
      carries the indent. */
  predicate TypeMatchesIndent(row: seq<Cell>, t: RowType)
  {
    t == ProjectType <==> Indented(row)
  }

  lemma BlockTypesAgree(e: DetailsEntry)
    ensures forall j :: 0 <= j < |Block(e, Indent)| ==> TypeMatchesIndent(Block(e, Indent)[j], BlockTypes(e)[j])
  {
    forall j | 0 <= j < |Block(e, Indent)|
      ensures TypeMatchesIndent(Block(e, Indent)[j], BlockTypes(e)[j])
    {
      if j == 0 {
        NameNotIndented(CleanExportName(e.processName), e.counts);
      } else {
        IndentedName(CleanExportName(e.projects[j - 1].projectName), e.projects[j - 1].counts);
      }
    }
  }

  lemma BlocksTypesAgree(details: seq<DetailsEntry>, skipTotals: bool)
    ensures |Blocks(details, Indent, skipTotals)| == |BlocksTypes(details, skipTotals)|
    ensures forall i :: 0 <= i < |BlocksTypes(details, skipTotals)| ==>
              TypeMatchesIndent(Blocks(details, Indent, skipTotals)[i], BlocksTypes(details, skipTotals)[i])
  {
    var es := Select(details, Kept(skipTotals));
    var bl, tl := BlockList(es, Indent), TypeList(es);
    forall k, j | 0 <= k < |bl| && 0 <= j < |bl[k]|
      ensures TypeMatchesIndent(bl[k][j], tl[k][j])
    {
      BlockTypesAgree(es[k]);
    }
    FlattenZip(bl, tl, TypeMatchesIndent);
  }

  /** `rowTypes` runs parallel to the rows, and marks exactly the rows that
      start with the project indent as project rows. */
  lemma DetailsPdfTypesAgree(details: seq<DetailsEntry>)
    ensures |DetailsPdfTypes(details)| == |DetailsPdfRows(details)|
    ensures forall i :: 0 <= i < |DetailsPdfRows(details)| ==>
              (DetailsPdfTypes(details)[i] == ProjectType <==> Indented(DetailsPdfRows(details)[i]))
  {
    BlocksTypesAgree(details, true);
    var total := DetailsTotal(details);
    var b, tb := TotalTail(total), if total.Some? then [ProcessType] else [];
    if total.Some? {
      TotalNotIndented(total.value);
    }
    ZipAppend(Blocks(details, Indent, true), BlocksTypes(details, true), b, tb, TypeMatchesIndent);
  }

  /** A process row kept in the details PDF is never highlighted: its
      cleaned name is trimmed and does not contain `total`. */
  lemma ProcessRowNotHighlighted(e: DetailsEntry)
    requires !IsTotalProcess(e)
    ensures !Highlighted(ProcessLine(e))
  {
    var name := CleanExportName(e.processName);
    NormalizedTrimmed(name);
    CleanNameNotHighlighted(name, e.counts);
  }

  /** Only project rows can be highlighted among the rows a table lists. */
  predicate HighlightOnlyProject(row: seq<Cell>, t: RowType)
  {
    Highlighted(row) ==> t == ProjectType
  }

  lemma BlocksHighlight(details: seq<DetailsEntry>)
    ensures |Blocks(details, Indent, true)| == |BlocksTypes(details, true)|
    ensures forall i :: 0 <= i < |Blocks(details, Indent, true)| ==>
              HighlightOnlyProject(Blocks(details, Indent, true)[i], BlocksTypes(details, true)[i])
  {
    var es := Select(details, Kept(true));
    var bl, tl := BlockList(es, Indent), TypeList(es);
    forall k, j | 0 <= k < |bl| && 0 <= j < |bl[k]|
      ensures HighlightOnlyProject(bl[k][j], tl[k][j])
    {
      assert Kept(true)(es[k]);
      if j == 0 {
        ProcessRowNotHighlighted(es[k]);
      }
    }
    FlattenZip(bl, tl, HighlightOnlyProject);
  }

  /** In the details PDF only the appended total row and project rows can
      be highlighted, and the total row always is. */
  lemma DetailsPdfHighlight(details: seq<DetailsEntry>)
    ensures |DetailsPdfTypes(details)| == |DetailsPdfRows(details)|
    ensures forall i :: 0 <= i < |DetailsPdfRows(details)| && Highlighted(DetailsPdfRows(details)[i]) ==>
              DetailsPdfTypes(details)[i] == ProjectType || (DetailsTotal(details).Some? && i == |DetailsPdfRows(details)| - 1)
    ensures DetailsTotal(details).Some? ==> Highlighted(DetailsPdfRows(details)[|DetailsPdfRows(details)| - 1])
  {
    BlocksHighlight(details);
    var total := DetailsTotal(details);
    var a, ta := Blocks(details, Indent, true), BlocksTypes(details, true);
    var b, tb := TotalTail(total), if total.Some? then [ProcessType] else [];
    forall i | 0 <= i < |a|
      ensures (a + b)[i] == a[i] && (ta + tb)[i] == ta[i]
    {
    }
    if total.Some? {
      TotalLabelIsTotal();
      assert (a + b)[|a|] == Line(TotalLabel, total.value);
    }
  }

  // ---------------------------------------------------------------------
  // Spreadsheets

  const Header1: seq<Cell> := [Str("Process"), Str("Paper"), Blank, Str("Booklet"), Blank]
  const Header2: seq<Cell> := [Blank, Str("Catch"), Str("Quantity"), Str("Catch"), Str("Quantity")]

  /** Title, the date range when there is one, an empty row, the two header
      rows and the data. */
  function SheetRows(title: string, dateRange: string, data: seq<seq<Cell>>): seq<seq<Cell>>
  {
    [[Str(title)]] + (if dateRange != "" then [[Str("Date Range: " + dateRange)]] else []) + [[]]
    + [Header1, Header2] + data
  }

  /** The 0-based index of the first header row. */
  function HeaderRow(dateRange: string): nat
  {
    if dateRange != "" then 3 else 2
  }

  /** `Process` spans both header rows; `Paper` and `Booklet` each span two
      columns of the first. */
  function HeaderMerges(h: int): (r: seq<Merge>)
    ensures |r| == 3
    ensures forall m :: m in r ==> h == m.startRow <= m.endRow <= h + 1 && 0 <= m.startCol <= m.endCol < 5
  {
    [Merge(h, 0, h + 1, 0), Merge(h, 1, h, 2), Merge(h, 3, h, 4)]
  }

  /** Writes the rows at the 1-based `currentRow` and merges relative to
      the row the data starts on. */
  method WriteSheet(title: string, dateRange: string, data: seq<seq<Cell>>) returns (sheet: seq<seq<Cell>>, merges: seq<Merge>)
    ensures sheet == SheetRows(title, dateRange, data)
    ensures merges == HeaderMerges(HeaderRow(dateRange))
  {
    var currentRow := 1;
    sheet := [[Str(title)]];
    currentRow := currentRow + 1;
    if dateRange != "" {
      sheet := sheet + [[Str("Date Range: " + dateRange)]];
      currentRow := currentRow + 1;
    }
    sheet := sheet + [[]];
    currentRow := currentRow + 1;
    sheet := sheet + [Header1];
    currentRow := currentRow + 1;
    sheet := sheet + [Header2];
    currentRow := currentRow + 1;
    sheet := sheet + data;
    merges := [Merge(currentRow - 3, 0, currentRow - 2, 0), Merge(currentRow - 3, 1, currentRow - 3, 2),
               Merge(currentRow - 3, 3, currentRow - 3, 4)];
  }

  /** The merges fall on the header rows: the merged-into cells are the
      blanks beside and below the labels, and the data follows. */
  lemma SheetHeaders(title: string, dateRange: string, data: seq<seq<Cell>>)
    ensures var sheet := SheetRows(title, dateRange, data);
            var h := HeaderRow(dateRange);
            && h + 2 + |data| == |sheet|
            && sheet[h] == Header1 && sheet[h + 1] == Header2 && sheet[h + 2..] == data
            && sheet[h][0] == Str("Process") && sheet[h + 1][0] == Blank
            && sheet[h][1] == Str("Paper") && sheet[h][2] == Blank
            && sheet[h][3] == Str("Booklet") && sheet[h][4] == Blank
  {
  }

  /** Each merge starts on a header label and swallows only blank cells
      of the two header rows. */
  lemma MergesCoverHeaders(title: string, dateRange: string, data: seq<seq<Cell>>)
    ensures var sheet := SheetRows(title, dateRange, data);
            forall m :: m in HeaderMerges(HeaderRow(dateRange)) ==>
              && m.endRow < |sheet| && |sheet[m.startRow]| == 5 && |sheet[m.endRow]| == 5
              && sheet[m.startRow][m.startCol] != Blank
              && (forall r, c :: m.startRow <= r <= m.endRow && m.startCol <= c <= m.endCol && (r, c) != (m.startRow, m.startCol)
                    ==> sheet[r][c] == Blank)
  {
    SheetHeaders(title, dateRange, data);
  }

  method SummaryExcel(view: ViewType, dateRange: string, data: seq<SummaryEntry>) returns (sheet: seq<seq<Cell>>, merges: seq<Merge>)
    ensures sheet == SheetRows(ReportTitle(view), dateRange, SummaryLines(ExportCleaner, data))
    ensures merges == HeaderMerges(HeaderRow(dateRange))
  {
    var excelData := SummaryLines(ExportCleaner, data);
    sheet, merges := WriteSheet(ReportTitle(view), dateRange, excelData);
  }

  method DetailsExcel(view: ViewType, dateRange: string, details: seq<DetailsEntry>) returns (sheet: seq<seq<Cell>>, merges: seq<Merge>)
    ensures sheet == SheetRows(ReportTitle(view), dateRange, Blocks(details, "", false))
    ensures merges == HeaderMerges(HeaderRow(dateRange))
  {
    var allExcelData := DetailsExcelData(details);
    sheet, merges := WriteSheet(ReportTitle(view), dateRange, allExcelData);
  }
}
