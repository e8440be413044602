/** The group production exports: the summary tables (shared with the
    process exports through `ExportRows`, here with the allow-list cleaner),
    and the group details, where each process is followed by the groups,
    projects and catch lists the screen has loaded and expanded, flattened
    into one PDF table or into one spreadsheet per process. */
module GroupExport {
  import opened Common
  import opened JsText
  import opened Names
  import opened ReportRows
  import opened ExportRows
  import opened StableSort
  import opened Concat

  datatype ViewType = SummaryView | DetailsView

  function ReportTitle(view: ViewType): string
  {
    if view == SummaryView then "Group Production Summary Report" else "Group Production Details Report"
  }

  /** `formatCellValue`: a count shows as itself unless it is falsy. */
  function FormatCellValue(value: Option<int>): (c: Cell)
    ensures c == Blank <==> OrZero(value) == 0
    ensures c != Blank ==> value.Some? && c == Num(value.value)
  {
    if value.Some? && value.value != 0 then Num(value.value) else Blank
  }

  /** The exports' `formatCellValue` and the screen's `x || ''` agree, so
      the rows built with `Line` show counts as this file does. */
  lemma FormatCellValueIsShowVal(value: Option<int>)
    ensures FormatCellValue(value) == ShowVal(value)
  {
    if FormatCellValue(value) == Blank {
      assert ShowVal(value) == Blank;
    } else {
      assert ShowVal(value) != Blank;
    }
  }

  // ---------------------------------------------------------------------
  // Summary

  /** The summary PDF's body: `ExportRows.SummaryTable` with this file's
      cleaner. */
  method SummaryPdf(data: seq<SummaryEntry>) returns (tableData: seq<seq<Cell>>)
    ensures tableData == SummaryBody(GroupCleaner, data) + TotalTail(SummaryTotal(GroupCleaner, data))
  {
    tableData := SummaryTable(GroupCleaner, data);
  }

  const SummaryHeader: seq<Cell> :=
    [Str("Process"), Str("Paper Catch"), Str("Paper Quantity"), Str("Booklet Catch"), Str("Booklet Quantity")]

  /** Title, the date range when there is one, an empty row and the column
      headings. */
  function SummaryHead(title: string, dateRange: string): seq<seq<Cell>>
  {
    [[Str(title)]] + (if dateRange != "" then [[Str("Date Range: " + dateRange)]] else []) + [[], SummaryHeader]
  }

  /** The summary spreadsheet: the process rows, then the total row. */
  method SummaryExcel(view: ViewType, dateRange: string, data: seq<SummaryEntry>) returns (worksheetData: seq<seq<Cell>>)
    ensures worksheetData == SummaryHead(ReportTitle(view), dateRange)
                             + (SummaryBody(GroupCleaner, data) + TotalTail(SummaryTotal(GroupCleaner, data)))
  {
    var title := ReportTitle(view);
    worksheetData := [[Str(title)]];
    if dateRange != "" {
      worksheetData := worksheetData + [[Str("Date Range: " + dateRange)]];
    }
    worksheetData := worksheetData + [[]];
    worksheetData := worksheetData + [SummaryHeader];
    assert worksheetData == SummaryHead(title, dateRange);
    var rows := SummaryTable(GroupCleaner, data);
    worksheetData := worksheetData + rows;
  }

  /** In the summary spreadsheet the total row, when there is one, is the
      last row, and no row below the headings is a total. */
  lemma SummaryExcelTotalLast(view: ViewType, dateRange: string, data: seq<SummaryEntry>)
    ensures var head := SummaryHead(ReportTitle(view), dateRange);
            var sheet := head + SummaryBody(GroupCleaner, data) + TotalTail(SummaryTotal(GroupCleaner, data));
            && (forall i :: |head| <= i < |sheet| ==>
                  (Highlighted(sheet[i]) <==> SummaryTotal(GroupCleaner, data).Some? && i == |sheet| - 1))
            && |sheet| == |head| + |Select(data, NotTotal(GroupCleaner))| + (if SummaryTotal(GroupCleaner, data).Some? then 1 else 0)
  {
    var head := SummaryHead(ReportTitle(view), dateRange);
    var rows := SummaryBody(GroupCleaner, data) + TotalTail(SummaryTotal(GroupCleaner, data));
    SummaryHighlight(GroupCleaner, data);
    assert head + SummaryBody(GroupCleaner, data) + TotalTail(SummaryTotal(GroupCleaner, data)) == head + rows;
    forall i | |head| <= i < |head + rows|
      ensures (head + rows)[i] == rows[i - |head|]
    {
    }
  }

  // ---------------------------------------------------------------------
  // What the screen has loaded and expanded

  /** An item of the report data; `processName` is what the name lookup
      returned for it. */
  datatype ProcessData = ProcessData(processId: int, processName: Raw, isTotal: bool, counts: Counts)
  datatype GroupData = GroupData(groupId: int, groupName: Raw, counts: Counts)
  datatype ProjectData = ProjectData(projectId: int, projectName: Raw, counts: Counts)
  /** A cached catch-list answer; an absent list is `None`. */
  datatype CatchData = CatchData(bookletCatchList: Option<seq<string>>, paperCatchList: Option<seq<string>>,
                                 lotNos: Option<seq<string>>)

  /** `groupDetailsData`, `groupProjectDetails` and `projectCatchLists`,
      keyed by process, group and project id. */
  datatype Loaded = Loaded(groupDetailsData: map<int, seq<GroupData>>,
                           groupProjectDetails: map<int, map<int, seq<ProjectData>>>,
                           projectCatchLists: map<int, map<int, map<int, CatchData>>>)

  /** `expandedGroupProcesses`, `expandedGroupProjects` and
      `expandedProjectRows`; a missing collection is an empty one. */
  datatype Expansion = Expansion(expandedGroupProcesses: set<int>,
                                 expandedGroupProjects: map<int, set<int>>,
                                 expandedProjectRows: map<int, map<int, set<int>>>)

  /** Some process, some process's group or some group's project is open. */
  predicate AnyExpanded(x: Expansion)
  {
    || x.expandedGroupProcesses != {}
    || (exists p :: p in x.expandedGroupProjects && x.expandedGroupProjects[p] != {})
    || (exists p, g :: p in x.expandedProjectRows && g in x.expandedProjectRows[p] && x.expandedProjectRows[p][g] != {})
  }

  /** `isAnyExpanded`: the three collections in turn, leaving as soon as a
      non-empty set turns up. */
  method IsAnyExpanded(x: Expansion) returns (r: bool)
    ensures r == AnyExpanded(x)
  {
    if |x.expandedGroupProcesses| > 0 {
      return true;
    }
    var projects := x.expandedGroupProjects;
    var keys := projects.Keys;
    while keys != {}
      invariant keys <= projects.Keys
      invariant forall p :: p in projects && p !in keys ==> projects[p] == {}
      decreases keys
    {
      var key := Pick(keys);
      if |projects[key]| > 0 {
        return true;
      }
      keys := keys - {key};
    }
    var rows := x.expandedProjectRows;
    var ps := rows.Keys;
    while ps != {}
      invariant ps <= rows.Keys
      invariant forall p, g :: p in rows && p !in ps && g in rows[p] ==> rows[p][g] == {}
      decreases ps
    {
      var p := Pick(ps);
      var gs := rows[p].Keys;
      while gs != {}
        invariant gs <= rows[p].Keys
        invariant forall g :: g in rows[p] && g !in gs ==> rows[p][g] == {}
        decreases gs
      {
        var g := Pick(gs);
        if |rows[p][g]| > 0 {
          return true;
        }
        gs := gs - {g};
      }
      ps := ps - {p};
    }
    return false;
  }

  /** `groupDetailsData[processId] || []` */
  function GroupsOf(loaded: Loaded, pid: int): seq<GroupData>
  {
    if pid in loaded.groupDetailsData then loaded.groupDetailsData[pid] else []
  }

  /** `groupProjectDetails[processId]?.[groupId] || []` */
  function ProjectsOf(loaded: Loaded, pid: int, gid: int): seq<ProjectData>
  {
    var m := loaded.groupProjectDetails;
    if pid in m && gid in m[pid] then m[pid][gid] else []
  }

  /** `projectCatchLists[processId]?.[groupId]?.[projectId]` */
  function CatchesOf(loaded: Loaded, pid: int, gid: int, prid: int): Option<CatchData>
  {
    var m := loaded.projectCatchLists;
    if pid in m && gid in m[pid] && prid in m[pid][gid] then Some(m[pid][gid][prid]) else None
  }

  /** The export's inputs, with `anyExpanded` worked out once. */
  datatype Context = Context(loaded: Loaded, expansion: Expansion, anyExpanded: bool)

  predicate ShowGroups(ctx: Context, pid: int)
  {
    (ctx.anyExpanded && pid in ctx.expansion.expandedGroupProcesses) || !ctx.anyExpanded
  }

  predicate ShowProjects(ctx: Context, pid: int, gid: int)
  {
    var m := ctx.expansion.expandedGroupProjects;
    (ctx.anyExpanded && pid in m && gid in m[pid]) || !ctx.anyExpanded
  }

  predicate ShowCatch(ctx: Context, pid: int, gid: int, prid: int)
  {
    var m := ctx.expansion.expandedProjectRows;
    (ctx.anyExpanded && pid in m && gid in m[pid] && prid in m[pid][gid]) || !ctx.anyExpanded
  }

  // ---------------------------------------------------------------------
  // The outline both detail exports list

  /** One row of a details export, before it is laid out as cells. */
  datatype Node =
    | ProcessNode(process: ProcessData)
    | GroupNode(processId: int, group: GroupData)
    | ProjectNode(processId: int, groupId: int, project: ProjectData)
    | CatchNode(processId: int, groupId: int, projectId: int, lists: CatchData)

  function ShownGroups(ctx: Context, pid: int): seq<GroupData>
  {
    if ShowGroups(ctx, pid) then GroupsOf(ctx.loaded, pid) else []
  }

  function ShownProjects(ctx: Context, pid: int, gid: int): seq<ProjectData>
  {
    if ShowProjects(ctx, pid, gid) then ProjectsOf(ctx.loaded, pid, gid) else []
  }

  /** The catch-list row under a project, when it is shown and cached. */
  function CatchNodes(ctx: Context, pid: int, gid: int, prid: int): seq<Node>
  {
    var c := CatchesOf(ctx.loaded, pid, gid, prid);
    if ShowCatch(ctx, pid, gid, prid) && c.Some? then [CatchNode(pid, gid, prid, c.value)] else []
  }

  function ProjectBlock(ctx: Context, pid: int, gid: int, project: ProjectData): seq<Node>
  {
    [ProjectNode(pid, gid, project)] + CatchNodes(ctx, pid, gid, project.projectId)
  }

  function ProjectBlockOf(ctx: Context, pid: int, gid: int): ProjectData -> seq<Node>
  {
    project => ProjectBlock(ctx, pid, gid, project)
  }

  function GroupBlock(ctx: Context, pid: int, group: GroupData): seq<Node>
  {
    [GroupNode(pid, group)]
    + Flatten(Apply(ShownProjects(ctx, pid, group.groupId), ProjectBlockOf(ctx, pid, group.groupId)))
  }

  function GroupBlockOf(ctx: Context, pid: int): GroupData -> seq<Node>
  {
    group => GroupBlock(ctx, pid, group)
  }

  /** A process, then each shown group with its shown projects, each
      project followed by its catch-list row. */
  function ProcessBlock(ctx: Context, process: ProcessData): seq<Node>
  {
    [ProcessNode(process)]
    + Flatten(Apply(ShownGroups(ctx, process.processId), GroupBlockOf(ctx, process.processId)))
  }

  function ProcessBlockOf(ctx: Context): ProcessData -> seq<Node>
  {
    process => ProcessBlock(ctx, process)
  }

  /** The items the details PDF lists: all but the total. */
  function Listed(): ProcessData -> bool
  {
    (process: ProcessData) => !process.isTotal
  }

  function Outline(ctx: Context, data: seq<ProcessData>): seq<Node>
  {
    Flatten(Apply(Select(data, Listed()), ProcessBlockOf(ctx)))
  }

  // ---------------------------------------------------------------------
  // Rows

  /** A catch list joined with `, `, or `None` when absent or empty. */
  function ListText(l: Option<seq<string>>): (r: string)
    ensures l.None? || l.value == [] ==> r == "None"
    ensures l.Some? && |l.value| == 1 ==> r == l.value[0]
    ensures l.Some? && |l.value| >= 2 ==>
              r == JoinComma(l.value[..|l.value| - 1]) + ", " + l.value[|l.value| - 1]
  {
    if l.Some? && |l.value| >= 2 then
      var init := l.value[..|l.value| - 1];
      assert l.value == init + [l.value[|l.value| - 1]];
      JoinCommaSnoc(init, l.value[|l.value| - 1]);
      JoinComma(l.value)
    else if l.Some? && |l.value| > 0 then JoinComma(l.value)
    else "None"
  }

  function PdfCatchText(c: CatchData): string
  {
    var bookletCatchList := ListText(c.bookletCatchList);
    var paperCatchList := ListText(c.paperCatchList);
    var lotNos := ListText(c.lotNos);
    var lotNoLabel := "Lot No:";
    var lotNoLine := if lotNos != "None" then lotNoLabel + " " + lotNos else lotNoLabel + " None";
    "Booklet Catch List: " + bookletCatchList + "\n" + "Paper Catch List: " + paperCatchList + "\n" + lotNoLine
  }

  /** The two branches of `lotNoLine` write the same text. */
  lemma PdfCatchTextPlain(c: CatchData)
    ensures PdfCatchText(c) == "Booklet Catch List: " + ListText(c.bookletCatchList) + "\n"
                               + "Paper Catch List: " + ListText(c.paperCatchList) + "\n"
                               + "Lot No: " + ListText(c.lotNos)
  {
    var lotNos := ListText(c.lotNos);
    if lotNos == "None" {
      assert "Lot No:" + " None" == "Lot No: " + lotNos;
    } else {
      assert "Lot No:" + " " + lotNos == "Lot No: " + lotNos;
    }
  }

  function SheetCatchText(c: CatchData): string
  {
    "Booklet: " + ListText(c.bookletCatchList) + " | Paper: " + ListText(c.paperCatchList)
    + " | Lot No: " + ListText(c.lotNos)
  }

  /** The cleaned name of the process, group or project a row is about. */
  function CleanNodeName(n: Node): string
  {
    match n
    case ProcessNode(p) => CleanGroupName(p.processName)
    case GroupNode(_, g) => CleanGroupName(g.groupName)
    case ProjectNode(_, _, pr) => CleanGroupName(pr.projectName)
    case CatchNode(_, _, _, _) => ""
  }

  /** The name a PDF row shows, a group's behind one space. */
  function NodeName(n: Node): string
  {
    if n.GroupNode? then " " + CleanNodeName(n) else CleanNodeName(n)
  }

  function NodeCounts(n: Node): Counts
    requires !n.CatchNode?
  {
    match n
    case ProcessNode(p) => p.counts
    case GroupNode(_, g) => g.counts
    case ProjectNode(_, _, pr) => pr.counts
  }

  /** A PDF row covers the table's five columns: a name and the four
      counts, or the catch lists as one cell spanning all five. */
  function PdfRow(n: Node): (r: seq<Cell>)
    ensures Columns(r) == 5
    ensures n.CatchNode? ==> r == [Spanning(PdfCatchText(n.lists), 5)]
    ensures !n.CatchNode? ==> |r| == 5 && r[0] == Str(NodeName(n))
  {
    if n.CatchNode? then [Spanning(PdfCatchText(n.lists), 5)]
    else
      LineColumns(NodeName(n), NodeCounts(n));
      Line(NodeName(n), NodeCounts(n))
  }

  /** A spreadsheet row: the level, the name and the four counts. */
  function SheetRow(n: Node): (r: seq<Cell>)
    ensures |r| == 6 && r[0] == Str(LevelName(n))
    ensures forall i :: 0 <= i < 6 ==> !r[i].Spanning?
  {
    if n.CatchNode? then [Str("Catch Lists"), Str(SheetCatchText(n.lists)), Blank, Blank, Blank, Blank]
    else
      LineColumns(CleanNodeName(n), NodeCounts(n));
      [Str(LevelName(n))] + Line(CleanNodeName(n), NodeCounts(n))
  }

  datatype Format = PdfFormat | SheetFormat

  function Row(fmt: Format, n: Node): seq<Cell>
  {
    if fmt == PdfFormat then PdfRow(n) else SheetRow(n)
  }

  function RowOf(fmt: Format): Node -> seq<Cell>
  {
    n => Row(fmt, n)
  }

  // ---------------------------------------------------------------------
  // The loops

  /** The project row and, when shown and cached, its catch-list row. */
  method EmitProject(fmt: Format, ctx: Context, pid: int, gid: int, project: ProjectData) returns (rows: seq<seq<Cell>>)
    ensures rows == Apply(ProjectBlock(ctx, pid, gid, project), RowOf(fmt))
  {
    var node := ProjectNode(pid, gid, project);
    var row := RowOf(fmt);
    rows := [row(node)];
    var expanded := ctx.expansion.expandedProjectRows;
    var showCatch := (ctx.anyExpanded && pid in expanded && gid in expanded[pid] && project.projectId in expanded[pid][gid])
                     || !ctx.anyExpanded;
    var catchData := CatchesOf(ctx.loaded, pid, gid, project.projectId);
    assert showCatch == ShowCatch(ctx, pid, gid, project.projectId);
    ApplyUnit(node, row);
    if showCatch && catchData.Some? {
      var catchNode := CatchNode(pid, gid, project.projectId, catchData.value);
      assert ProjectBlock(ctx, pid, gid, project) == [node] + [catchNode];
      ApplySnoc([node], catchNode, row);
      rows := rows + [row(catchNode)];
    } else {
      assert ProjectBlock(ctx, pid, gid, project) == [node];
    }
  }

  /** The group row, then each shown project's rows. */
  method EmitGroup(fmt: Format, ctx: Context, pid: int, group: GroupData) returns (rows: seq<seq<Cell>>)
    ensures rows == Apply(GroupBlock(ctx, pid, group), RowOf(fmt))
  {
    rows := [Row(fmt, GroupNode(pid, group))];
    var gid := group.groupId;
    var expanded := ctx.expansion.expandedGroupProjects;
    var projectArr := if (ctx.anyExpanded && pid in expanded && gid in expanded[pid]) || !ctx.anyExpanded
                      then ProjectsOf(ctx.loaded, pid, gid) else [];
    ghost var head := [GroupNode(pid, group)];
    ghost var f := ProjectBlockOf(ctx, pid, gid);
    ApplyUnit(GroupNode(pid, group), RowOf(fmt));
    RenderStart(head, projectArr, f, RowOf(fmt));
    for m := 0 to |projectArr|
      invariant rows == Apply(head + Flatten(Apply(projectArr[..m], f)), RowOf(fmt))
    {
      var r := EmitProject(fmt, ctx, pid, gid, projectArr[m]);
      RenderStep(head, projectArr, m, f, RowOf(fmt));
      rows := rows + r;
    }
    assert projectArr[..|projectArr|] == projectArr;
  }

  /** The process row, then each shown group's rows. */
  method EmitProcess(fmt: Format, ctx: Context, process: ProcessData) returns (rows: seq<seq<Cell>>)
    ensures rows == Apply(ProcessBlock(ctx, process), RowOf(fmt))
  {
    rows := [Row(fmt, ProcessNode(process))];
    var pid := process.processId;
    var groupArr := if (ctx.anyExpanded && pid in ctx.expansion.expandedGroupProcesses) || !ctx.anyExpanded
                    then GroupsOf(ctx.loaded, pid) else [];
    ghost var head := [ProcessNode(process)];
    ghost var f := GroupBlockOf(ctx, pid);
    ApplyUnit(ProcessNode(process), RowOf(fmt));
    RenderStart(head, groupArr, f, RowOf(fmt));
    for j := 0 to |groupArr|
      invariant rows == Apply(head + Flatten(Apply(groupArr[..j], f)), RowOf(fmt))
    {
      var r := EmitGroup(fmt, ctx, pid, groupArr[j]);
      RenderStep(head, groupArr, j, f, RowOf(fmt));
      rows := rows + r;
    }
    assert groupArr[..|groupArr|] == groupArr;
  }

  /** `tableBody` of the details PDF: every item but the total, with what
      is shown under it. */
  method DetailsPdf(loaded: Loaded, x: Expansion, data: seq<ProcessData>) returns (tableBody: seq<seq<Cell>>)
    ensures tableBody == Apply(Outline(Context(loaded, x, AnyExpanded(x)), data), RowOf(PdfFormat))
  {
    var anyExpanded := IsAnyExpanded(x);
    var ctx := Context(loaded, x, anyExpanded);
    tableBody := [];
    for k := 0 to |data|
      invariant tableBody == Apply(Outline(ctx, data[..k]), RowOf(PdfFormat))
    {
      var process := data[k];
      FlattenApplySelectStep(data, k, Listed(), ProcessBlockOf(ctx));
      if !process.isTotal {
        var rows := EmitProcess(PdfFormat, ctx, process);
        ApplyAppend(Outline(ctx, data[..k]), ProcessBlock(ctx, process), RowOf(PdfFormat));
        tableBody := tableBody + rows;
      }
    }
    assert data[..|data|] == data;
  }

  // ---------------------------------------------------------------------
  // Which rows appear, and in which order

  predicate IsProcessNode(n: Node) { n.ProcessNode? }
  predicate IsGroupNode(n: Node) { n.GroupNode? }
  predicate IsProjectNode(n: Node) { n.ProjectNode? }
  predicate IsCatchNode(n: Node) { n.CatchNode? }

  function ProcessNodeOf(): ProcessData -> Node
  {
    p => ProcessNode(p)
  }

  function GroupNodeOf(pid: int): GroupData -> Node
  {
    g => GroupNode(pid, g)
  }

  function ProjectNodeOf(pid: int, gid: int): ProjectData -> Node
  {
    pr => ProjectNode(pid, gid, pr)
  }

  /** Under a project: the project itself, and its catch lists exactly
      when nothing is expanded or the project is, and they are cached. */
  lemma ProjectBlockKinds(ctx: Context, pid: int, gid: int, project: ProjectData)
    ensures var b := ProjectBlock(ctx, pid, gid, project);
            && Select(b, IsProcessNode) == [] && Select(b, IsGroupNode) == []
            && Select(b, IsProjectNode) == [ProjectNode(pid, gid, project)]
            && var rows := ctx.expansion.expandedProjectRows;
               var c := CatchesOf(ctx.loaded, pid, gid, project.projectId);
               Select(b, IsCatchNode) ==
                 if (!ctx.anyExpanded || (pid in rows && gid in rows[pid] && project.projectId in rows[pid][gid])) && c.Some?
                 then [CatchNode(pid, gid, project.projectId, c.value)] else []
  {
    var x, tail := ProjectNode(pid, gid, project), CatchNodes(ctx, pid, gid, project.projectId);
    assert Select(ProjectBlock(ctx, pid, gid, project), IsProcessNode) == [] by {
      SelectPair(x, tail, IsProcessNode);
    }
    assert Select(ProjectBlock(ctx, pid, gid, project), IsGroupNode) == [] by {
      SelectPair(x, tail, IsGroupNode);
    }
    assert Select(ProjectBlock(ctx, pid, gid, project), IsProjectNode) == [x] by {
      SelectPair(x, tail, IsProjectNode);
    }
    assert Select(ProjectBlock(ctx, pid, gid, project), IsCatchNode) == tail by {
      SelectPair(x, tail, IsCatchNode);
    }
  }

  /** Under a group: the group itself, then its projects in order exactly
      when nothing is expanded or the group is. */
  lemma GroupBlockKinds(ctx: Context, pid: int, group: GroupData)
    ensures var b := GroupBlock(ctx, pid, group);
            && Select(b, IsProcessNode) == []
            && Select(b, IsGroupNode) == [GroupNode(pid, group)]
            && var m := ctx.expansion.expandedGroupProjects;
               Select(b, IsProjectNode) ==
                 Apply(if !ctx.anyExpanded || (pid in m && group.groupId in m[pid])
                       then ProjectsOf(ctx.loaded, pid, group.groupId) else [],
                       ProjectNodeOf(pid, group.groupId))
  {
    var gid := group.groupId;
    var s, f := ShownProjects(ctx, pid, gid), ProjectBlockOf(ctx, pid, gid);
    var head, tail := [GroupNode(pid, group)], Flatten(Apply(s, f));
    forall i | 0 <= i < |s|
      ensures Select(f(s[i]), IsProcessNode) == [] && Select(f(s[i]), IsGroupNode) == []
      ensures Select(f(s[i]), IsProjectNode) == [ProjectNodeOf(pid, gid)(s[i])]
    {
      ProjectBlockKinds(ctx, pid, gid, s[i]);
    }
    SelectFlattenNone(s, f, IsProcessNode);
    SelectFlattenNone(s, f, IsGroupNode);
    SelectFlattenUnits(s, f, IsProjectNode, ProjectNodeOf(pid, gid));
    SelectAppend(head, tail, IsProcessNode);
    SelectAppend(head, tail, IsGroupNode);
    SelectAppend(head, tail, IsProjectNode);
    SelectUnit(GroupNode(pid, group), IsProcessNode);
    SelectUnit(GroupNode(pid, group), IsGroupNode);
    SelectUnit(GroupNode(pid, group), IsProjectNode);
  }

  /** Under a process: the process itself, then its groups in order
      exactly when nothing is expanded or the process is. */
  lemma ProcessBlockKinds(ctx: Context, process: ProcessData)
    ensures var b := ProcessBlock(ctx, process);
            var pid := process.processId;
            && Select(b, IsProcessNode) == [ProcessNode(process)]
            && Select(b, IsGroupNode) ==
                 Apply(if !ctx.anyExpanded || pid in ctx.expansion.expandedGroupProcesses
                       then GroupsOf(ctx.loaded, pid) else [],
                       GroupNodeOf(pid))
  {
    var pid := process.processId;
    var s, f := ShownGroups(ctx, pid), GroupBlockOf(ctx, pid);
    var head, tail := [ProcessNode(process)], Flatten(Apply(s, f));
    forall i | 0 <= i < |s|
      ensures Select(f(s[i]), IsProcessNode) == []
      ensures Select(f(s[i]), IsGroupNode) == [GroupNodeOf(pid)(s[i])]
    {
      GroupBlockKinds(ctx, pid, s[i]);
    }
    SelectFlattenNone(s, f, IsProcessNode);
    SelectFlattenUnits(s, f, IsGroupNode, GroupNodeOf(pid));
    SelectAppend(head, tail, IsProcessNode);
    SelectAppend(head, tail, IsGroupNode);
    SelectUnit(ProcessNode(process), IsProcessNode);
    SelectUnit(ProcessNode(process), IsGroupNode);
  }

  /** The details PDF has one process row per item other than the total,
      in the order of the data. */
  lemma OutlineProcesses(ctx: Context, data: seq<ProcessData>)
    ensures Select(Outline(ctx, data), IsProcessNode) == Apply(Select(data, Listed()), ProcessNodeOf())
  {
    var s, f := Select(data, Listed()), ProcessBlockOf(ctx);
    forall i | 0 <= i < |s|
      ensures Select(f(s[i]), IsProcessNode) == [ProcessNodeOf()(s[i])]
    {
      ProcessBlockKinds(ctx, s[i]);
    }
    SelectFlattenUnits(s, f, IsProcessNode, ProcessNodeOf());
  }

  /** With nothing expanded the exports show everything loaded: every
      group, every project and every cached catch list. */
  lemma NothingExpandedShowsAll(loaded: Loaded, x: Expansion, process: ProcessData, group: GroupData, project: ProjectData)
    requires !AnyExpanded(x)
    ensures var ctx := Context(loaded, x, AnyExpanded(x));
            var pid, gid := process.processId, group.groupId;
            var c := CatchesOf(loaded, pid, gid, project.projectId);
            && Select(ProcessBlock(ctx, process), IsGroupNode) == Apply(GroupsOf(loaded, pid), GroupNodeOf(pid))
            && Select(GroupBlock(ctx, pid, group), IsProjectNode) == Apply(ProjectsOf(loaded, pid, gid), ProjectNodeOf(pid, gid))
            && Select(ProjectBlock(ctx, pid, gid, project), IsCatchNode) ==
                 if c.Some? then [CatchNode(pid, gid, project.projectId, c.value)] else []
  {
    var ctx := Context(loaded, x, AnyExpanded(x));
    ProcessBlockKinds(ctx, process);
    GroupBlockKinds(ctx, process.processId, group);
    ProjectBlockKinds(ctx, process.processId, group.groupId, project);
  }

  /** Every row of the details PDF covers the table's five columns: the
      count rows with five cells, a catch-list row with one cell spanning
      all five. */
  lemma PdfRowShapes(nodes: seq<Node>)
    ensures var rows := Apply(nodes, RowOf(PdfFormat));
            forall i :: 0 <= i < |rows| ==>
              Columns(rows[i]) == 5
              && |rows[i]| == (if nodes[i].CatchNode? then 1 else 5)
              && (nodes[i].CatchNode? ==> rows[i] == [Spanning(PdfCatchText(nodes[i].lists), 5)])
  {
    var rows := Apply(nodes, RowOf(PdfFormat));
    forall i | 0 <= i < |rows|
      ensures Columns(rows[i]) == 5 && |rows[i]| == (if nodes[i].CatchNode? then 1 else 5)
    {
      assert rows[i] == PdfRow(nodes[i]);
    }
  }

  /** The `Level` column of a spreadsheet row. */
  function LevelName(n: Node): string
  {
    match n
    case ProcessNode(_) => "Process"
    case GroupNode(_, _) => "Group"
    case ProjectNode(_, _, _) => "Project"
    case CatchNode(_, _, _, _) => "Catch Lists"
  }

  /** Every spreadsheet row has six cells and names its level first. */
  lemma SheetRowLevels(nodes: seq<Node>)
    ensures var rows := Apply(nodes, RowOf(SheetFormat));
            forall i :: 0 <= i < |rows| ==>
              |rows[i]| == 6 && rows[i][0] == Str(LevelName(nodes[i]))
              && LevelName(nodes[i]) in ["Process", "Group", "Project", "Catch Lists"]
  {
    var rows := Apply(nodes, RowOf(SheetFormat));
    forall i | 0 <= i < |rows|
      ensures |rows[i]| == 6 && rows[i][0] == Str(LevelName(nodes[i]))
    {
      assert rows[i] == SheetRow(nodes[i]);
    }
  }

  // ---------------------------------------------------------------------
  // Details spreadsheets

  datatype Sheet = Sheet(name: string, rows: seq<seq<Cell>>)

  const SheetHeader: seq<Cell> :=
    [Str("Level"), Str("Name"), Str("Paper Catch"), Str("Paper Quantity"), Str("Booklet Catch"), Str("Booklet Quantity")]

  function SheetHead(title: string, dateRange: string, name: string): seq<seq<Cell>>
  {
    [[Str(title)]] + (if dateRange != "" then [[Str("Date Range: " + dateRange)]] else [])
    + [[Str("Process: " + name)], [], SheetHeader]
  }

  /** The rows the spreadsheet loop pushes before the process row. */
  lemma SheetHeadRows(title: string, dateRange: string, name: string)
    ensures dateRange != "" ==>
              [[Str(title)]] + [[Str("Date Range: " + dateRange)]] + [[Str("Process: " + name)]] + [[]] + [SheetHeader]
              == SheetHead(title, dateRange, name)
    ensures dateRange == "" ==>
              [[Str(title)]] + [[Str("Process: " + name)]] + [[]] + [SheetHeader] == SheetHead(title, dateRange, name)
  {
  }

  /** One item's sheet, named after the first 31 characters of its
      cleaned name. */
  function ProcessSheet(ctx: Context, title: string, dateRange: string, process: ProcessData): Sheet
  {
    var name := CleanGroupName(process.processName);
    Sheet(Prefix(name, 31), SheetHead(title, dateRange, name) + Apply(ProcessBlock(ctx, process), RowOf(SheetFormat)))
  }

  /** The head's rows, then the body's first row right after the
      column header. */
  lemma HeadThenBody(title: string, dateRange: string, name: string, body: seq<seq<Cell>>)
    requires body != []
    ensures var rows := SheetHead(title, dateRange, name) + body;
            var h := if dateRange != "" then 5 else 4;
            && |rows| > h && rows[0] == [Str(title)]
            && rows[h - 3] == [Str("Process: " + name)]
            && rows[h - 1] == SheetHeader && rows[h] == body[0]
  {
    var head := SheetHead(title, dateRange, name);
    assert (head + body)[|head|] == body[0];
  }

  /** A sheet's name fits the 31-character limit and begins its item's
      cleaned name; its rows are the title, the date range when there is
      one, the process line, a blank row and the column header, and the
      item's own process row comes right after the header. */
  lemma ProcessSheetShape(ctx: Context, title: string, dateRange: string, process: ProcessData)
    ensures var sh := ProcessSheet(ctx, title, dateRange, process);
            var name := CleanGroupName(process.processName);
            var h := if dateRange != "" then 5 else 4;
            && |sh.name| <= 31 && sh.name == name[..|sh.name|]
            && (|name| <= 31 ==> sh.name == name)
            && |sh.rows| > h && sh.rows[0] == [Str(title)]
            && sh.rows[h - 3] == [Str("Process: " + name)]
            && sh.rows[h - 1] == SheetHeader
            && sh.rows[h] == SheetRow(ProcessNode(process))
  {
    var body := Apply(ProcessBlock(ctx, process), RowOf(SheetFormat));
    assert body[0] == SheetRow(ProcessNode(process));
    HeadThenBody(title, dateRange, CleanGroupName(process.processName), body);
  }

  function ProcessSheetOf(ctx: Context, title: string, dateRange: string): ProcessData -> Sheet
  {
    process => ProcessSheet(ctx, title, dateRange, process)
  }

  /** One sheet per item, the total included, in order. */
  method DetailsExcel(loaded: Loaded, x: Expansion, view: ViewType, dateRange: string, data: seq<ProcessData>)
    returns (sheets: seq<Sheet>)
    ensures sheets == Apply(data, ProcessSheetOf(Context(loaded, x, AnyExpanded(x)), ReportTitle(view), dateRange))
  {
    var title := ReportTitle(view);
    var anyExpanded := IsAnyExpanded(x);
    var ctx := Context(loaded, x, anyExpanded);
    sheets := [];
    for k := 0 to |data|
      invariant sheets == Apply(data[..k], ProcessSheetOf(ctx, title, dateRange))
    {
      var process := data[k];
      var cleanProcessName := CleanGroupName(process.processName);
      var worksheetName := Prefix(cleanProcessName, 31);
      var worksheetData := [[Str(title)]];
      if dateRange != "" {
        worksheetData := worksheetData + [[Str("Date Range: " + dateRange)]];
      }
      worksheetData := worksheetData + [[Str("Process: " + cleanProcessName)]];
      worksheetData := worksheetData + [[]];
      worksheetData := worksheetData + [SheetHeader];
      SheetHeadRows(title, dateRange, cleanProcessName);
      var rows := EmitProcess(SheetFormat, ctx, process);
      worksheetData := worksheetData + rows;
      assert Sheet(worksheetName, worksheetData) == ProcessSheet(ctx, title, dateRange, process);
      ApplyPrefixSnoc(data, k, ProcessSheetOf(ctx, title, dateRange));
      sheets := sheets + [Sheet(worksheetName, worksheetData)];
    }
    assert data[..|data|] == data;
  }
}
