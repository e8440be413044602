/** The rows of the report screen's production tab: name lookups, the
    summary table (Total last, proofreading processes first) and the details
    table whose projects are loaded when a process is expanded. */
module ReportRows {
  import opened Common
  import opened JsText
  import opened Names
  import opened StableSort

  /** `processId` as the report API sends it: a number, or the string
      "Total" on the row of grand totals. */
  datatype ProcessKey = TotalKey | Pid(id: int)

  /** An entry of a name list (`processes`, `groups`, `projects`). */
  datatype NamedEntity = NamedEntity(id: int, name: Raw)

  /** `list.find(e => e.id === id)`, reduced to the name it yields. */
  function FindName(list: seq<NamedEntity>, id: int): (r: Option<Raw>)
    ensures r.None? <==> forall i :: 0 <= i < |list| ==> list[i].id != id
    ensures r.Some? ==> exists i :: 0 <= i < |list| && list[i].id == id && list[i].name == r.value
  {
    if list == [] then None
    else if list[0].id == id then Some(list[0].name)
    else
      var r := FindName(list[1..], id);
      assert r.Some? ==> exists i :: 1 <= i < |list| && list[i].id == id && list[i].name == r.value by {
        if r.Some? {
          var i :| 0 <= i < |list[1..]| && list[1..][i].id == id && list[1..][i].name == r.value;
          assert list[i + 1] == list[1..][i];
        }
      }
      r
  }

  /** `getProcessName`, `getGroupName`, `getProjectName`: "N/A" for a falsy
      id, otherwise the cleaned name of the first entity with that id, or
      the cleaned fallback `"<kind> <id>"`. */
  function DisplayName(list: seq<NamedEntity>, kind: string, id: int): (r: string)
    ensures id == 0 ==> r == "N/A"
    ensures id != 0 ==> All(r, ReportNameChar) && Normalized(r)
  {
    if id == 0 then "N/A"
    else
      match FindName(list, id)
      case Some(name) => CleanReportName(name)
      case None => CleanReportName(Text(kind + " " + IntToString(id)))
  }

  /** `getProcessName(processId)`; the Total key is not a number, so no
      process matches it and the fallback text is used. */
  function ProcessName(processes: seq<NamedEntity>, key: ProcessKey): (r: string)
    ensures key == TotalKey ==> r == TotalFallback
    ensures key == Pid(0) ==> r == "N/A"
    ensures key != Pid(0) ==> All(r, ReportNameChar) && Normalized(r)
  {
    match key
    case Pid(n) => DisplayName(processes, "Process", n)
    case TotalKey =>
      TotalFallbackKept();
      CleanReportName(Text(TotalFallback))
  }

  /** `Process ${processId}` for the Total key. */
  const TotalFallback: string := "Process Total"

  /** `Process Total` is already a clean name. */
  lemma TotalFallbackKept()
    ensures CleanReportName(Text(TotalFallback)) == TotalFallback
  {
    var s := TotalFallback;
    assert forall i :: 0 <= i < |s| ==> s[i] == ' ' || IsAsciiWord(s[i]);
    assert All(s, ReportNameChar);
    assert Normalized(s);
    CleanReportNameKeepsCleanName(s);
  }

  /** The decimal text of an integer holds digits and at most a leading minus. */
  lemma IntToStringChars(n: int)
    ensures All(IntToString(n), ReportNameChar)
    ensures forall i :: 0 <= i < |IntToString(n)| ==> !IsJsSpace(IntToString(n)[i])
  {
    var s := IntToString(n);
    if n < 0 {
      var d := NatToString(-n);
      assert s == "-" + d;
      assert forall i :: 1 <= i < |s| ==> s[i] == d[i - 1];
    }
  }

  /** An id nobody names is shown as `"<kind> <id>"`, untouched by the
      cleaner, when the kind is a plain word. */
  lemma FallbackNameKept(list: seq<NamedEntity>, kind: string, id: int)
    requires kind != "" && forall i :: 0 <= i < |kind| ==> IsAsciiWord(kind[i])
    requires id != 0 && forall i :: 0 <= i < |list| ==> list[i].id != id
    ensures DisplayName(list, kind, id) == kind + " " + IntToString(id)
  {
    var d := IntToString(id);
    var s := kind + " " + d;
    IntToStringChars(id);
    var k := |kind|;
    forall i | 0 <= i < |s|
      ensures ReportNameChar(s[i])
      ensures IsJsSpace(s[i]) ==> i == k && s[i] == ' '
    {
      if i < k {
        assert s[i] == kind[i];
      } else if i > k {
        assert s[i] == d[i - k - 1];
      }
    }
    assert Normalized(s) by {
      assert s[0] == kind[0] && s[|s| - 1] == d[|d| - 1];
    }
    CleanReportNameKeepsCleanName(s);
  }

  // ---------------------------------------------------------------------
  // Summary table

  /** The four production counts of a row; each may be missing. */
  datatype Counts = Counts(paperCatches: Option<int>, paperQuantity: Option<int>,
                           bookletCatches: Option<int>, bookletQuantity: Option<int>)

  /** An item of the production report response. */
  datatype ReportItem = ReportItem(key: ProcessKey, counts: Counts)

  /** A row of the summary table: a response item, or the Total item with
      `processName: "TOTAL"` and `isTotal: true` spread over it. */
  datatype SummaryRow = SummaryRow(item: ReportItem, processName: Option<string>, isTotal: bool)

  predicate IsTotalItem(it: ReportItem)
  {
    it.key == TotalKey
  }

  /** `name && name.toLowerCase().includes('proofreading')` */
  predicate IsProofreading(name: string)
  {
    name != "" && Includes(Lower(name), ProofreadingWord)
  }

  const ProofreadingWord: string := "proofreading"

  /** The class the summary sort moves to the front. */
  function ProofreadingItem(processes: seq<NamedEntity>): ReportItem -> bool
  {
    (it: ReportItem) => IsProofreading(ProcessName(processes, it.key))
  }

  /** `array.find(p)` */
  function FindFirst<T>(s: seq<T>, p: T -> bool): (r: Option<T>)
    ensures r == if Select(s, p) == [] then None else Some(Select(s, p)[0])
  {
    if s == [] then None else if p(s[0]) then Some(s[0]) else FindFirst(s[1..], p)
  }

  function PlainRows(items: seq<ReportItem>): (r: seq<SummaryRow>)
    ensures |r| == |items|
    ensures forall i :: 0 <= i < |r| ==> r[i] == SummaryRow(items[i], None, false)
  {
    seq(|items|, i requires 0 <= i < |items| => SummaryRow(items[i], None, false))
  }

  /** The order the summary promises for the non-Total items: the
      proofreading processes, then the others, each in response order. */
  function SummaryOrder(processes: seq<NamedEntity>, items: seq<ReportItem>): (r: seq<ReportItem>)
    ensures |r| == |Select(items, Not(IsTotalItem))|
  {
    var body := Select(items, Not(IsTotalItem));
    var pf := ProofreadingItem(processes);
    SelectSplit(body, pf);
    assert |multiset(Select(body, pf) + Select(body, Not(pf)))| == |multiset(body)|;
    Select(body, pf) + Select(body, Not(pf))
  }

  /** The summary branch of `fetchProcessProductionReport`: the first Total
      item is kept aside, every Total item is filtered out, the rest are
      sorted proofreading-first and pushed, then the Total row is pushed
      last. */
  method ShapeSummary(processes: seq<NamedEntity>, items: seq<ReportItem>) returns (rows: seq<SummaryRow>)
    ensures var order := SummaryOrder(processes, items);
            && |rows| == |order| + (if Select(items, IsTotalItem) == [] then 0 else 1)
            && rows[..|order|] == PlainRows(order)
    ensures Select(items, IsTotalItem) != [] ==>
              rows[|rows| - 1] == SummaryRow(Select(items, IsTotalItem)[0], Some("TOTAL"), true)
  {
    var totalRow := FindFirst(items, IsTotalItem);
    var processData := Select(items, Not(IsTotalItem));
    var sorted := SortBy(processData, FirstLt(ProofreadingItem(processes)));
    SortTwoClass(processData, ProofreadingItem(processes));
    assert sorted == SummaryOrder(processes, items);
    rows := [];
    AppendPrefix(PlainRows(sorted), []);
    rows := rows + PlainRows(sorted);
    if totalRow.Some? {
      AppendPrefix(rows, [SummaryRow(totalRow.value, Some("TOTAL"), true)]);
      rows := rows + [SummaryRow(totalRow.value, Some("TOTAL"), true)];
    }
  }

  /** The summary keeps every non-Total item exactly once, and no Total item
      sits anywhere but in the last row. */
  lemma SummaryOrderPermutes(processes: seq<NamedEntity>, items: seq<ReportItem>)
    ensures multiset(SummaryOrder(processes, items)) == multiset(Select(items, Not(IsTotalItem)))
    ensures forall i :: 0 <= i < |SummaryOrder(processes, items)| ==> !IsTotalItem(SummaryOrder(processes, items)[i])
  {
    var body := Select(items, Not(IsTotalItem));
    var pf := ProofreadingItem(processes);
    SelectSplit(body, pf);
    SelectKeeps(body, pf, Not(IsTotalItem));
    SelectKeeps(body, Not(pf), Not(IsTotalItem));
    var a, b := Select(body, pf), Select(body, Not(pf));
    forall i | 0 <= i < |a + b| ensures !IsTotalItem((a + b)[i]) {
      if i < |a| {
        assert Not(IsTotalItem)(a[i]);
      } else {
        assert Not(IsTotalItem)(b[i - |a|]);
      }
    }
  }

  // ---------------------------------------------------------------------
  // Details table

  /** A project of an expanded process, with its cleaned display name. */
  datatype ProjectRow = ProjectRow(projectId: int, projectName: string, counts: Counts)

  /** A process row of the details or pending table. */
  datatype ProcessRow = ProcessRow(key: ProcessKey, processName: string, counts: Counts,
                                   projects: seq<ProjectRow>, projectsLoaded: bool, isTotal: bool)

  /** `x || 0` on all four counts. */
  function ZeroFilled(c: Counts): (r: Counts)
    ensures r.paperCatches.Some? && r.paperQuantity.Some?
    ensures r.bookletCatches.Some? && r.bookletQuantity.Some?
    ensures OrZero(r.paperCatches) == OrZero(c.paperCatches) && OrZero(r.paperQuantity) == OrZero(c.paperQuantity)
    ensures OrZero(r.bookletCatches) == OrZero(c.bookletCatches) && OrZero(r.bookletQuantity) == OrZero(c.bookletQuantity)
  {
    Counts(Some(OrZero(c.paperCatches)), Some(OrZero(c.paperQuantity)),
           Some(OrZero(c.bookletCatches)), Some(OrZero(c.bookletQuantity)))
  }

  /** The map callback of the details branch. */
  function DetailsRow(processes: seq<NamedEntity>, it: ReportItem): ProcessRow
  {
    ProcessRow(it.key, ProcessName(processes, it.key), ZeroFilled(it.counts), [], false, false)
  }

  function DetailsRows(processes: seq<NamedEntity>, items: seq<ReportItem>): (r: seq<ProcessRow>)
    ensures |r| == |items|
    ensures forall i :: 0 <= i < |r| ==> r[i] == DetailsRow(processes, items[i])
  {
    seq(|items|, i requires 0 <= i < |items| => DetailsRow(processes, items[i]))
  }

  predicate ProofreadingRow(r: ProcessRow)
  {
    IsProofreading(r.processName)
  }

  /** The details branch of `fetchProcessProductionReport`: filter out the
      Total item, build a process row per item, sort proofreading first. */
  function ShapeDetails(processes: seq<NamedEntity>, items: seq<ReportItem>): (r: seq<ProcessRow>)
    ensures |r| == |Select(items, Not(IsTotalItem))|
    ensures forall i :: 0 <= i < |r| ==> r[i].key != TotalKey
  {
    var body := Select(items, Not(IsTotalItem));
    var rows := DetailsRows(processes, body);
    SortByPermutes(rows, FirstLt(ProofreadingRow));
    assert |SortBy(rows, FirstLt(ProofreadingRow))| == |multiset(rows)|;
    assert forall j :: 0 <= j < |rows| ==> NotTotalRow(rows[j]) by {
      forall j | 0 <= j < |rows| ensures NotTotalRow(rows[j]) {
        assert Not(IsTotalItem)(body[j]);
      }
    }
    SortByKeeps(rows, FirstLt(ProofreadingRow), NotTotalRow);
    SortBy(rows, FirstLt(ProofreadingRow))
  }

  predicate NotTotalRow(r: ProcessRow)
  {
    r.key != TotalKey
  }

  /** Proofreading rows come first and each class keeps the response
      order; every non-Total item gives exactly one row. */
  lemma ShapeDetailsOrder(processes: seq<NamedEntity>, items: seq<ReportItem>)
    ensures var rows := DetailsRows(processes, Select(items, Not(IsTotalItem)));
            ShapeDetails(processes, items) == Select(rows, ProofreadingRow) + Select(rows, Not(ProofreadingRow))
    ensures multiset(ShapeDetails(processes, items)) == multiset(DetailsRows(processes, Select(items, Not(IsTotalItem))))
  {
    var rows := DetailsRows(processes, Select(items, Not(IsTotalItem)));
    SortTwoClass(rows, ProofreadingRow);
    SortByPermutes(rows, FirstLt(ProofreadingRow));
  }

  /** A details row as first shown: a real process, counts zero-filled,
      no projects and not loaded. */
  predicate FreshDetailsRow(r: ProcessRow)
  {
    r.key != TotalKey && r.projects == [] && !r.projectsLoaded && !r.isTotal && r.counts == ZeroFilled(r.counts)
  }

  lemma ShapeDetailsFresh(processes: seq<NamedEntity>, items: seq<ReportItem>)
    ensures forall i :: 0 <= i < |ShapeDetails(processes, items)| ==> FreshDetailsRow(ShapeDetails(processes, items)[i])
  {
    var body := Select(items, Not(IsTotalItem));
    var rows := DetailsRows(processes, body);
    forall j | 0 <= j < |rows| ensures FreshDetailsRow(rows[j]) {
      assert Not(IsTotalItem)(body[j]);
    }
    SortByKeeps(rows, FirstLt(ProofreadingRow), FreshDetailsRow);
  }

  // ---------------------------------------------------------------------
  // Projects loaded on expansion

  /** An item of a project-wise response. */
  datatype ProjectItem = ProjectItem(projectId: int, counts: Counts)

  /** `cleanName(projectMapping[id] || 'Project ' + id)` */
  function ProjectLabel(mapping: map<int, Raw>, id: int): (r: string)
    ensures All(r, ReportNameChar) && Normalized(r)
  {
    var name := if id in mapping && !Falsy(mapping[id]) then mapping[id] else Text("Project " + IntToString(id));
    CleanReportName(name)
  }

  /** The project rows of `loadProjectsForProcess` (counts as sent) and of
      `loadPendingProjectsForProcess` (counts zero-filled). */
  function ProjectRows(response: seq<ProjectItem>, mapping: map<int, Raw>, pending: bool): (r: seq<ProjectRow>)
    ensures |r| == |response|
    ensures forall i :: 0 <= i < |r| ==>
              && r[i].projectId == response[i].projectId
              && r[i].projectName == ProjectLabel(mapping, response[i].projectId)
              && r[i].counts == (if pending then ZeroFilled(response[i].counts) else response[i].counts)
  {
    seq(|response|, i requires 0 <= i < |response| =>
      var p := response[i];
      ProjectRow(p.projectId, ProjectLabel(mapping, p.projectId), if pending then ZeroFilled(p.counts) else p.counts))
  }

  /** A process row once its projects have arrived. */
  function Loaded(r: ProcessRow, response: seq<ProjectItem>, mapping: map<int, Raw>, pending: bool): ProcessRow
  {
    r.(projects := ProjectRows(response, mapping, pending), projectsLoaded := true)
  }

  /** The state update of a project load: rows of process `key` get the
      projects and are marked loaded when the response is a non-empty
      array; anything else (an error, a non-array, an empty array) leaves
      the rows as they were. Other processes' rows never change. */
  function WithProjects(rows: seq<ProcessRow>, key: ProcessKey, response: Option<seq<ProjectItem>>,
                        mapping: map<int, Raw>, pending: bool): (r: seq<ProcessRow>)
    ensures |r| == |rows|
    ensures response.None? || response.value == [] ==> r == rows
    ensures forall i :: 0 <= i < |rows| && rows[i].key != key ==> r[i] == rows[i]
    ensures forall i :: 0 <= i < |rows| ==> r[i].key == rows[i].key && r[i].counts == rows[i].counts
    ensures forall i :: 0 <= i < |rows| ==>
              (r[i].projectsLoaded <==> rows[i].projectsLoaded || (rows[i].key == key && response.Some? && response.value != []))
  {
    if response.None? || response.value == [] then rows
    else
      seq(|rows|, i requires 0 <= i < |rows| =>
        if rows[i].key == key then Loaded(rows[i], response.value, mapping, pending) else rows[i])
  }

  // ---------------------------------------------------------------------
  // Table cells

  /** `showVal(v)` of the screen and `formatCellValue(v)` of the group
      export: 0, null and undefined become the blank cell. */
  function ShowVal(v: Option<int>): (c: Cell)
    ensures c == Blank <==> OrZero(v) == 0
    ensures c != Blank ==> c == Num(v.value)
  {
    if v.None? || v.value == 0 then Blank else Num(v.value)
  }
}
