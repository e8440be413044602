/** What the process and group exports share: the five-cell count row,
    the total-row extraction of the summary tables (a row whose cleaned name
    mentions "total" is held back and appended last, labelled `Total`, the
    last such row winning) and the PDF rule that highlights a row labelled
    `total`. */
module ExportRows {
  import opened Common
  import opened JsText
  import opened Names
  import opened StableSort
  import opened ReportRows

  /** The name cleaner an export applies: the deny-list one of the process
      export or the ASCII allow-list one of the group export. */
  datatype Cleaner = ExportCleaner | GroupCleaner

  function Clean(c: Cleaner, v: Raw): (r: string)
    ensures Normalized(r)
  {
    if c == ExportCleaner then CleanExportName(v) else CleanGroupName(v)
  }

  const TotalWord: string := "total"
  const TotalLabel: string := "Total"

  /** `(name || '').toLowerCase().includes('total')`. */
  predicate IsTotalName(name: string)
  {
    Includes(Lower(name), TotalWord)
  }

  /** The text of a row's first cell. */
  function Label(row: seq<Cell>): string
  {
    if row != [] && row[0].Str? then row[0].s else ""
  }

  /** `[first, paperCatches, paperQuantity, bookletCatches, bookletQuantity]`
      with every count shown as `x || ''`. */
  function Line(first: string, c: Counts): (r: seq<Cell>)
    ensures |r| == 5 && r[0] == Str(first) && Label(r) == first
  {
    [Str(first), ShowVal(c.paperCatches), ShowVal(c.paperQuantity), ShowVal(c.bookletCatches), ShowVal(c.bookletQuantity)]
  }

  /** A count row spans nothing: its five cells cover five columns. */
  lemma LineColumns(first: string, c: Counts)
    ensures Columns(Line(first, c)) == 5
    ensures forall i :: 0 <= i < 5 ==> !Line(first, c)[i].Spanning?
  {
    PlainColumns(Line(first, c));
  }

  // ---------------------------------------------------------------------
  // Total highlight

  /** The rows the PDF fills in the total colour: the first cell, trimmed
      and lower-cased, reads `total`. */
  predicate Highlighted(row: seq<Cell>)
  {
    Lower(Trim(Label(row))) == TotalWord
  }

  /** The first cell as the PDF draws it: a highlighted row is relabelled
      `Total`. */
  function ShownLabel(row: seq<Cell>): (r: string)
    ensures Highlighted(row) ==> r == TotalLabel
    ensures !Highlighted(row) ==> r == Label(row)
  {
    if Highlighted(row) then TotalLabel else Label(row)
  }

  lemma TotalLabelIsTotal()
    ensures IsTotalName(TotalLabel)
    ensures Lower(Trim(TotalLabel)) == TotalWord
  {
    assert Lower(TotalLabel) == TotalWord;
    IncludesAt(Lower(TotalLabel), TotalWord, 0);
    assert !IsJsSpace(TotalLabel[0]) && !IsJsSpace(TotalLabel[|TotalLabel| - 1]);
    assert DropSpaces(TotalLabel) == TotalLabel;
  }

  /** A cleaned name that does not mention "total" never reads as the
      total row. */
  lemma CleanNameNotHighlighted(name: string, c: Counts)
    requires Trim(name) == name && !IsTotalName(name)
    ensures !Highlighted(Line(name, c))
  {
    NotTotalWord(name);
  }

  /** The highlight rule is narrower than the total filter: a row the
      PDF highlights always has a first cell that mentions `total`. */
  lemma HighlightedIsTotalName(row: seq<Cell>)
    requires Highlighted(row)
    ensures IsTotalName(Label(row))
  {
    var x := Label(row);
    var t := Trim(x);
    var a := TrimAt(x);
    LowerSlice(x, a, a + |t|);
    IncludesAt(Lower(x), TotalWord, a);
  }

  /** ... and strictly narrower: a name such as `Grand Total` is held back
      as a total, yet its row is not highlighted. */
  lemma TotalNameNotHighlighted(prefix: string, c: Counts)
    requires prefix != [] && !IsJsSpace(prefix[0])
    ensures IsTotalName(prefix + TotalLabel)
    ensures !Highlighted(Line(prefix + TotalLabel, c))
  {
    var x := prefix + TotalLabel;
    var a := |prefix|;
    assert x[a..a + |TotalLabel|] == TotalLabel;
    LowerSlice(x, a, a + |TotalLabel|);
    assert Lower(TotalLabel) == TotalWord;
    IncludesAt(Lower(x), TotalWord, a);
    assert Trim(x) == x by {
      assert !IsJsSpace(x[0]) && !IsJsSpace(x[|x| - 1]);
    }
    assert |Lower(Trim(x))| != |TotalWord|;
  }

  lemma NotTotalWord(s: string)
    requires !IsTotalName(s)
    ensures Lower(s) != TotalWord
  {
    if Lower(s) == TotalWord {
      assert false;
    }
  }

  // ---------------------------------------------------------------------
  // The last match

  /** The last element satisfying `p`: what a loop that overwrites one
      variable on every match holds at the end. */
  function LastMatch<T>(s: seq<T>, p: T -> bool): Option<T>
  {
    if s == [] then None
    else if p(s[|s| - 1]) then Some(s[|s| - 1])
    else LastMatch(s[..|s| - 1], p)
  }

  lemma {:induction false} LastMatchFacts<T>(s: seq<T>, p: T -> bool)
    ensures LastMatch(s, p).None? <==> forall i :: 0 <= i < |s| ==> !p(s[i])
    ensures LastMatch(s, p).Some? ==>
              exists j :: 0 <= j < |s| && s[j] == LastMatch(s, p).value && p(s[j]) && forall i :: j < i < |s| ==> !p(s[i])
  {
    if s != [] {
      var n := |s| - 1;
      if p(s[n]) {
        assert s[n] == LastMatch(s, p).value;
      } else {
        var init := s[..n];
        LastMatchFacts(init, p);
        assert forall i :: 0 <= i < n ==> init[i] == s[i];
        if LastMatch(init, p).Some? {
          var j :| 0 <= j < |init| && init[j] == LastMatch(init, p).value && p(init[j]) && forall i :: j < i < |init| ==> !p(init[i]);
          assert 0 <= j < |s| && s[j] == LastMatch(s, p).value && p(s[j]) && forall i :: j < i < |s| ==> !p(s[i]);
        }
      }
    }
  }

  // ---------------------------------------------------------------------
  // Summary tables

  /** A summary item with the name the screen's lookup gave it. */
  datatype SummaryEntry = SummaryEntry(name: Raw, counts: Counts)

  predicate IsTotalEntry(c: Cleaner, e: SummaryEntry)
  {
    IsTotalName(Clean(c, e.name))
  }

  function NotTotal(c: Cleaner): SummaryEntry -> bool
  {
    e => !IsTotalEntry(c, e)
  }

  function SummaryLine(c: Cleaner, e: SummaryEntry): seq<Cell>
  {
    Line(Clean(c, e.name), e.counts)
  }

  /** One row per item, in input order. */
  function SummaryLines(c: Cleaner, s: seq<SummaryEntry>): (r: seq<seq<Cell>>)
    ensures |r| == |s|
    ensures forall i :: 0 <= i < |s| ==> r[i] == SummaryLine(c, s[i])
  {
    seq(|s|, i requires 0 <= i < |s| => SummaryLine(c, s[i]))
  }

  /** `processRows`: the items that are not totals, in input order. */
  function SummaryBody(c: Cleaner, data: seq<SummaryEntry>): seq<seq<Cell>>
  {
    SummaryLines(c, Select(data, NotTotal(c)))
  }

  /** The counts of the last total item, if any. */
  function SummaryTotal(c: Cleaner, data: seq<SummaryEntry>): Option<Counts>
  {
    var t := LastMatch(data, (e: SummaryEntry) => IsTotalEntry(c, e));
    if t.Some? then Some(t.value.counts) else None
  }

  /** `totalRow`: the row labelled `Total` built from the last total's
      counts. */
  function TotalRow(t: Option<Counts>): Option<seq<Cell>>
  {
    if t.Some? then Some(Line(TotalLabel, t.value)) else None
  }

  function TotalTail(t: Option<Counts>): seq<seq<Cell>>
  {
    if t.Some? then [Line(TotalLabel, t.value)] else []
  }

  /** The summary rows: `totalRow ? [...processRows, totalRow] : processRows`. */
  method SummaryTable(c: Cleaner, data: seq<SummaryEntry>) returns (tableData: seq<seq<Cell>>)
    ensures tableData == SummaryBody(c, data) + TotalTail(SummaryTotal(c, data))
  {
    var processRows: seq<seq<Cell>> := [];
    var totalRow: Option<seq<Cell>> := None;
    for k := 0 to |data|
      invariant processRows == SummaryBody(c, data[..k])
      invariant totalRow == TotalRow(SummaryTotal(c, data[..k]))
    {
      var item := data[k];
      SummaryStepBody(c, data, k);
      SummaryStepTotal(c, data, k);
      var cleanProcessName := Clean(c, item.name);
      if IsTotalName(cleanProcessName) {
        totalRow := Some(Line(TotalLabel, item.counts));
      } else {
        processRows := processRows + [Line(cleanProcessName, item.counts)];
      }
    }
    assert data[..|data|] == data;
    tableData := if totalRow.Some? then processRows + [totalRow.value] else processRows;
  }

  /** One step of the summary loop: an item that is not a total is
      appended to the body, a total leaves the body as it was. */
  lemma SummaryStepBody(c: Cleaner, data: seq<SummaryEntry>, k: nat)
    requires k < |data|
    ensures SummaryBody(c, data[..k + 1]) ==
            SummaryBody(c, data[..k]) + (if IsTotalEntry(c, data[k]) then [] else [SummaryLine(c, data[k])])
  {
    SelectPrefixStep(data, k, NotTotal(c));
    var kept := NotTotal(c)(data[k]);
    assert kept == !IsTotalEntry(c, data[k]);
    SummaryLinesSnoc(c, Select(data[..k], NotTotal(c)), data[k], kept);
  }

  lemma SummaryLinesSnoc(c: Cleaner, s: seq<SummaryEntry>, e: SummaryEntry, kept: bool)
    ensures SummaryLines(c, s + (if kept then [e] else [])) == SummaryLines(c, s) + (if kept then [SummaryLine(c, e)] else [])
  {
    if !kept {
      assert s + [] == s;
    }
  }

  /** One step of the summary loop: a total replaces the held total row. */
  lemma SummaryStepTotal(c: Cleaner, data: seq<SummaryEntry>, k: nat)
    requires k < |data|
    ensures SummaryTotal(c, data[..k + 1]) ==
            if IsTotalEntry(c, data[k]) then Some(data[k].counts) else SummaryTotal(c, data[..k])
  {
    var pre := data[..k + 1];
    assert pre[..k] == data[..k] && pre[k] == data[k];
  }

  /** No body row is labelled as a total. */
  lemma SummaryBodyNotTotal(c: Cleaner, data: seq<SummaryEntry>)
    ensures forall i :: 0 <= i < |SummaryBody(c, data)| ==> !IsTotalName(Label(SummaryBody(c, data)[i]))
  {
    var sel := Select(data, NotTotal(c));
    forall i | 0 <= i < |sel| ensures !IsTotalName(Label(SummaryBody(c, data)[i])) {
      assert NotTotal(c)(sel[i]);
    }
  }

  /** A total row follows exactly when some item is a total, and it carries
      the counts of the last one. */
  lemma SummaryTotalLast(c: Cleaner, data: seq<SummaryEntry>)
    ensures SummaryTotal(c, data).Some? <==> exists i :: 0 <= i < |data| && IsTotalEntry(c, data[i])
    ensures SummaryTotal(c, data).Some? ==>
              exists j :: 0 <= j < |data| && IsTotalEntry(c, data[j]) && SummaryTotal(c, data).value == data[j].counts &&
                          forall i :: j < i < |data| ==> !IsTotalEntry(c, data[i])
  {
    LastMatchFacts(data, (e: SummaryEntry) => IsTotalEntry(c, e));
  }

  /** No body row of a summary PDF is highlighted. */
  lemma SummaryBodyNotHighlighted(c: Cleaner, data: seq<SummaryEntry>)
    ensures forall i :: 0 <= i < |SummaryBody(c, data)| ==> !Highlighted(SummaryBody(c, data)[i])
  {
    var body := SummaryBody(c, data);
    var sel := Select(data, NotTotal(c));
    forall i | 0 <= i < |body| ensures !Highlighted(body[i]) {
      assert NotTotal(c)(sel[i]);
      NormalizedTrimmed(Clean(c, sel[i].name));
      CleanNameNotHighlighted(Clean(c, sel[i].name), sel[i].counts);
    }
  }

  /** In a summary PDF the highlighted row is exactly the appended total
      row. */
  lemma SummaryHighlight(c: Cleaner, data: seq<SummaryEntry>)
    ensures var rows := SummaryBody(c, data) + TotalTail(SummaryTotal(c, data));
            forall i :: 0 <= i < |rows| ==>
              (Highlighted(rows[i]) <==> SummaryTotal(c, data).Some? && i == |rows| - 1)
  {
    SummaryBodyNotHighlighted(c, data);
    TotalLabelIsTotal();
  }
}
