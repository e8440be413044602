/** The pending catch table: processes side by side, two columns each
    (catch number, quantity), row r holding the r-th entry of every
    process's list and blanks where a list has run out. The report screen
    and the pending PDF and spreadsheet share this layout and differ in how
    they sort the lists and print a quantity. */
module CatchMatrix {
  import opened Common
  import opened StableSort
  import opened Catches
  import opened ReportRows

  /** `Math.max(...lists.map(l => l.length))`, where the maximum of no
      lengths, `-Infinity`, makes a table of no rows. */
  function MaxLen<T>(lists: seq<seq<T>>): (m: nat)
    ensures forall i :: 0 <= i < |lists| ==> |lists[i]| <= m
    ensures lists == [] ==> m == 0
    ensures lists != [] ==> exists i :: 0 <= i < |lists| && |lists[i]| == m
  {
    if lists == [] then 0
    else
      var rest := MaxLen(lists[1..]);
      assert forall i :: 1 <= i < |lists| ==> lists[i] == lists[1..][i - 1];
      if |lists[0]| >= rest then |lists[0]| else rest
  }

  /** How a table prints a quantity: the screen's booklet view prints the
      summed number (0 included), the paper view prints the template
      `${quantity}`, the exports print `quantity || ''`. */
  datatype Style = BookletScreen | PaperScreen | ExportTable

  /** `${q}` for a quantity that may be null. */
  function QuantityText(q: Option<int>): string
  {
    if q.Some? then IntToString(q.value) else "null"
  }

  /** The booklet screen shows a number, 0 for a missing quantity; the
      paper screen shows the decimal text, or `null` for a missing one; the
      exports leave the cell blank exactly when the quantity is 0 or
      missing. */
  function QuantityCell(style: Style, q: Option<int>): (c: Cell)
    ensures style == BookletScreen ==> c.Num? && (q.None? ==> c.n == 0)
    ensures style == PaperScreen ==> c.Str? && (c.s == "null" <==> q.None?)
    ensures style == PaperScreen && q.Some? ==> c.s != "" && (c.s[0] == '-' <==> q.value < 0)
    ensures style == ExportTable ==> (c == Blank <==> OrZero(q) == 0)
  {
    match style
    case BookletScreen => Num(OrZero(q))
    case PaperScreen => Str(QuantityText(q))
    case ExportTable => ShowVal(q)
  }

  /** Column `half` (0 = catch, 1 = quantity) of a process's slot in row `r`. */
  function SlotCell(style: Style, list: seq<CatchDetail>, r: nat, half: nat): Cell
  {
    if r >= |list| then Blank
    else if half == 0 then Str(list[r].catchNo)
    else QuantityCell(style, list[r].quantity)
  }

  function Row(lists: seq<seq<CatchDetail>>, r: nat, style: Style): (row: seq<Cell>)
    ensures |row| == 2 * |lists|
  {
    seq(2 * |lists|, c requires 0 <= c < 2 * |lists| => SlotCell(style, lists[c / 2], r, c % 2))
  }

  /** The body of the table: as many rows as the longest list, two cells per
      process in every row; entry r of process p sits in row r, columns 2p
      and 2p + 1, and a process with fewer entries shows blanks. */
  function Layout(lists: seq<seq<CatchDetail>>, style: Style): (rows: seq<seq<Cell>>)
    ensures |rows| == MaxLen(lists)
    ensures forall i :: 0 <= i < |rows| ==> |rows[i]| == 2 * |lists|
    ensures forall p, i :: 0 <= p < |lists| && 0 <= i < |lists[p]| ==>
              i < |rows| && rows[i][2 * p] == Str(lists[p][i].catchNo) &&
              rows[i][2 * p + 1] == QuantityCell(style, lists[p][i].quantity)
    ensures forall p, i :: 0 <= p < |lists| && |lists[p]| <= i < |rows| ==>
              rows[i][2 * p] == Blank && rows[i][2 * p + 1] == Blank
  {
    RowSlots(lists, style);
    seq(MaxLen(lists), r requires 0 <= r < MaxLen(lists) => Row(lists, r, style))
  }

  /** Process `p` owns columns `2p` and `2p + 1` of every row. */
  lemma RowSlots(lists: seq<seq<CatchDetail>>, style: Style)
    ensures forall r: nat, p :: 0 <= p < |lists| ==>
              Row(lists, r, style)[2 * p] == SlotCell(style, lists[p], r, 0) &&
              Row(lists, r, style)[2 * p + 1] == SlotCell(style, lists[p], r, 1)
  {
    forall r: nat, p | 0 <= p < |lists|
      ensures Row(lists, r, style)[2 * p] == SlotCell(style, lists[p], r, 0)
      ensures Row(lists, r, style)[2 * p + 1] == SlotCell(style, lists[p], r, 1)
    {
      assert (2 * p) / 2 == p && (2 * p) % 2 == 0;
      assert (2 * p + 1) / 2 == p && (2 * p + 1) % 2 == 1;
    }
  }

  /** The body loop of the pending exports: for each row index up to the
      longest list, push one row of cells. */
  method BodyRows(lists: seq<seq<CatchDetail>>) returns (rows: seq<seq<Cell>>)
    ensures rows == Layout(lists, ExportTable)
  {
    var maxRows := MaxLen(lists);
    rows := [];
    for rowIdx := 0 to maxRows
      invariant |rows| == rowIdx
      invariant forall r :: 0 <= r < rowIdx ==> rows[r] == Row(lists, r, ExportTable)
    {
      var bodyRow := BodyRow(lists, rowIdx);
      rows := rows + [bodyRow];
    }
    assert rows == Layout(lists, ExportTable);
  }

  /** One body row: for every process, its catch number and
      `quantity || ''`, or two blanks past the end of its list. */
  method BodyRow(lists: seq<seq<CatchDetail>>, rowIdx: nat) returns (bodyRow: seq<Cell>)
    ensures bodyRow == Row(lists, rowIdx, ExportTable)
  {
    bodyRow := [];
    for p := 0 to |lists|
      invariant |bodyRow| == 2 * p
      invariant forall c :: 0 <= c < 2 * p ==> bodyRow[c] == SlotCell(ExportTable, lists[c / 2], rowIdx, c % 2)
    {
      var item := lists[p];
      var catchCell := if rowIdx < |item| then Str(item[rowIdx].catchNo) else Blank;
      var quantityCell := if rowIdx < |item| then ShowVal(item[rowIdx].quantity) else Blank;
      assert (2 * p) / 2 == p && (2 * p) % 2 == 0;
      assert (2 * p + 1) / 2 == p && (2 * p + 1) % 2 == 1;
      bodyRow := bodyRow + [catchCell, quantityCell];
    }
  }

  // ---------------------------------------------------------------------
  // Which lists the tables show

  /** The pending exports: each process's grouped catches, highest quantity
      first, whatever the screen is sorted by. */
  function ExportList(ds: seq<CatchDetail>): seq<CatchDetail>
  {
    SortBy(Grouped(ds), CatchOrder(ByQuantity, Desc))
  }

  /** The screen: the raw records sorted by the chosen header; in booklet
      projects they are then grouped by catch number and sorted again. */
  function ScreenList(ds: seq<CatchDetail>, booklet: bool, column: Column, direction: Direction): seq<CatchDetail>
  {
    var sorted := SortBy(ds, CatchOrder(column, direction));
    if booklet then SortBy(Grouped(sorted), CatchOrder(column, direction)) else sorted
  }

  function ScreenLists(details: seq<seq<CatchDetail>>, booklet: bool, column: Column, direction: Direction): (r: seq<seq<CatchDetail>>)
    ensures |r| == |details|
    ensures forall p :: 0 <= p < |details| ==> r[p] == ScreenList(details[p], booklet, column, direction)
  {
    seq(|details|, p requires 0 <= p < |details| => ScreenList(details[p], booklet, column, direction))
  }

  /** The body of the pending table on the screen: as many rows as the
      longest shown list, two cells per process; row i holds entry i of
      each process's shown list, its quantity a number in booklet projects
      and text in paper ones, or two blanks once the list has run out. */
  function ScreenBody(details: seq<seq<CatchDetail>>, booklet: bool, column: Column, direction: Direction): (rows: seq<seq<Cell>>)
    ensures var lists := ScreenLists(details, booklet, column, direction);
            && |rows| == MaxLen(lists)
            && (forall i :: 0 <= i < |rows| ==> |rows[i]| == 2 * |details|)
            && (forall p, i :: 0 <= p < |details| && 0 <= i < |lists[p]| ==>
                  && i < |rows| && rows[i][2 * p] == Str(lists[p][i].catchNo)
                  && rows[i][2 * p + 1] == (if booklet then Num(OrZero(lists[p][i].quantity))
                                            else Str(QuantityText(lists[p][i].quantity))))
            && (forall p, i :: 0 <= p < |details| && |lists[p]| <= i < |rows| ==>
                  rows[i][2 * p] == Blank && rows[i][2 * p + 1] == Blank)
  {
    Layout(ScreenLists(details, booklet, column, direction), if booklet then BookletScreen else PaperScreen)
  }

  /** The exported lists run from highest to lowest quantity, keep the
      grouping order among equal quantities, and hold exactly the grouped
      entries. */
  lemma ExportListOrder(ds: seq<CatchDetail>, y: CatchDetail)
    ensures Sorted(ExportList(ds), CatchOrder(ByQuantity, Desc))
    ensures multiset(ExportList(ds)) == multiset(Grouped(ds))
    ensures Tier(ExportList(ds), y, CatchOrder(ByQuantity, Desc)) == Tier(Grouped(ds), y, CatchOrder(ByQuantity, Desc))
  {
    CatchOrderIsStrictWeak(ByQuantity, Desc);
    SortBySorted(Grouped(ds), CatchOrder(ByQuantity, Desc));
    SortByPermutes(Grouped(ds), CatchOrder(ByQuantity, Desc));
    SortByStable(Grouped(ds), y, CatchOrder(ByQuantity, Desc));
  }

  /** In a booklet project the screen shows, per process, every non-empty
      catch number exactly once with the sum of its quantities, in the
      order of the chosen header. */
  lemma BookletEntries(ds: seq<CatchDetail>, column: Column, direction: Direction)
    ensures var l := ScreenList(ds, true, column, direction);
            && Distinct(CatchNos(l))
            && (forall k :: k in CatchNos(l) <==> k in CatchNumbers(ds))
            && (forall i :: 0 <= i < |l| ==> l[i].quantity == Some(SumFor(ds, l[i].catchNo)))
            && Sorted(l, CatchOrder(column, direction))
  {
    var lt := CatchOrder(column, direction);
    var sorted := SortBy(ds, lt);
    var g := Grouped(sorted);
    var l := SortBy(g, lt);
    SortByPermutes(ds, lt);
    SortByPermutes(g, lt);
    CatchNumbersPermutation(sorted, ds);
    GroupedEntries(sorted);
    CatchNosPermutation(l, g);
    forall k ensures k in CatchNos(l) <==> k in CatchNos(g) {
      assert k in CatchNos(l) <==> k in multiset(CatchNos(l));
      assert k in CatchNos(g) <==> k in multiset(CatchNos(g));
    }
    forall j | 0 <= j < |g| ensures g[j].quantity == Some(SumFor(ds, g[j].catchNo)) {
      SumForPermutation(sorted, ds, g[j].catchNo);
    }
    SortByKeeps(g, lt, (e: CatchDetail) => e.quantity == Some(SumFor(ds, e.catchNo)));
    CatchOrderIsStrictWeak(column, direction);
    SortBySorted(g, lt);
  }
}
