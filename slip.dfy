/** `generate_pdf`: the one-page salary slip drawn for one rider's row.

    A fixed header, then two columns of line items (earnings on the left,
    deductions on the right) in which an item whose amount is 0 is left
    out, then the totals block placed half an inch below the lower column.
    The totals and the net figure are read from three aggregate fields of
    the row and are never recomputed from the items. */
module Slip {
  import opened Fields
  import opened Drawing

  /** A line item: the label printed on the slip and the column it is read from. */
  datatype Item = Item(caption: string, column: string)

  const Earnings: seq<Item> := [
    Item("Pickups Payment", "Rider Pickup Payment"),
    Item("Dropoffs Payment", "Rider Dropoff Payment"),
    Item("TDS Bonus", "TDS Bonus"),
    Item("Arrears", "Arears"),
    Item("Returns (LC)", "Deliveries - Return (LC)")
  ]

  const Deductions: seq<Item> := [
    Item("COD Deficit", "COD Deficit"),
    Item("Clawback", "Clawback Deduction"),
    Item("Salik", "Salik"),
    Item("Low Perf (LP)", "LP"),
    Item("Extra Sim", "Extra Sim"),
    Item("Traffic Fines", "Fine"),
    Item("Bike Repair", "Bike Repair"),
    Item("Visa/Loan", "Visa"),
    Item("Insurance", "Insurance"),
    Item("Advance", "Advance"),
    Item("C3 Charges", "C3 Charges"),
    Item("Prev. Minus", "Oct Minus salaries"),
    Item("Other", "Others"),
    Item("RTA", "RTA")
  ]

  /** The aggregate fields; the second header keeps its stray trailing quote. */
  const GrossColumn := "Gross salary"
  const TotalDeductionColumn := "Total Deduction'"
  const NetColumn := "Net Riders Salaries"

  // Layout, in hundredths of an inch.
  const ColumnTitleY := 880
  const StartY := ColumnTitleY - 30
  const RowHeight := 20
  const TotalsGap := 50
  const RuleAbove := 15
  const NetDrop := 40
  const EarnLabelX := 100
  const EarnAmountX := 350
  const DedLabelX := 450
  const DedAmountX := 750
  /** An A4 page: 8.27 by 11.69 inches. */
  const PageWidth := 827
  const PageHeight := 1169

  /** The items of `items` whose amount is non-zero, in list order. */
  function Visible(row: Row, b: Builtins, items: seq<Item>): seq<Item>
  {
    if items == [] then []
    else
      var last := items[|items| - 1];
      Visible(row, b, items[..|items| - 1]) +
        (if NonZero(GetNum(row, last.column, b)) then [last] else [])
  }

  /** Where a column's cursor stands after walking `items` from `y0`. */
  function Cursor(row: Row, b: Builtins, items: seq<Item>, y0: int): int
  {
    y0 - RowHeight * |Visible(row, b, items)|
  }

  /** The commands one column loop issues: a label and a right-aligned
      amount for each non-zero item, one row height apart. */
  function Column(row: Row, b: Builtins, items: seq<Item>, labelX: int, amountX: int, y0: int): seq<Command>
  {
    if items == [] then []
    else
      var init := items[..|items| - 1];
      var last := items[|items| - 1];
      var amount := GetNum(row, last.column, b);
      var y := Cursor(row, b, init, y0);
      Column(row, b, init, labelX, amountX, y0) +
        (if NonZero(amount) then [Str(labelX, y, last.caption), RightStr(amountX, y, b.format(amount))] else [])
  }

  /** The title in large bold type, then the switch to body type. */
  function Title(): seq<Command>
  {
    [ Font("Helvetica-Bold", 16),
      Str(100, 1050, "SALARY SLIP"),
      Font("Helvetica", 10) ]
  }

  /** The four record fields, each after its caption. */
  function RecordFields(row: Row, b: Builtins): seq<Command>
  {
    [ Str(100, 1000, "City: " + GetTxt(row, "City", b)),
      Str(450, 1000, "Rider ID: " + GetTxt(row, "Rider ID", b)),
      Str(100, 975, "Name: " + GetTxt(row, "Rider Name", b)),
      Str(450, 975, "Bike No: " + GetTxt(row, "Nov-25 Bike", b)) ]
  }

  /** The two fixed labels and the rule under the banner. */
  function StaticLabels(): seq<Command>
  {
    [ Str(100, 950, "Period: Nov-2025"),
      Str(450, 950, "Aggregator: Talabat"),
      Rule(50, 920, 750, 920) ]
  }

  /** Title, the four record fields, the two static labels and the rule. */
  function Banner(row: Row, b: Builtins): seq<Command>
  {
    Title() + RecordFields(row, b) + StaticLabels()
  }

  /** The two column titles, in bold, and the switch back to body type. */
  function ColumnTitles(): seq<Command>
  {
    [ Font("Helvetica-Bold", 12),
      Str(EarnLabelX, ColumnTitleY, "EARNINGS"),
      Str(DedLabelX, ColumnTitleY, "DEDUCTIONS"),
      Font("Helvetica", 10) ]
  }

  function Header(row: Row, b: Builtins): seq<Command>
  {
    Banner(row, b) + ColumnTitles()
  }

  function Min(a: int, b: int): int
  {
    if a < b then a else b
  }

  /** The totals baseline: half an inch below the lower of the two columns. */
  function FinalY(row: Row, b: Builtins): (r: int)
    ensures r + TotalsGap <= Cursor(row, b, Earnings, StartY)
    ensures r + TotalsGap <= Cursor(row, b, Deductions, StartY)
    ensures r + TotalsGap == Cursor(row, b, Earnings, StartY) || r + TotalsGap == Cursor(row, b, Deductions, StartY)
  {
    Min(Cursor(row, b, Earnings, StartY), Cursor(row, b, Deductions, StartY)) - TotalsGap
  }

  /** The rule above the totals, 0.15in over their baseline. */
  function TotalsRule(finalY: int): seq<Command>
  {
    [ Rule(50, finalY + RuleAbove, 750, finalY + RuleAbove) ]
  }

  /** The two totals, read from the gross and total-deduction fields. */
  function TotalsLines(row: Row, b: Builtins, finalY: int): seq<Command>
  {
    [ Font("Helvetica-Bold", 10),
      Str(EarnLabelX, finalY, "Total Earnings"),
      RightStr(EarnAmountX, finalY, b.format(GetNum(row, GrossColumn, b))),
      Str(DedLabelX, finalY, "Total Deductions"),
      RightStr(DedAmountX, finalY, b.format(GetNum(row, TotalDeductionColumn, b))) ]
  }

  /** The net line, 0.4in lower, read from the net field. */
  function NetLine(row: Row, b: Builtins, finalY: int): seq<Command>
  {
    [ Font("Helvetica-Bold", 14),
      Str(200, finalY - NetDrop, "NET SALARY PAYABLE:"),
      Str(550, finalY - NetDrop, "AED " + b.format(GetNum(row, NetColumn, b))) ]
  }

  /** The rule, the two totals and the net line, from the aggregate fields. */
  function Totals(row: Row, b: Builtins, finalY: int): seq<Command>
  {
    TotalsRule(finalY) + TotalsLines(row, b, finalY) + NetLine(row, b, finalY)
  }

  /** The whole slip: both columns start at `StartY`, each with its own cursor. */
  function Document(row: Row, b: Builtins): seq<Command>
  {
    Header(row, b)
      + Column(row, b, Earnings, EarnLabelX, EarnAmountX, StartY)
      + Column(row, b, Deductions, DedLabelX, DedAmountX, StartY)
      + Totals(row, b, FinalY(row, b))
  }

  /** One more pass of a column loop: the next item's row is appended when
      its amount is non-zero, and the cursor moves down one row height. */
  lemma ColumnStep(row: Row, b: Builtins, items: seq<Item>, n: nat, labelX: int, amountX: int, y0: int)
    requires n < |items|
    ensures var amount := GetNum(row, items[n].column, b);
      var y := Cursor(row, b, items[..n], y0);
      Column(row, b, items[..n + 1], labelX, amountX, y0) == Column(row, b, items[..n], labelX, amountX, y0) +
        (if NonZero(amount) then [Str(labelX, y, items[n].caption), RightStr(amountX, y, b.format(amount))] else []) &&
      Cursor(row, b, items[..n + 1], y0) == (if NonZero(amount) then y - RowHeight else y)
  {
    assert items[..n + 1][..n] == items[..n];
  }

  /** app.py:35-48, in `generate_pdf`: title, record fields, static labels
      and the rule under them. */
  method DrawBanner(c: Canvas, row: Row, b: Builtins)
    modifies c
    ensures c.log == old(c.log) + Banner(row, b)
  {
    c.SetFont("Helvetica-Bold", 16);
    c.DrawString(100, 1050, "SALARY SLIP");
    c.SetFont("Helvetica", 10);
    assert c.log == old(c.log) + Title();
    c.DrawString(100, 1000, "City: " + GetTxt(row, "City", b));
    c.DrawString(450, 1000, "Rider ID: " + GetTxt(row, "Rider ID", b));
    c.DrawString(100, 975, "Name: " + GetTxt(row, "Rider Name", b));
    c.DrawString(450, 975, "Bike No: " + GetTxt(row, "Nov-25 Bike", b));
    assert c.log == old(c.log) + Title() + RecordFields(row, b);
    c.DrawString(100, 950, "Period: Nov-2025");
    c.DrawString(450, 950, "Aggregator: Talabat");
    c.Line(50, 920, 750, 920);
  }

  /** app.py:51-56, in `generate_pdf`: the column titles at 8.8in; returns
      the cursor 0.3in below them, where the first item row goes. */
  method DrawColumnTitles(c: Canvas) returns (y: int)
    modifies c
    ensures c.log == old(c.log) + ColumnTitles()
    ensures y == StartY
  {
    y := 880;
    c.SetFont("Helvetica-Bold", 12);
    c.DrawString(100, y, "EARNINGS");
    c.DrawString(450, y, "DEDUCTIONS");
    y := y - 30;
    c.SetFont("Helvetica", 10);
  }

  /** app.py:105-122, in `generate_pdf`: the totals block below `finalY`'s rule. */
  method DrawTotals(c: Canvas, row: Row, b: Builtins, finalY: int)
    modifies c
    ensures c.log == old(c.log) + Totals(row, b, finalY)
  {
    var y := finalY;
    c.Line(50, y + 15, 750, y + 15);
    assert c.log == old(c.log) + TotalsRule(finalY);
    var gross := GetNum(row, GrossColumn, b);
    var totalDed := GetNum(row, TotalDeductionColumn, b);
    var net := GetNum(row, NetColumn, b);
    c.SetFont("Helvetica-Bold", 10);
    c.DrawString(100, y, "Total Earnings");
    c.DrawRightString(350, y, b.format(gross));
    c.DrawString(450, y, "Total Deductions");
    c.DrawRightString(750, y, b.format(totalDed));
    assert c.log == old(c.log) + TotalsRule(finalY) + TotalsLines(row, b, finalY);
    y := y - 40;
    c.SetFont("Helvetica-Bold", 14);
    c.DrawString(200, y, "NET SALARY PAYABLE:");
    c.DrawString(550, y, "AED " + b.format(net));
  }

  /** app.py:87-92 (earnings) and app.py:96-101 (deductions): one
      column loop. Each item's amount is read; a zero amount is skipped,
      any other draws the label at `labelX` and the formatted amount
      right-aligned at `amountX` on the cursor, which then moves down one
      row height. Returns the final cursor. */
  method DrawColumn(c: Canvas, row: Row, b: Builtins, items: seq<Item>, labelX: int, amountX: int, y0: int)
    returns (y: int)
    modifies c
    ensures c.log == old(c.log) + Column(row, b, items, labelX, amountX, y0)
    ensures y == Cursor(row, b, items, y0)
  {
    y := y0;
    for i := 0 to |items|
      invariant c.log == old(c.log) + Column(row, b, items[..i], labelX, amountX, y0)
      invariant y == Cursor(row, b, items[..i], y0)
    {
      ColumnStep(row, b, items, i, labelX, amountX, y0);
      var amount := GetNum(row, items[i].column, b);
      if NonZero(amount) {
        c.DrawString(labelX, y, items[i].caption);
        c.DrawRightString(amountX, y, b.format(amount));
        y := y - 20;
      }
    }
    assert items[..|items|] == items;
  }

  /** `generate_pdf(row)`: draws the slip on a fresh canvas and returns
      what was drawn. Both columns start from the same cursor position and
      each keeps its own cursor. */
  method GeneratePdf(row: Row, b: Builtins) returns (doc: seq<Command>)
    ensures doc == Document(row, b)
  {
    var c := new Canvas();
    DrawBanner(c, row, b);
    var startY := DrawColumnTitles(c);
    assert c.log == Header(row, b);
    var y := DrawColumn(c, row, b, Earnings, 100, 350, startY);
    var dY := DrawColumn(c, row, b, Deductions, 450, 750, startY);
    var finalY := Min(y, dY) - 50;
    DrawTotals(c, row, b, finalY);
    doc := c.log;
  }

  /** The visible items are exactly the items with a non-zero amount, and
      there are never more of them than items. */
  lemma {:induction false} VisibleItems(row: Row, b: Builtins, items: seq<Item>)
    ensures |Visible(row, b, items)| <= |items|
    ensures forall it :: it in Visible(row, b, items) <==> it in items && NonZero(GetNum(row, it.column, b))
    decreases |items|
  {
    if items != [] {
      var init := items[..|items| - 1];
      VisibleItems(row, b, init);
      assert items == init + [items[|items| - 1]];
    }
  }

  /** Row k of a column is the k-th visible item: its label at `labelX`,
      its formatted amount right-aligned at `amountX`, both k row heights
      below `y0`. Nothing else is drawn in the column. */
  lemma {:induction false} ColumnRows(row: Row, b: Builtins, items: seq<Item>, labelX: int, amountX: int, y0: int)
    ensures var v := Visible(row, b, items);
      var col := Column(row, b, items, labelX, amountX, y0);
      |col| == 2 * |v| &&
      forall k :: 0 <= k < |v| ==>
        col[2 * k] == Str(labelX, y0 - RowHeight * k, v[k].caption) &&
        col[2 * k + 1] == RightStr(amountX, y0 - RowHeight * k, b.format(GetNum(row, v[k].column, b)))
    decreases |items|
  {
    if items != [] {
      ColumnRows(row, b, items[..|items| - 1], labelX, amountX, y0);
    }
  }

  /** Every command of a column is a label at `labelX` or an amount at
      `amountX`, between `y0` and one row above the column's final cursor. */
  lemma ColumnBand(row: Row, b: Builtins, items: seq<Item>, labelX: int, amountX: int, y0: int)
    ensures forall k :: 0 <= k < |Column(row, b, items, labelX, amountX, y0)| ==>
      var c := Column(row, b, items, labelX, amountX, y0)[k];
      ((c.Str? && c.x == labelX) || (c.RightStr? && c.x == amountX)) &&
      Cursor(row, b, items, y0) + RowHeight <= c.y <= y0
  {
    var v := Visible(row, b, items);
    var col := Column(row, b, items, labelX, amountX, y0);
    ColumnRows(row, b, items, labelX, amountX, y0);
    forall k | 0 <= k < |col|
      ensures (col[k].Str? && col[k].x == labelX) || (col[k].RightStr? && col[k].x == amountX)
      ensures Cursor(row, b, items, y0) + RowHeight <= col[k].y <= y0
    {
      var j := k / 2;
      assert j < |v|;
      assert k == 2 * j || k == 2 * j + 1;
    }
  }

  /** A column reads nothing of the row but its own items' amounts. */
  lemma {:induction false} ColumnReadsOnlyItsItems(r1: Row, r2: Row, b: Builtins, items: seq<Item>, labelX: int, amountX: int, y0: int)
    requires forall i :: 0 <= i < |items| ==> GetNum(r1, items[i].column, b) == GetNum(r2, items[i].column, b)
    ensures Visible(r1, b, items) == Visible(r2, b, items)
    ensures Column(r1, b, items, labelX, amountX, y0) == Column(r2, b, items, labelX, amountX, y0)
    decreases |items|
  {
    if items != [] {
      ColumnReadsOnlyItsItems(r1, r2, b, items[..|items| - 1], labelX, amountX, y0);
    }
  }

  /** Changing a cell no item of the column reads leaves the column and its
      cursor as they were. */
  lemma ColumnIgnoresOtherCells(row: Row, b: Builtins, items: seq<Item>, labelX: int, amountX: int, y0: int, col: string, cell: Cell)
    requires forall i :: 0 <= i < |items| ==> items[i].column != col
    ensures Column(row[col := cell], b, items, labelX, amountX, y0) == Column(row, b, items, labelX, amountX, y0)
    ensures Cursor(row[col := cell], b, items, y0) == Cursor(row, b, items, y0)
  {
    ColumnReadsOnlyItsItems(row[col := cell], row, b, items, labelX, amountX, y0);
  }

  /** No column is read by both tables. */
  lemma TablesShareNoColumn()
    ensures forall i, j :: 0 <= i < |Earnings| && 0 <= j < |Deductions| ==> Earnings[i].column != Deductions[j].column
  {
  }

  const Aggregates := {GrossColumn, TotalDeductionColumn, NetColumn}

  /** No line item reads one of the three aggregate fields. */
  lemma ItemsReadNoAggregate()
    ensures forall i :: 0 <= i < |Earnings| ==> Earnings[i].column !in Aggregates
    ensures forall j :: 0 <= j < |Deductions| ==> Deductions[j].column !in Aggregates
  {
  }

  /** Editing an earnings cell never moves or changes the deductions column. */
  lemma EarningsNeverMoveDeductions(row: Row, b: Builtins, i: nat, cell: Cell)
    requires i < |Earnings|
    ensures Column(row[Earnings[i].column := cell], b, Deductions, DedLabelX, DedAmountX, StartY)
      == Column(row, b, Deductions, DedLabelX, DedAmountX, StartY)
    ensures Cursor(row[Earnings[i].column := cell], b, Deductions, StartY) == Cursor(row, b, Deductions, StartY)
  {
    TablesShareNoColumn();
    ColumnIgnoresOtherCells(row, b, Deductions, DedLabelX, DedAmountX, StartY, Earnings[i].column, cell);
  }

  /** Editing a deductions cell never moves or changes the earnings column. */
  lemma DeductionsNeverMoveEarnings(row: Row, b: Builtins, j: nat, cell: Cell)
    requires j < |Deductions|
    ensures Column(row[Deductions[j].column := cell], b, Earnings, EarnLabelX, EarnAmountX, StartY)
      == Column(row, b, Earnings, EarnLabelX, EarnAmountX, StartY)
    ensures Cursor(row[Deductions[j].column := cell], b, Earnings, StartY) == Cursor(row, b, Earnings, StartY)
  {
    TablesShareNoColumn();
    ColumnIgnoresOtherCells(row, b, Earnings, EarnLabelX, EarnAmountX, StartY, Deductions[j].column, cell);
  }

  /** The totals block is a function of the three aggregate fields alone
      (and of where it is placed). */
  lemma TotalsReadOnlyAggregates(r1: Row, r2: Row, b: Builtins, finalY: int)
    requires forall col :: col in Aggregates ==> GetNum(r1, col, b) == GetNum(r2, col, b)
    ensures Totals(r1, b, finalY) == Totals(r2, b, finalY)
  {
    assert GrossColumn in Aggregates && TotalDeductionColumn in Aggregates && NetColumn in Aggregates;
  }

  /** The totals are never recomputed from the items: editing any line
      item's cell leaves the totals block unchanged. */
  lemma ItemEditKeepsTotals(row: Row, b: Builtins, col: string, cell: Cell, finalY: int)
    requires (exists i | 0 <= i < |Earnings| :: Earnings[i].column == col) ||
             (exists j | 0 <= j < |Deductions| :: Deductions[j].column == col)
    ensures Totals(row[col := cell], b, finalY) == Totals(row, b, finalY)
  {
    ItemsReadNoAggregate();
    assert col !in Aggregates;
    TotalsReadOnlyAggregates(row[col := cell], row, b, finalY);
  }

  /** Everything in the totals block lies strictly below every item row of
      either column. */
  lemma TotalsBelowItems(row: Row, b: Builtins)
    ensures var items := Column(row, b, Earnings, EarnLabelX, EarnAmountX, StartY)
                       + Column(row, b, Deductions, DedLabelX, DedAmountX, StartY);
      var totals := Totals(row, b, FinalY(row, b));
      forall i, j :: 0 <= i < |items| && 0 <= j < |totals| && Placed(items[i]) && Placed(totals[j]) ==>
        Top(totals[j]) < Bottom(items[i])
  {
    var e := Column(row, b, Earnings, EarnLabelX, EarnAmountX, StartY);
    var d := Column(row, b, Deductions, DedLabelX, DedAmountX, StartY);
    ColumnBand(row, b, Earnings, EarnLabelX, EarnAmountX, StartY);
    ColumnBand(row, b, Deductions, DedLabelX, DedAmountX, StartY);
    var fy := FinalY(row, b);
    assert fy + TotalsGap <= Cursor(row, b, Earnings, StartY);
    assert fy + TotalsGap <= Cursor(row, b, Deductions, StartY);
    forall i | 0 <= i < |e + d|
      ensures Placed((e + d)[i]) && fy + RuleAbove < Bottom((e + d)[i])
    {
      if i < |e| {
        assert (e + d)[i] == e[i];
        assert Cursor(row, b, Earnings, StartY) + RowHeight <= e[i].y;
      } else {
        assert (e + d)[i] == d[i - |e|];
        assert Cursor(row, b, Deductions, StartY) + RowHeight <= d[i - |e|].y;
      }
    }
  }

  /** A command that stays within the A4 page. */
  predicate OnPage(c: Command)
  {
    Placed(c) ==> 0 <= Left(c) && Right(c) <= PageWidth && 0 <= Bottom(c) && Top(c) <= PageHeight
  }

  predicate AllOnPage(cs: seq<Command>)
  {
    forall k :: 0 <= k < |cs| ==> OnPage(cs[k])
  }

  lemma AllOnPageAppend(s: seq<Command>, t: seq<Command>)
    requires AllOnPage(s) && AllOnPage(t)
    ensures AllOnPage(s + t)
  {
    forall k | 0 <= k < |s + t| ensures OnPage((s + t)[k]) {
      if k < |s| {
        assert (s + t)[k] == s[k];
      } else {
        assert (s + t)[k] == t[k - |s|];
      }
    }
  }

  lemma ColumnOnPage(row: Row, b: Builtins, items: seq<Item>, labelX: int, amountX: int, y0: int)
    requires 0 <= labelX <= PageWidth && 0 <= amountX <= PageWidth
    requires y0 <= PageHeight && RowHeight * |items| <= y0
    ensures AllOnPage(Column(row, b, items, labelX, amountX, y0))
  {
    VisibleItems(row, b, items);
    ColumnBand(row, b, items, labelX, amountX, y0);
  }

  lemma HeaderOnPage(row: Row, b: Builtins)
    ensures AllOnPage(Header(row, b))
  {
    var h := Header(row, b);
    forall k | 0 <= k < |h| ensures OnPage(h[k]) {
    }
  }

  lemma TotalsOnPage(row: Row, b: Builtins, finalY: int)
    requires NetDrop <= finalY <= PageHeight - RuleAbove
    ensures AllOnPage(Totals(row, b, finalY))
  {
    var t := Totals(row, b, finalY);
    forall k | 0 <= k < |t| ensures OnPage(t[k]) {
    }
  }

  /** However many items are visible, the totals baseline stays between
      5.2in and 8in from the bottom of the page. */
  lemma FinalYRange(row: Row, b: Builtins)
    ensures StartY - RowHeight * |Deductions| - TotalsGap <= FinalY(row, b) <= StartY - TotalsGap
  {
    VisibleItems(row, b, Earnings);
    VisibleItems(row, b, Deductions);
  }

  /** The fixed tables keep the slip on one A4 page: even with every item
      visible, nothing is drawn off the page. */
  lemma DocumentFitsPage(row: Row, b: Builtins)
    ensures AllOnPage(Document(row, b))
  {
    var h := Header(row, b);
    var e := Column(row, b, Earnings, EarnLabelX, EarnAmountX, StartY);
    var d := Column(row, b, Deductions, DedLabelX, DedAmountX, StartY);
    var t := Totals(row, b, FinalY(row, b));
    ColumnOnPage(row, b, Earnings, EarnLabelX, EarnAmountX, StartY);
    ColumnOnPage(row, b, Deductions, DedLabelX, DedAmountX, StartY);
    FinalYRange(row, b);
    HeaderOnPage(row, b);
    TotalsOnPage(row, b, FinalY(row, b));
    AllOnPageAppend(h, e);
    AllOnPageAppend(h + e, d);
    AllOnPageAppend(h + e + d, t);
  }

  /** Items that are all zero leave nothing visible. */
  lemma {:induction false} NothingVisible(row: Row, b: Builtins, items: seq<Item>)
    requires forall i :: 0 <= i < |items| ==> !NonZero(GetNum(row, items[i].column, b))
    ensures Visible(row, b, items) == []
    decreases |items|
  {
    if items != [] {
      NothingVisible(row, b, items[..|items| - 1]);
      assert !NonZero(GetNum(row, items[|items| - 1].column, b));
    }
  }

  /** A row whose line items are all zero (or absent) draws empty columns;
      the totals sit half an inch below the first row position and still
      show the three aggregate fields. */
  lemma AllZeroItemsDrawEmptyColumns(row: Row, b: Builtins)
    requires forall i :: 0 <= i < |Earnings| ==> !NonZero(GetNum(row, Earnings[i].column, b))
    requires forall j :: 0 <= j < |Deductions| ==> !NonZero(GetNum(row, Deductions[j].column, b))
    ensures Column(row, b, Earnings, EarnLabelX, EarnAmountX, StartY) == []
    ensures Column(row, b, Deductions, DedLabelX, DedAmountX, StartY) == []
    ensures Document(row, b) == Header(row, b) + Totals(row, b, StartY - TotalsGap)
  {
    NothingVisible(row, b, Earnings);
    NothingVisible(row, b, Deductions);
    ColumnRows(row, b, Earnings, EarnLabelX, EarnAmountX, StartY);
    ColumnRows(row, b, Deductions, DedLabelX, DedAmountX, StartY);
  }

  /** Items past position `n` that are all zero add nothing to the column
      and do not move its cursor. */
  lemma {:induction false} ZeroTailInvisible(row: Row, b: Builtins, items: seq<Item>, n: nat, labelX: int, amountX: int, y0: int)
    requires n <= |items|
    requires forall i :: n <= i < |items| ==> !NonZero(GetNum(row, items[i].column, b))
    ensures Visible(row, b, items) == Visible(row, b, items[..n])
    ensures Column(row, b, items, labelX, amountX, y0) == Column(row, b, items[..n], labelX, amountX, y0)
    decreases |items|
  {
    if |items| > n {
      var init := items[..|items| - 1];
      assert init[..n] == items[..n];
      forall i | n <= i < |init| ensures !NonZero(GetNum(row, init[i].column, b)) {
        assert init[i] == items[i];
      }
      ZeroTailInvisible(row, b, init, n, labelX, amountX, y0);
      assert !NonZero(GetNum(row, items[|items| - 1].column, b));
    } else {
      assert items[..n] == items;
    }
  }

  /** A column whose only non-zero item is its first draws one row, on `y0`. */
  lemma OnlyFirstVisible(row: Row, b: Builtins, items: seq<Item>, labelX: int, amountX: int, y0: int)
    requires |items| > 0 && NonZero(GetNum(row, items[0].column, b))
    requires forall i :: 1 <= i < |items| ==> !NonZero(GetNum(row, items[i].column, b))
    ensures Column(row, b, items, labelX, amountX, y0) ==
      [ Str(labelX, y0, items[0].caption), RightStr(amountX, y0, b.format(GetNum(row, items[0].column, b))) ]
    ensures Cursor(row, b, items, y0) == y0 - RowHeight
  {
    ZeroTailInvisible(row, b, items, 1, labelX, amountX, y0);
    assert items[..1] == [items[0]];
    assert [items[0]][..0] == [];
  }

  /** A rider paid only for pickups gets one earnings row on the first row
      position, an empty deductions column, and the totals one row height
      lower than for an empty slip (7.8in). */
  lemma OnlyPickupsPaid(row: Row, b: Builtins)
    requires NonZero(GetNum(row, "Rider Pickup Payment", b))
    requires forall i :: 1 <= i < |Earnings| ==> !NonZero(GetNum(row, Earnings[i].column, b))
    requires forall j :: 0 <= j < |Deductions| ==> !NonZero(GetNum(row, Deductions[j].column, b))
    ensures Column(row, b, Earnings, EarnLabelX, EarnAmountX, StartY) ==
      [ Str(EarnLabelX, StartY, "Pickups Payment"),
        RightStr(EarnAmountX, StartY, b.format(GetNum(row, "Rider Pickup Payment", b))) ]
    ensures Column(row, b, Deductions, DedLabelX, DedAmountX, StartY) == []
    ensures FinalY(row, b) == 780
  {
    OnlyFirstVisible(row, b, Earnings, EarnLabelX, EarnAmountX, StartY);
    NothingVisible(row, b, Deductions);
    ColumnRows(row, b, Deductions, DedLabelX, DedAmountX, StartY);
  }
}
