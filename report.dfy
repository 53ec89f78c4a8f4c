/** The PDF export of the ledger, `GET /history/pdf`: column widths
    proportional to fixed weights, then a table laid out top to bottom, a row
    at a time, starting a new page (with a caption and the column header
    again) whenever the next row would come too close to the bottom margin.
    Drawing is described by the sequence of things drawn and where; fonts,
    colours and clipping of long cells are not part of it. */
module Report {
  import opened Js
  import opened Schema
  import opened Ledger

  // ------------------------------------------------------------ page geometry (points)

  const PageWidth := 612        // US Letter, the document's default size
  const PageHeight := 792
  const Margin := 48
  const ContentWidth := PageWidth - 2 * Margin
  const RowHeight := 22
  const HeaderHeight := 26
  /** Space kept free under the last row of a page. */
  const Safety := 10
  /** A continued page: its caption sits this far below the top margin... */
  const CaptionOffset := 18
  /** ...and its header this far below the caption. */
  const CaptionHeight := 16

  // ------------------------------------------------------------ columns

  datatype Field = NameField | TypeField | PhoneField | GenderField | ServiceField | DateField | TimeField

  datatype Column = Column(field: Field, title: string, weight: real)

  const Columns: seq<Column> := [
    Column(NameField, "Name", 0.22),
    Column(TypeField, "Type", 0.10),
    Column(PhoneField, "Phone", 0.16),
    Column(GenderField, "Gender", 0.10),
    Column(ServiceField, "Service", 0.22),
    Column(DateField, "Date", 0.10),
    Column(TimeField, "Check-in", 0.10)
  ]

  function Weights(cols: seq<Column>): (ws: seq<real>)
    ensures |ws| == |cols| && forall i :: 0 <= i < |cols| ==> ws[i] == cols[i].weight
  {
    if cols == [] then [] else [cols[0].weight] + Weights(cols[1..])
  }

  function Sum(xs: seq<real>): real
  {
    if xs == [] then 0.0 else Sum(xs[..|xs| - 1]) + xs[|xs| - 1]
  }

  /** The widths of the columns: each its share of the total weight of the
      content width. They add up to the content width. */
  method ColumnWidths(weights: seq<real>, width: real) returns (px: seq<real>)
    requires Sum(weights) > 0.0
    ensures |px| == |weights|
    ensures forall i :: 0 <= i < |px| ==> px[i] == weights[i] / Sum(weights) * width
    ensures Sum(px) == width
  {
    var total := Sum(weights);
    var widths := new real[|weights|];
    for i := 0 to |weights|
      invariant forall j :: 0 <= j < i ==> widths[j] == weights[j] / total * width
    {
      widths[i] := weights[i] / total * width;
    }
    px := widths[..];
    ScaledSum(weights, px, total, width);
  }

  lemma {:induction false} ScaledSum(ws: seq<real>, px: seq<real>, total: real, width: real)
    requires total > 0.0 && |px| == |ws|
    requires forall i :: 0 <= i < |px| ==> px[i] == ws[i] / total * width
    ensures Sum(px) == Sum(ws) / total * width
  {
    if px != [] {
      var n := |px| - 1;
      ScaledSum(ws[..n], px[..n], total, width);
      calc {
        Sum(px);
        Sum(ws[..n]) / total * width + ws[n] / total * width;
        (Sum(ws[..n]) + ws[n]) / total * width;
      }
    }
  }

  /** The weights of the report's columns add up to one, so each column is
      its weight times the content width. */
  lemma ReportColumnsWeighOne()
    ensures Sum(Weights(Columns)) == 1.0
  {
    var ws := Weights(Columns);
    assert ws == [0.22, 0.10, 0.16, 0.10, 0.22, 0.10, 0.10];
    assert Sum([0.22]) == 0.22 by { assert [0.22][..0] == []; }
    assert Sum([0.22, 0.10]) == 0.32 by { assert [0.22, 0.10][..1] == [0.22]; }
    assert Sum([0.22, 0.10, 0.16]) == 0.48 by { assert [0.22, 0.10, 0.16][..2] == [0.22, 0.10]; }
    assert Sum([0.22, 0.10, 0.16, 0.10]) == 0.58 by { assert [0.22, 0.10, 0.16, 0.10][..3] == [0.22, 0.10, 0.16]; }
    assert Sum([0.22, 0.10, 0.16, 0.10, 0.22]) == 0.80 by { assert [0.22, 0.10, 0.16, 0.10, 0.22][..4] == [0.22, 0.10, 0.16, 0.10]; }
    assert Sum([0.22, 0.10, 0.16, 0.10, 0.22, 0.10]) == 0.90 by { assert [0.22, 0.10, 0.16, 0.10, 0.22, 0.10][..5] == [0.22, 0.10, 0.16, 0.10, 0.22]; }
    assert ws[..6] == [0.22, 0.10, 0.16, 0.10, 0.22, 0.10];
  }

  /** The report's own columns: since the weights sum to one, each column
      is its weight times the 516-point content width. */
  method ReportColumnWidths() returns (px: seq<real>)
    ensures |px| == |Columns|
    ensures forall i :: 0 <= i < |px| ==> px[i] == Columns[i].weight * (ContentWidth as real)
    ensures px == [113.52, 51.6, 82.56, 51.6, 113.52, 51.6, 51.6]
  {
    ReportColumnsWeighOne();
    px := ColumnWidths(Weights(Columns), ContentWidth as real);
  }

  // ------------------------------------------------------------ cells

  /** `String(val || '—')` for an already formatted cell. */
  function Cell(s: string): (r: string)
    ensures r != ""
    ensures s != "" ==> r == s
  {
    if s == "" then "—" else s
  }

  /** A ledger row's cells in column order; `date` and `time` stand for the
      locale formatting of the service date and check-in time. */
  function Cells(e: Entry, date: Date -> string, time: Timestamp -> string): (r: seq<string>)
    ensures |r| == |Columns|
    ensures forall i :: 0 <= i < |r| ==> r[i] != ""
    ensures r[1] == KindLabel(e.kind)
  {
    [Cell(e.name), Cell(KindLabel(e.kind)), Cell(e.phone), Cell(e.gender), Cell(e.service),
     Cell(date(e.serviceDate)), Cell(time(e.checkInTime))]
  }

  // ------------------------------------------------------------ what is drawn

  datatype Draw =
    | Header(page: nat, y: int)                                        // drawHeader
    | Caption(page: nat, y: int)                                       // "(continued)" line of a new page
    | Row(page: nat, y: int, index: nat, even: bool, cells: seq<string>) // drawRow
    | NoRecords                                                        // the empty-ledger message

  /** `remainingSpace`. */
  function RemainingSpace(y: int): int
  {
    PageHeight - Margin - y
  }

  /** A row starting at `y` may be drawn on the current page. */
  predicate Fits(y: int)
  {
    RemainingSpace(y) >= RowHeight + Safety
  }

  /** Where the next thing goes under `d`. */
  function Bottom(d: Draw): int
  {
    match d
    case Header(_, y) => y + HeaderHeight
    case Caption(_, y) => y + CaptionHeight
    case Row(_, y, _, _, _) => y + RowHeight
    case NoRecords => 0
  }

  /** What may be drawn right after `prev`: a row under a header or a row
      on the same page, when it fits, with its page-local index and
      shading; a new page's caption when the next row would not fit; the
      header right under a caption; the empty-ledger message under the
      first header. */
  predicate Follows(prev: Draw, next: Draw)
  {
    match next
    case Row(p, y, i, even, _) =>
      && (prev.Header? || prev.Row?)
      && prev.page == p && y == Bottom(prev) && Fits(y)
      && i == (if prev.Row? then prev.index + 1 else 0)
      && even == (i % 2 == 0)
    case Caption(p, y) =>
      && (prev.Header? || prev.Row?)
      && p == prev.page + 1 && y == Margin + CaptionOffset && !Fits(Bottom(prev))
    case Header(p, y) =>
      prev.Caption? && prev.page == p && y == Bottom(prev)
    case NoRecords =>
      prev.Header? && prev.page == 1
  }

  /** Starts with the first header at `startY`, and each step follows the
      one before. */
  predicate Chained(events: seq<Draw>, startY: int)
  {
    && |events| >= 1 && events[0] == Header(1, startY)
    && forall k :: 1 <= k < |events| ==> Follows(events[k - 1], events[k])
  }

  /** A finished layout: it ends with a row or with the empty-ledger
      message, so no page ends with a caption or a lone header. */
  predicate LaidOut(events: seq<Draw>, startY: int)
  {
    Chained(events, startY) && (events[|events| - 1].Row? || events[|events| - 1].NoRecords?)
  }

  /** The cells of the rows drawn, in drawing order. */
  function RowsDrawn(events: seq<Draw>): seq<seq<string>>
  {
    if events == [] then []
    else
      var last := events[|events| - 1];
      RowsDrawn(events[..|events| - 1]) + (if last.Row? then [last.cells] else [])
  }

  /** The cells of `rows`, in order. */
  function CellsOf(rows: seq<Entry>, date: Date -> string, time: Timestamp -> string): (r: seq<seq<string>>)
    ensures |r| == |rows|
    ensures forall i :: 0 <= i < |rows| ==> r[i] == Cells(rows[i], date, time)
  {
    if rows == [] then []
    else CellsOf(rows[..|rows| - 1], date, time) + [Cells(rows[|rows| - 1], date, time)]
  }

  lemma ChainAppend(events: seq<Draw>, startY: int, d: Draw)
    requires Chained(events, startY) && Follows(events[|events| - 1], d)
    ensures Chained(events + [d], startY)
    ensures RowsDrawn(events + [d]) == RowsDrawn(events) + (if d.Row? then [d.cells] else [])
  {
    assert (events + [d])[..|events|] == events;
  }

  /** A row's place on the page: the page it is on, where it starts and its
      page-local index. */
  datatype Pen = Pen(page: nat, y: int, rowIndex: nat)

  /** The loop's state after the last thing drawn. */
  predicate PenAfter(events: seq<Draw>, pen: Pen)
    requires |events| >= 1
  {
    var last := events[|events| - 1];
    && (last.Header? || last.Row?)
    && pen.y == Bottom(last) && pen.page == last.page
    && pen.rowIndex == (if last.Row? then last.index + 1 else 0)
  }

  /** `doc.addPage()` and what follows it: the caption and the header of
      the new page. */
  method StartPage(events: seq<Draw>, startY: int, pen: Pen) returns (events': seq<Draw>, pen': Pen)
    requires Chained(events, startY) && PenAfter(events, pen) && NoRecords !in events
    requires !Fits(pen.y)
    ensures Chained(events', startY) && PenAfter(events', pen') && NoRecords !in events'
    ensures pen' == Pen(pen.page + 1, Margin + CaptionOffset + CaptionHeight + HeaderHeight, 0)
    ensures RowsDrawn(events') == RowsDrawn(events)
  {
    var page := pen.page + 1;
    var curY := Margin + CaptionOffset;
    ChainAppend(events, startY, Caption(page, curY));
    events' := events + [Caption(page, curY)];
    curY := curY + CaptionHeight;
    ChainAppend(events', startY, Header(page, curY));
    events' := events' + [Header(page, curY)];
    curY := curY + HeaderHeight;
    pen' := Pen(page, curY, 0);
  }

  /** One turn of the loop: a new page first when the row would not fit,
      then the row. */
  method DrawNext(events: seq<Draw>, startY: int, pen: Pen, cells: seq<string>)
    returns (events': seq<Draw>, pen': Pen)
    requires Chained(events, startY) && PenAfter(events, pen) && NoRecords !in events
    ensures Chained(events', startY) && PenAfter(events', pen') && NoRecords !in events'
    ensures events'[|events'| - 1].Row?
    ensures RowsDrawn(events') == RowsDrawn(events) + [cells]
  {
    events', pen' := events, pen;
    if RemainingSpace(pen.y) < RowHeight + Safety {
      events', pen' := StartPage(events, startY, pen);
    }
    var row := Row(pen'.page, pen'.y, pen'.rowIndex, pen'.rowIndex % 2 == 0, cells);
    ChainAppend(events', startY, row);
    events' := events' + [row];
    pen' := Pen(pen'.page, pen'.y + RowHeight, pen'.rowIndex + 1);
  }

  /** The table of the export: every ledger row drawn once, in order. */
  method Render(rows: seq<Entry>, date: Date -> string, time: Timestamp -> string, startY: int)
    returns (events: seq<Draw>)
    ensures LaidOut(events, startY)
    ensures RowsDrawn(events) == CellsOf(rows, date, time)
    ensures rows == [] ==> events == [Header(1, startY), NoRecords]
    ensures NoRecords in events <==> rows == []
  {
    events := [Header(1, startY)];
    var pen := Pen(1, startY + HeaderHeight, 0);
    assert RowsDrawn(events) == [] by { assert events[..0] == []; }
    for n := 0 to |rows|
      invariant Chained(events, startY) && PenAfter(events, pen) && NoRecords !in events
      invariant n > 0 ==> events[|events| - 1].Row?
      invariant n == 0 ==> events == [Header(1, startY)]
      invariant RowsDrawn(events) == CellsOf(rows[..n], date, time)
    {
      assert rows[..n + 1][..n] == rows[..n];
      events, pen := DrawNext(events, startY, pen, Cells(rows[n], date, time));
    }
    assert rows[..|rows|] == rows;
    if |rows| == 0 {
      ChainAppend(events, startY, NoRecords);
      events := events + [NoRecords];
    }
  }

  // ------------------------------------------------------------ properties of a layout

  /** Where each kind of thing sits: the first header at `startY`, every
      other page's caption and header at fixed heights under the top
      margin, and a row `index` rows below its page's header. */
  predicate Placed(d: Draw, startY: int)
  {
    match d
    case Header(p, y) => p >= 1 && y == HeaderTop(p, startY)
    case Caption(p, y) => p >= 2 && y == Margin + CaptionOffset
    case Row(p, y, i, _, _) => p >= 1 && y == HeaderTop(p, startY) + HeaderHeight + RowHeight * i
    case NoRecords => true
  }

  function HeaderTop(page: nat, startY: int): int
  {
    if page <= 1 then startY else Margin + CaptionOffset + CaptionHeight
  }

  lemma {:induction false} EveryDrawPlaced(events: seq<Draw>, startY: int, k: nat)
    requires Chained(events, startY) && k < |events|
    ensures Placed(events[k], startY)
  {
    if k > 0 {
      EveryDrawPlaced(events, startY, k - 1);
      assert Follows(events[k - 1], events[k]);
    }
  }

  /** Rows never reach into the space kept free at the bottom of a page. */
  lemma RowsStayAboveBottom(events: seq<Draw>, startY: int, k: nat)
    requires Chained(events, startY) && k < |events| && events[k].Row?
    ensures events[k].y + RowHeight <= PageHeight - Margin - Safety
  {
    assert k > 0 && Follows(events[k - 1], events[k]);
  }

  /** The first row under every header is shaded as even, and shading
      alternates down a page. */
  lemma ShadingRestartsEachPage(events: seq<Draw>, startY: int, k: nat)
    requires Chained(events, startY) && 0 < k < |events| && events[k].Row?
    ensures events[k - 1].Header? ==> events[k].index == 0 && events[k].even
    ensures events[k - 1].Row? ==> events[k].even == !events[k - 1].even
  {
    assert Follows(events[k - 1], events[k]);
    if k > 1 {
      assert Follows(events[k - 2], events[k - 1]);
    }
  }

  /** A new page begins exactly when the next row would not fit under what
      was drawn last. */
  lemma BreakExactlyWhenFull(events: seq<Draw>, startY: int, k: nat)
    requires Chained(events, startY) && 0 < k < |events|
    requires events[k].Row? || events[k].Caption?
    ensures events[k].Caption? <==> !Fits(Bottom(events[k - 1]))
  {
    assert Follows(events[k - 1], events[k]);
  }

  /** A continued page holds at most 28 rows, and it is left for a new page
      only once all 28 are drawn. */
  lemma {:induction false} ContinuedPageHolds28(events: seq<Draw>, startY: int, k: nat)
    requires Chained(events, startY) && k < |events|
    ensures events[k].Row? && events[k].page >= 2 ==> events[k].index <= 27
    ensures events[k].Caption? && events[k - 1].Row? && events[k - 1].page >= 2 ==> events[k - 1].index == 27
  {
    EveryDrawPlaced(events, startY, k);
    if k > 0 {
      EveryDrawPlaced(events, startY, k - 1);
      assert Follows(events[k - 1], events[k]);
      if k > 1 {
        assert Follows(events[k - 2], events[k - 1]);
      }
    }
  }

  // ------------------------------------------------------------ the route

  datatype ExportResponse =
    | ExportUnauthorized           // 401
    | Pdf(events: seq<Draw>)       // 200, application/pdf
    | ExportFailed                 // 500 "PDF generation failed"

  /** `GET /history/pdf` behind the PIN gate: the ledger query over the
      store, then the document; `queryFails` says whether the query fails. */
  method Export(store: Store, queryPin: JsValue, bodyPin: JsValue, queryFails: bool,
                date: Date -> string, time: Timestamp -> string, startY: int)
    returns (resp: ExportResponse)
    ensures resp.ExportUnauthorized? <==> !Granted(queryPin, bodyPin)
    ensures resp.ExportFailed? <==> Granted(queryPin, bodyPin) && queryFails
    ensures resp.Pdf? ==> LaidOut(resp.events, startY) && RowsDrawn(resp.events) == CellsOf(store.Ledger(), date, time)
  {
    if !Granted(queryPin, bodyPin) {
      return ExportUnauthorized;
    }
    if queryFails {
      return ExportFailed;
    }
    var rows := store.Ledger();
    var events := Render(rows, date, time, startY);
    resp := Pdf(events);
  }
}
