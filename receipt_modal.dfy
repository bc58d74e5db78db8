/** `ReceiptModal`: the PDF receipt drawn row by row with a vertical cursor
    that starts a new page when it runs past the bottom, the running total,
    and the total the dialog shows on screen. */
module ReceiptModal {
  import opened Values
  import opened Totals

  datatype ReceiptItem = ReceiptItem(designation: string, quantity: real, unitPrice: real)

  /** The props the dialog receives; absent header fields print as "N/A". */
  datatype ReceiptData = ReceiptData(clientName: Option<string>, typeName: Option<string>, date: Option<string>,
                                     items: seq<ReceiptItem>, status: Option<string>)

  /** A line of header text at a vertical position on the first page. */
  datatype Text = Text(y: int, s: string)

  /** One drawn item row: its page, its cursor position, the item and its printed subtotal. */
  datatype Row = Row(page: nat, y: int, item: ReceiptItem, subtotal: real)

  /** What happens after drawing, in order: the file is saved, `onClose`, then `onConfirm`. */
  datatype Effect = SaveFile | Close | Confirm

  datatype Pdf = Pdf(header: seq<Text>, rows: seq<Row>, pages: nat, totalY: int, total: real, effects: seq<Effect>)

  const Margin: int := 15
  const PageBottom: int := 270
  const RowHeight: int := 8
  /** Where the first item row is drawn: 15 + 12 + 10 + 8 + 8 + 10 + 5 + 5 + 6 + 4. */
  const FirstRowY: int := 83

  /** `value || 'N/A'`: an absent or empty string prints as "N/A". */
  function OrNA(v: Option<string>): (s: string)
    ensures v.Some? && v.value != "" ==> s == v.value
    ensures v.None? || v.value == "" ==> s == "N/A"
  {
    if v.Some? && v.value != "" then v.value else "N/A"
  }

  /** Whether drawing a row at `y` ends the page. */
  predicate EndsPage(y: int) { y + RowHeight > PageBottom }

  /** The cursor after a row: down one row height, back to the top margin of a new page past the bottom. */
  function NextCursor(y: int): int
  {
    if EndsPage(y) then Margin else y + RowHeight
  }

  /** The cursor at which row `k` is drawn (and, for `k` = the number of rows, the cursor after the last row). */
  function RowCursor(k: nat): int
  {
    if k == 0 then FirstRowY else NextCursor(RowCursor(k - 1))
  }

  /** How many rows among the first `k` pushed the cursor past the bottom, each adding one page. */
  function BreaksBefore(k: nat): nat
  {
    if k == 0 then 0 else BreaksBefore(k - 1) + (if EndsPage(RowCursor(k - 1)) then 1 else 0)
  }

  /** The page row `k` is drawn on (and, for `k` = the number of rows, the page count). */
  function RowPage(k: nat): nat
  {
    1 + BreaksBefore(k)
  }

  /** `unit_price * quantity`, the subtotal printed on an item's row. */
  function Amount(item: ReceiptItem): real
  {
    item.unitPrice * item.quantity
  }

  /** `items.reduce((sum, item) => sum + item.unit_price * item.quantity, acc)`. */
  function Reduce(items: seq<ReceiptItem>, acc: real): real
  {
    if |items| == 0 then acc else Reduce(items[1..], acc + Amount(items[0]))
  }

  /** The total the dialog shows on screen. */
  function OnScreenTotal(items: seq<ReceiptItem>): (r: real)
    ensures items == [] ==> r == 0.0
  {
    Reduce(items, 0.0)
  }

  /** The header block of `generatePDF`: title, the four fields with their "N/A" fallbacks,
      two rules and the column headings; returns the cursor where the first row goes. */
  method DrawHeader(data: ReceiptData) returns (header: seq<Text>, y: int)
    ensures y == FirstRowY
    ensures |header| == 9 && header[0] == Text(Margin, "Order Receipt")
    ensures header[1] == Text(37, "Date: " + OrNA(data.date))
    ensures header[2] == Text(45, "Client: " + OrNA(data.clientName))
    ensures header[3] == Text(53, "Product Type: " + OrNA(data.typeName))
    ensures header[4] == Text(63, "Status: " + OrNA(data.status))
    ensures header[5..] == [Text(73, "Designation"), Text(73, "Qty"), Text(73, "Unit Price"), Text(73, "Subtotal")]
    ensures forall t :: t in header ==> Margin <= t.y < FirstRowY
  {
    y := Margin;
    header := [Text(y, "Order Receipt")];
    y := y + 12;
    y := y + 10;
    header := header + [Text(y, "Date: " + OrNA(data.date))];
    y := y + 8;
    header := header + [Text(y, "Client: " + OrNA(data.clientName))];
    y := y + 8;
    header := header + [Text(y, "Product Type: " + OrNA(data.typeName))];
    y := y + 10;
    header := header + [Text(y, "Status: " + OrNA(data.status))];
    y := y + 5;
    y := y + 5;
    header := header + [Text(y, "Designation"), Text(y, "Qty"), Text(y, "Unit Price"), Text(y, "Subtotal")];
    y := y + 6;
    y := y + 4;
  }

  /** The item loop of `generatePDF`: one row per item at the cursor, a new page whenever the
      cursor passes the bottom, and the running total. */
  method DrawRows(items: seq<ReceiptItem>) returns (rows: seq<Row>, pages: nat, y: int, total: real)
    ensures |rows| == |items|
    ensures forall k :: 0 <= k < |rows| ==> rows[k] == Row(RowPage(k), RowCursor(k), items[k], Amount(items[k]))
    ensures forall k :: 0 <= k < |rows| ==> Margin <= rows[k].y <= PageBottom
    ensures y == RowCursor(|items|) && pages == RowPage(|items|)
    ensures Margin <= y <= PageBottom
    ensures total == OnScreenTotal(items)
  {
    y := FirstRowY;
    total := 0.0;
    pages := 1;
    rows := [];
    var i := 0;
    while i < |items|
      invariant 0 <= i <= |items|
      invariant |rows| == i
      invariant y == RowCursor(i) && pages == RowPage(i)
      invariant Margin <= y <= PageBottom
      invariant forall k :: 0 <= k < i ==> rows[k] == Row(RowPage(k), RowCursor(k), items[k], Amount(items[k]))
      invariant forall k :: 0 <= k < i ==> Margin <= rows[k].y <= PageBottom
      invariant Reduce(items[i..], total) == OnScreenTotal(items)
    {
      var item := items[i];
      var subtotal := Amount(item);
      assert items[i..][1..] == items[i + 1..];
      total := total + subtotal;
      rows := rows + [Row(pages, y, item, subtotal)];
      y := y + RowHeight;
      if y > PageBottom {
        pages := pages + 1;
        y := Margin;
      }
      i := i + 1;
    }
  }

  /** `generatePDF`: the header, the item rows, the total 20 units below the final cursor,
      then save the file, close the dialog and confirm. */
  method GeneratePdf(data: ReceiptData) returns (pdf: Pdf)
    ensures |pdf.rows| == |data.items|
    ensures forall k :: 0 <= k < |pdf.rows| ==> pdf.rows[k].item == data.items[k] && pdf.rows[k].subtotal == Amount(data.items[k])
    ensures forall k :: 0 <= k < |pdf.rows| ==> pdf.rows[k].y == RowCursor(k) && pdf.rows[k].page == RowPage(k)
    ensures forall k :: 0 <= k < |pdf.rows| ==> Margin <= pdf.rows[k].y <= PageBottom
    ensures |pdf.rows| > 0 ==> pdf.rows[0].y == FirstRowY && pdf.rows[0].page == 1
    ensures pdf.pages == RowPage(|data.items|)
    ensures pdf.total == OnScreenTotal(data.items)
    ensures pdf.totalY == RowCursor(|data.items|) + 20 && pdf.totalY <= PageBottom + 20
    ensures forall t :: t in pdf.header ==> Margin <= t.y < FirstRowY
    ensures pdf.effects == [SaveFile, Close, Confirm]
  {
    var header, start := DrawHeader(data);
    var rows, pages, y, total := DrawRows(data.items);
    y := y + 10;
    y := y + 10;
    pdf := Pdf(header, rows, pages, y, total, [SaveFile, Close, Confirm]);
  }

  /** Every row cursor lies between the top margin and the bottom of the page. */
  lemma {:induction false} RowCursorBounds(k: nat)
    ensures Margin <= RowCursor(k) <= PageBottom
  {
    if k > 0 {
      RowCursorBounds(k - 1);
    }
  }

  /** The first page holds 24 rows, at 83, 91, ..., 267. */
  lemma {:induction false} FirstPageRows(k: nat)
    requires k < 24
    ensures RowCursor(k) == FirstRowY + RowHeight * k && RowPage(k) == 1
  {
    if k > 0 {
      FirstPageRows(k - 1);
    }
  }

  /** Every later page holds 32 rows, at 15, 23, ..., 263: row 24 + 32 m + j is the j-th row of page m + 2. */
  lemma {:induction false} LaterPageRows(m: nat, j: nat)
    requires j < 32
    ensures RowCursor(24 + 32 * m + j) == Margin + RowHeight * j && RowPage(24 + 32 * m + j) == 2 + m
  {
    if j > 0 {
      LaterPageRows(m, j - 1);
    } else if m == 0 {
      FirstPageRows(23);
    } else {
      LaterPageRows(m - 1, 31);
      assert 24 + 32 * m + 0 - 1 == 24 + 32 * (m - 1) + 31;
    }
  }

  /** The page count of a receipt with `n` items: one page below 24 items, then one more per 32.
      With exactly 24 items the 24th row fills the first page and the total goes on a second one. */
  lemma PageCount(n: nat)
    ensures n < 24 ==> RowPage(n) == 1
    ensures n >= 24 ==> RowPage(n) == 2 + (n - 24) / 32
  {
    if n < 24 {
      FirstPageRows(n);
    } else {
      LaterPageRows((n - 24) / 32, (n - 24) % 32);
      assert 24 + 32 * ((n - 24) / 32) + (n - 24) % 32 == n;
    }
  }

  /** The receipt items read as ledger lines. */
  function LinesOf(items: seq<ReceiptItem>): (lines: seq<Line>)
    ensures |lines| == |items|
    ensures forall k :: 0 <= k < |items| ==>
              lines[k] == Line(items[k].designation, items[k].quantity, items[k].unitPrice)
  {
    seq(|items|, k requires 0 <= k < |items| => Line(items[k].designation, items[k].quantity, items[k].unitPrice))
  }

  /** Reducing from an accumulator adds the ledger subtotal of the items to it. */
  lemma {:induction false} ReduceIsSubtotal(items: seq<ReceiptItem>, acc: real)
    ensures Reduce(items, acc) == acc + Subtotal(LinesOf(items))
  {
    if |items| > 0 {
      var head := Line(items[0].designation, items[0].quantity, items[0].unitPrice);
      assert LinesOf(items) == [head] + LinesOf(items[1..]);
      SubtotalCons(head, LinesOf(items[1..]));
      ReduceIsSubtotal(items[1..], acc + Amount(items[0]));
    } else {
      assert LinesOf(items) == [];
    }
  }

  /** The receipt's total (on screen and in the PDF) is the ledger subtotal of the same items. */
  lemma TotalMatchesLedger(items: seq<ReceiptItem>)
    ensures OnScreenTotal(items) == Subtotal(LinesOf(items))
  {
    ReduceIsSubtotal(items, 0.0);
  }
}
