/**
 The printed receipt: every amount is rescaled and printed on its own, the line subtotal
 recomputed with the receipt's copy of the sales arithmetic. Read back by the money
 parser, what is printed adds up.
 */
module Receipt {
  import opened Results
  import opened Identifiers
  import opened Decimal
  import opened DecimalText
  import opened Sales
  import opened Payments
  import opened Pos
  import PosStore

  datatype Line = Line(unitPrice: string, quantity: string, subtotal: string, discount: string, total: string)

  function LineText(it: Item): Line {
    Line(ScaledIntToString(it.price, 2), ScaledIntToString(it.quantity, 3), ScaledIntToString(LineOf(it), 2),
         ScaledIntToString(it.discount, 2), ScaledIntToString(it.total, 2))
  }

  function Lines(items: seq<Item>): seq<Line> {
    seq(|items|, i requires 0 <= i < |items| => LineText(items[i]))
  }

  /** The loop over the rows, whatever representations the driver returns. */
  method ItemLines(decode: (int, nat) -> Numeric, items: seq<Item>) returns (lines: seq<Line>)
    requires PosStore.Decodes(decode)
    ensures lines == Lines(items)
  {
    lines := [];
    for i := 0 to |items|
      invariant lines == Lines(items)[..i]
    {
      var it := items[i];
      var price, quantity := decode(it.price, 2), decode(it.quantity, 3);
      ReadsExactly(price, it.price, 2);
      ReadsExactly(quantity, it.quantity, 3);
      ReadsExactly(decode(it.discount, 2), it.discount, 2);
      ReadsExactly(decode(it.total, 2), it.total, 2);
      MultiplicationsAgree(price, it.price, quantity, it.quantity);
      var subtotal := MultiplyThenRound(price, quantity).value;
      var line := Line(NumericToString(price, 2).value, NumericToString(quantity, 3).value,
                       NumericToString(subtotal, 2).value,
                       NumericToString(decode(it.discount, 2), 2).value, NumericToString(decode(it.total, 2), 2).value);
      lines := lines + [line];
    }
  }

  /** The cents a printed amount stands for, as the money parser reads it. */
  function Cents(text: string): int {
    var n := ParseMoney(text);
    if n.Ok? && ScaledInt(n.value, 2).Ok? then ScaledInt(n.value, 2).value else 0
  }

  lemma CentsOfPrinted(v: nat)
    ensures Cents(ScaledIntToString(v, 2)) == v
  {
    MoneyRoundTrip(v);
  }

  /** The sum of one printed column. */
  function ColumnSum(texts: seq<string>): int {
    if texts == [] then 0 else ColumnSum(texts[..|texts| - 1]) + Cents(texts[|texts| - 1])
  }

  function Subtotals(lines: seq<Line>): seq<string> {
    seq(|lines|, i requires 0 <= i < |lines| => lines[i].subtotal)
  }

  function Discounts(lines: seq<Line>): seq<string> {
    seq(|lines|, i requires 0 <= i < |lines| => lines[i].discount)
  }

  function Totals(lines: seq<Line>): seq<string> {
    seq(|lines|, i requires 0 <= i < |lines| => lines[i].total)
  }

  function Amounts(rows: seq<Payment>): seq<string> {
    seq(|rows|, i requires 0 <= i < |rows| => ScaledIntToString(rows[i].details.amount, 2))
  }

  lemma ColumnSumNext(texts: seq<string>, longer: seq<string>, v: nat)
    requires longer == texts + [ScaledIntToString(v, 2)]
    ensures ColumnSum(longer) == ColumnSum(texts) + v
  {
    CentsOfPrinted(v);
    assert longer[..|longer| - 1] == texts;
  }

  /** The columns of the lines but the last, and the last line's text. */
  lemma ColumnsStep(items: seq<Item>)
    requires items != []
    ensures var init, last := Lines(items[..|items| - 1]), LineText(items[|items| - 1]);
      && Subtotals(Lines(items)) == Subtotals(init) + [last.subtotal]
      && Discounts(Lines(items)) == Discounts(init) + [last.discount]
      && Totals(Lines(items)) == Totals(init) + [last.total]
  {
  }

  lemma {:induction false} SubtotalsSum(items: seq<Item>)
    requires forall i :: 0 <= i < |items| ==> LineOk(items[i])
    ensures ColumnSum(Subtotals(Lines(items))) == SubtotalSum(items)
  {
    if items != [] {
      var init, last := items[..|items| - 1], items[|items| - 1];
      SubtotalsSum(init);
      assert LineOk(last);
      ColumnsStep(items);
      ColumnSumNext(Subtotals(Lines(init)), Subtotals(Lines(items)), LineOf(last));
    }
  }

  lemma {:induction false} DiscountsSum(items: seq<Item>)
    requires forall i :: 0 <= i < |items| ==> LineOk(items[i])
    ensures ColumnSum(Discounts(Lines(items))) == DiscountSum(items)
  {
    if items != [] {
      var init, last := items[..|items| - 1], items[|items| - 1];
      DiscountsSum(init);
      assert LineOk(last);
      ColumnsStep(items);
      ColumnSumNext(Discounts(Lines(init)), Discounts(Lines(items)), last.discount);
    }
  }

  lemma {:induction false} TotalsSum(items: seq<Item>)
    requires forall i :: 0 <= i < |items| ==> LineOk(items[i])
    ensures ColumnSum(Totals(Lines(items))) == TotalSum(items)
  {
    if items != [] {
      var init, last := items[..|items| - 1], items[|items| - 1];
      TotalsSum(init);
      assert LineOk(last);
      ColumnsStep(items);
      ColumnSumNext(Totals(Lines(init)), Totals(Lines(items)), last.total);
    }
  }

  /** On every receipt of a sale the commands can leave, each printed line's subtotal less
      its discount is its total, each printed column adds up to the printed total below
      it, and printed quantities read back as sold. */
  lemma PrintedLinesAddUp(s: Sale)
    requires SaleOk(s)
    ensures var lines := Lines(s.items);
      && (forall i :: 0 <= i < |lines| ==>
            Cents(lines[i].subtotal) - Cents(lines[i].discount) == Cents(lines[i].total)
            && ParseQuantity(lines[i].quantity) == Ok(FromScaled(s.items[i].quantity, 3)))
      && ColumnSum(Subtotals(lines)) == Cents(ScaledIntToString(s.subtotal, 2))
      && ColumnSum(Discounts(lines)) == Cents(ScaledIntToString(s.discount, 2))
      && ColumnSum(Totals(lines)) == Cents(ScaledIntToString(s.total, 2))
  {
    var lines := Lines(s.items);
    forall i | 0 <= i < |lines|
      ensures Cents(lines[i].subtotal) - Cents(lines[i].discount) == Cents(lines[i].total)
      ensures ParseQuantity(lines[i].quantity) == Ok(FromScaled(s.items[i].quantity, 3))
    {
      var it := s.items[i];
      assert LineOk(it);
      CentsOfPrinted(LineOf(it));
      CentsOfPrinted(it.discount);
      CentsOfPrinted(it.total);
      QuantityRoundTrip(it.quantity);
    }
    SaleOkPassesCheckout(s);
    SubtotalsSum(s.items);
    DiscountsSum(s.items);
    TotalsSum(s.items);
    TotalsAddUp(s.items);
    CentsOfPrinted(s.subtotal);
    CentsOfPrinted(s.discount);
    CentsOfPrinted(s.total);
  }

  /** The thousandths a printed quantity stands for. */
  function Thousandths(text: string): int {
    var n := ParseQuantity(text);
    if n.Ok? && ScaledInt(n.value, 3).Ok? then ScaledInt(n.value, 3).value else 0
  }

  /** Each printed line can be checked by hand: it shows the item's own price, quantity,
      discount and total, and the printed price times the printed quantity, half a cent
      rounded up, is the printed subtotal. */
  lemma PrintedLineChecks(s: Sale, i: nat)
    requires SaleOk(s) && i < |s.items|
    ensures |Lines(s.items)| == |s.items|
    ensures var line, it := Lines(s.items)[i], s.items[i];
      && Cents(line.unitPrice) == it.price && Thousandths(line.quantity) == it.quantity
      && Cents(line.discount) == it.discount && Cents(line.total) == it.total
      && Cents(line.subtotal) == (2 * (Cents(line.unitPrice) * Thousandths(line.quantity)) + 1000) / 2000
  {
    var it := s.items[i];
    assert LineOk(it);
    CentsOfPrinted(it.price);
    CentsOfPrinted(it.discount);
    CentsOfPrinted(it.total);
    CentsOfPrinted(LineOf(it));
    QuantityRoundTrip(it.quantity);
    assert ScaledInt(FromScaled(it.quantity, 3), 3) == Ok(it.quantity);
    MulMono(0, it.price, it.quantity);
    RoundDivHalfUp(it.price * it.quantity, 1000);
  }

  lemma AmountsStep(rows: seq<Payment>)
    requires rows != []
    ensures var init, last := rows[..|rows| - 1], rows[|rows| - 1].details;
      && Amounts(rows) == Amounts(init) + [ScaledIntToString(last.amount, 2)]
      && DetailsOf(rows) == DetailsOf(init) + [last]
  {
  }

  lemma {:induction false} AmountsSum(rows: seq<Payment>)
    requires forall i :: 0 <= i < |rows| ==> SettledOk(rows[i].details)
    ensures ColumnSum(Amounts(rows)) == AmountSum(DetailsOf(rows))
  {
    if rows != [] {
      var init, last := rows[..|rows| - 1], rows[|rows| - 1];
      AmountsSum(init);
      AmountsStep(rows);
      ColumnSumNext(Amounts(init), Amounts(rows), last.details.amount);
      PosStore.AmountSumAppend(DetailsOf(init), last.details);
    }
  }

  /** On the receipt of a completed sale of any reachable state the printed payments add
      up to the printed total. */
  lemma PrintedPaymentsAddUp(ops: seq<Op>, sale: Uuid)
    requires sale in Exec(EMPTY, ops).sales && Exec(EMPTY, ops).sales[sale].status == COMPLETED
    ensures var db := Exec(EMPTY, ops);
      ColumnSum(Amounts(PaymentsOf(db.payments, sale))) == Cents(ScaledIntToString(db.sales[sale].total, 2))
  {
    ReachableStatesAreGood(ops);
    PaymentsOfSettledSale(Exec(EMPTY, ops), sale);
  }

  lemma PaymentsOfSettledSale(db: Db, sale: Uuid)
    requires Inv(db) && sale in db.sales && db.sales[sale].status == COMPLETED
    ensures ColumnSum(Amounts(PaymentsOf(db.payments, sale))) == Cents(ScaledIntToString(db.sales[sale].total, 2))
  {
    var rows := PaymentsOf(db.payments, sale);
    assert SaleRecord(db, sale);
    forall i | 0 <= i < |rows| ensures SettledOk(rows[i].details) {
      assert DetailsOf(rows)[i] == rows[i].details;
    }
    AmountsSum(rows);
    SaleOkPassesCheckout(db.sales[sale]);
    CentsOfPrinted(db.sales[sale].total);
  }
}
