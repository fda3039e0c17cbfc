/** A sale followed by the return of everything it sold. */
module SaleReturns {
  import opened Wrappers
  import opened Tables
  import opened StockLog
  import opened Checkout
  import opened Bookkeeping
  import opened ProductStock
  import opened Sales
  import opened Returns

  /** The request that returns every unit of the given lines, the first of which is row start. */
  function EverythingFrom(start: Id, lines: seq<PreparedLine>): (items: seq<ReturnItem>)
    ensures |items| == |lines|
    ensures forall i | 0 <= i < |lines| :: items[i] == ReturnItem(start + i, lines[i].quantity)
  {
    seq(|lines|, i requires 0 <= i < |lines| => ReturnItem(start + i, lines[i].quantity))
  }

  function AsReturns(start: Id, lines: seq<PreparedLine>): (ps: seq<PreparedReturn>)
    ensures |ps| == |lines|
    ensures forall i | 0 <= i < |lines| :: ps[i] == PreparedReturn(start + i, lines[i].product, lines[i].unitPrice, lines[i].quantity)
  {
    seq(|lines|, i requires 0 <= i < |lines| => PreparedReturn(start + i, lines[i].product, lines[i].unitPrice, lines[i].quantity))
  }

  /** A stored line is the prepared line of the sale, and none of it has come back. */
  predicate UntouchedAt(b: Books, sale: Id, row: Id, line: PreparedLine) {
    && row < |b.lines| && b.lines[row].sale == sale && b.lines[row].product == line.product
    && b.lines[row].unitPrice == line.unitPrice && b.lines[row].quantity == line.quantity > 0
    && Returned(b.returnLines, row) == 0
  }

  predicate Untouched(b: Books, sale: Id, start: Id, lines: seq<PreparedLine>) {
    forall i | 0 <= i < |lines| :: UntouchedAt(b, sale, start + i, lines[i])
  }

  lemma {:induction false} UntouchedTail(b: Books, sale: Id, start: Id, lines: seq<PreparedLine>)
    requires lines != [] && Untouched(b, sale, start, lines)
    ensures Untouched(b, sale, start + 1, lines[1..])
  {
    forall i | 0 <= i < |lines[1..]| ensures UntouchedAt(b, sale, start + 1 + i, lines[1..][i]) {
      assert UntouchedAt(b, sale, start + (i + 1), lines[i + 1]);
    }
  }

  lemma {:induction false} EverythingIsAccepted(b: Books, sale: Id, start: Id, lines: seq<PreparedLine>)
    requires Untouched(b, sale, start, lines)
    ensures PrepareReturns(b, sale, EverythingFrom(start, lines)) == Ok(AsReturns(start, lines))
    decreases |lines|
  {
    if lines != [] {
      assert EverythingFrom(start, lines)[1..] == EverythingFrom(start + 1, lines[1..]);
      assert AsReturns(start, lines) == [AsReturns(start, lines)[0]] + AsReturns(start + 1, lines[1..]);
      assert UntouchedAt(b, sale, start + 0, lines[0]);
      UntouchedTail(b, sale, start, lines);
      EverythingIsAccepted(b, sale, start + 1, lines[1..]);
    }
  }

  /** What the goods cost before any discount. */
  function Gross(lines: seq<PreparedLine>): Money {
    if lines == [] then 0 else lines[0].unitPrice * lines[0].quantity + Gross(lines[1..])
  }

  lemma {:induction false} ReturnsAreGross(start: Id, lines: seq<PreparedLine>)
    ensures ReturnTotal(AsReturns(start, lines)) == Gross(lines)
    decreases |lines|
  {
    if lines != [] {
      assert AsReturns(start, lines)[1..] == AsReturns(start + 1, lines[1..]);
      ReturnsAreGross(start + 1, lines[1..]);
    }
  }

  predicate Undiscounted(lines: seq<PreparedLine>) {
    forall i | 0 <= i < |lines| :: lines[i].discount == 0 || lines[i].unitPrice == 0
  }

  lemma {:induction false} SubtotalAgainstGross(products: map<Id, Product>, items: seq<Item>)
    requires PrepareLines(products, items, false).Ok?
    requires forall p | p in products :: products[p].salePrice >= 0
    ensures var lines := PrepareLines(products, items, false).value;
            0 <= Subtotal(lines) <= Gross(lines) && (Subtotal(lines) == Gross(lines) <==> Undiscounted(lines))
  {
    if items != [] {
      var lines := PrepareLines(products, items, false).value;
      var line := lines[0];
      SubtotalAgainstGross(products, items[1..]);
      assert line.unitPrice * line.quantity >= 0;
      assert line.unitPrice * line.quantity == 0 <==> line.unitPrice == 0;
      assert Undiscounted(lines) <==> (line.discount == 0 || line.unitPrice == 0) && Undiscounted(lines[1..]) by {
        assert forall i | 0 < i < |lines| :: lines[i] == lines[1..][i - 1];
      }
    }
  }

  ghost predicate FollowsSale(t: Tables, sale: SaleDto, back: ReturnDto) {
    && SaleSpec(t, sale).0.Ok? && RowsBelong(t.books)
    && back.sale == |t.books.sales|
    && back.items == EverythingFrom(|t.books.lines|, PrepareSale(t, sale).value.lines)
  }

  lemma {:induction false} NewLinesAreUntouched(t: Tables, sale: SaleDto)
    requires SaleSpec(t, sale).0.Ok? && RowsBelong(t.books)
    ensures Untouched(SaleSpec(t, sale).1.books, |t.books.sales|, |t.books.lines|, PrepareSale(t, sale).value.lines)
  {
    var lines := PrepareSale(t, sale).value.lines;
    BilledLinesAreSound(t, sale);
    var after, start := SaleSpec(t, sale).1.books, |t.books.lines|;
    forall i | 0 <= i < |lines| ensures UntouchedAt(after, |t.books.sales|, start + i, lines[i]) {
      NothingReturnedYet(t.books, start + i);
    }
  }

  lemma {:induction false} TakenAndPutBack(start: map<Shelf, int>, sold: map<Shelf, int>, end: map<Shelf, int>, branch: Id, ps: seq<Portion>)
    requires IsDeducted(start, sold, branch, ps) && IsRestored(sold, end, branch, ps)
    ensures end == start
  {
    forall s | s in start ensures end[s] == start[s] {
      assert sold[s] == start[s] - (if s.branch == branch then Wanted(ps, s.product) else 0);
    }
  }

  lemma {:induction false} EverythingComesBack(t: Tables, sale: SaleDto, back: ReturnDto)
    requires FollowsSale(t, sale, back)
    ensures var sold := SaleSpec(t, sale).1;
            && back.sale < |sold.books.sales| && sold.books.sales[back.sale].branch == sale.branch
            && PrepareReturns(sold.books, back.sale, back.items) == Ok(AsReturns(|t.books.lines|, PrepareSale(t, sale).value.lines))
            && Back(AsReturns(|t.books.lines|, PrepareSale(t, sale).value.lines)) == Portions(PrepareSale(t, sale).value.lines)
  {
    NewLinesAreUntouched(t, sale);
    EverythingIsAccepted(SaleSpec(t, sale).1.books, back.sale, |t.books.lines|, PrepareSale(t, sale).value.lines);
  }

  /** Selling and then returning everything, when the return is accepted, leaves every shelf as it was. */
  lemma {:induction false} FullReturnRestoresStock(t: Tables, sale: SaleDto, back: ReturnDto)
    requires FollowsSale(t, sale, back)
    requires ReturnSpec(SaleSpec(t, sale).1, back).0.Ok?
    ensures ReturnSpec(SaleSpec(t, sale).1, back).1.inventory.stock == t.inventory.stock
  {
    var sold := SaleSpec(t, sale).1;
    EverythingComesBack(t, sale, back);
    SaleTakesItsTotals(t, sale);
    ReturnRestoresItsTotals(sold, back);
    TakenAndPutBack(t.inventory.stock, sold.inventory.stock, ReturnSpec(sold, back).1.inventory.stock, sale.branch,
                    Portions(PrepareSale(t, sale).value.lines));
  }

  /**
   * The return of everything refunds list prices: it is never less than the sale's total, and
   * exceeds it exactly when a line or the invoice carried a discount that lowered the price.
   */
  lemma {:induction false} FullReturnIgnoresDiscounts(t: Tables, sale: SaleDto, back: ReturnDto)
    requires FollowsSale(t, sale, back) && StockInvariant(t)
    requires ReturnSpec(SaleSpec(t, sale).1, back).0.Ok?
    ensures var bill := PrepareSale(t, sale).value;
            var refund := ReturnSpec(SaleSpec(t, sale).1, back).0.value.total;
            && refund == Gross(bill.lines) >= bill.total
            && (refund == bill.total <==> Undiscounted(bill.lines) && Max(sale.discount, 0) == 0)
  {
    var lines := PrepareSale(t, sale).value.lines;
    EverythingComesBack(t, sale, back);
    ReturnsAreGross(|t.books.lines|, lines);
    SubtotalAgainstGross(t.products, sale.items);
  }
}
