/** The books of sales and returns: document numbers, the rows of a sale or return, and what appending them keeps. */
module Bookkeeping {
  import opened Wrappers
  import opened Sums
  import opened Tables
  import opened Checkout

  // ------------------------------------------------------------------
  // What the rows of one document add up to.

  function PaymentTo(sale: Id): SalePay -> Money { (p: SalePay) => if p.sale == sale then p.amount else 0 }
  function TotalIn(sale: Id): SaleLine -> Money { (l: SaleLine) => if l.sale == sale then l.total else 0 }
  function UnitsOf(line: Id): ReturnLine -> int { (r: ReturnLine) => if r.saleLine == line then r.quantity else 0 }
  function AmountIn(ret: Id): ReturnLine -> Money { (r: ReturnLine) => if r.ret == ret then r.amount else 0 }

  /** The payment rows of one sale, summed. */
  function PaidFor(payments: seq<SalePay>, sale: Id): Money { Sum(payments, PaymentTo(sale)) }

  /** The line totals of one sale, summed. */
  function LinesFor(lines: seq<SaleLine>, sale: Id): Money { Sum(lines, TotalIn(sale)) }

  /** Units of a sale line already returned: SUM(quantity) over its stored return lines. */
  function Returned(rows: seq<ReturnLine>, line: Id): int { Sum(rows, UnitsOf(line)) }

  /** The amounts of one return's lines, summed. */
  function RefundFor(rows: seq<ReturnLine>, ret: Id): Money { Sum(rows, AmountIn(ret)) }

  lemma {:induction false} PaidForRows(sale: Id, ts: seq<Tender>)
    ensures PaidFor(PaymentRows(sale, ts), sale) == SumTenders(ts)
    decreases |ts|
  {
    var rows := PaymentRows(sale, ts);
    if ts != [] {
      assert rows == [rows[0]] + PaymentRows(sale, ts[1..]);
      SumCons(rows[0], PaymentRows(sale, ts[1..]), PaymentTo(sale));
      PaidForRows(sale, ts[1..]);
    }
  }

  lemma {:induction false} LinesForRows(sale: Id, lines: seq<PreparedLine>)
    ensures LinesFor(SaleLines(sale, lines), sale) == Subtotal(lines)
    decreases |lines|
  {
    var rows := SaleLines(sale, lines);
    if lines != [] {
      assert rows == [rows[0]] + SaleLines(sale, lines[1..]);
      SumCons(rows[0], SaleLines(sale, lines[1..]), TotalIn(sale));
      LinesForRows(sale, lines[1..]);
    }
  }

  // ------------------------------------------------------------------
  // Appending documents.

  function AddSale(b: Books, header: Sale, lines: seq<SaleLine>, rows: seq<SalePay>): Books {
    b.(sales := b.sales + [header], lines := b.lines + lines, payments := b.payments + rows,
       counters := Bump(b.counters, header.invoice.counter))
  }

  function AddReturn(b: Books, header: SalesReturn, rows: seq<ReturnLine>): Books {
    b.(refunds := b.refunds + [header], returnLines := b.returnLines + rows,
       counters := Bump(b.counters, header.number.counter))
  }

  function FreshNumber(b: Books, c: Counter): Number { Number(c, NextValue(b.counters, c)) }

  predicate Used(b: Books, n: Number) { n.value < NextValue(b.counters, n.counter) }

  /** No two sales share an invoice number, no two returns a return number, and every number used lies behind its counter. */
  predicate NumbersAreUnique(b: Books) {
    && (forall i | 0 <= i < |b.sales| :: Used(b, b.sales[i].invoice))
    && (forall i | 0 <= i < |b.refunds| :: Used(b, b.refunds[i].number))
    && (forall i, j | 0 <= i < j < |b.sales| :: b.sales[i].invoice != b.sales[j].invoice)
    && (forall i, j | 0 <= i < j < |b.refunds| :: b.refunds[i].number != b.refunds[j].number)
  }

  /** A line is charged its price times its quantity, less its discount, and never less than nothing. */
  predicate LineSound(l: SaleLine) {
    l.quantity > 0 && l.unitPrice >= 0 && l.discount >= 0 && l.total == Max(l.unitPrice * l.quantity - l.discount, 0)
  }

  /** A return line takes back units of a line of the returned sale at the price they were sold for. */
  predicate ReturnLineSound(b: Books, r: ReturnLine) {
    && r.ret < |b.refunds| && r.saleLine < |b.lines| && r.quantity > 0
    && b.lines[r.saleLine].sale == b.refunds[r.ret].sale && r.product == b.lines[r.saleLine].product
    && r.unitPrice == b.lines[r.saleLine].unitPrice && r.amount == r.unitPrice * r.quantity
  }

  /** Rows refer to documents that exist, and carry what their own columns say. */
  predicate RowsBelong(b: Books) {
    && (forall k | 0 <= k < |b.payments| :: b.payments[k].sale < |b.sales|)
    && (forall k | 0 <= k < |b.lines| :: b.lines[k].sale < |b.sales| && LineSound(b.lines[k]))
    && (forall k | 0 <= k < |b.returnLines| :: ReturnLineSound(b, b.returnLines[k]))
    && (forall k | 0 <= k < |b.refunds| :: b.refunds[k].sale < |b.sales| && b.refunds[k].total > 0)
  }

  /** The total is the subtotal less the discount, and never less than nothing. */
  predicate HeaderSound(s: Sale) { s.discount >= 0 && s.total == Max(s.subtotal - s.discount, 0) }

  /** A sale's lines total its subtotal and its payment rows its paid amount; a return's lines total its refund. */
  predicate TotalsAddUp(b: Books) {
    && (forall id | 0 <= id < |b.sales| ::
          HeaderSound(b.sales[id]) && LinesFor(b.lines, id) == b.sales[id].subtotal && PaidFor(b.payments, id) == b.sales[id].paid)
    && (forall ret | 0 <= ret < |b.refunds| :: RefundFor(b.returnLines, ret) == b.refunds[ret].total)
  }

  predicate BooksInvariant(b: Books) { NumbersAreUnique(b) && RowsBelong(b) && TotalsAddUp(b) }

  /** No line has had more returned than was sold. */
  predicate NothingOverReturned(b: Books) {
    forall line | 0 <= line < |b.lines| :: Returned(b.returnLines, line) <= b.lines[line].quantity
  }

  lemma {:induction false} AddSaleKeepsNumbers(b: Books, header: Sale, lines: seq<SaleLine>, rows: seq<SalePay>)
    requires NumbersAreUnique(b) && header.invoice == FreshNumber(b, header.invoice.counter)
    ensures NumbersAreUnique(AddSale(b, header, lines, rows))
  {
    var after := AddSale(b, header, lines, rows);
    forall n: Number ensures Used(b, n) ==> Used(after, n) {}
    assert !Used(b, header.invoice);
  }

  lemma {:induction false} AddReturnKeepsNumbers(b: Books, header: SalesReturn, rows: seq<ReturnLine>)
    requires NumbersAreUnique(b) && header.number == FreshNumber(b, header.number.counter)
    ensures NumbersAreUnique(AddReturn(b, header, rows))
  {
    var after := AddReturn(b, header, rows);
    forall n: Number ensures Used(b, n) ==> Used(after, n) {}
    assert !Used(b, header.number);
  }

  /** The rows of a new sale. */
  predicate SaleRows(b: Books, header: Sale, lines: seq<SaleLine>, rows: seq<SalePay>) {
    && (forall k | 0 <= k < |lines| :: lines[k].sale == |b.sales| && LineSound(lines[k]))
    && (forall k | 0 <= k < |rows| :: rows[k].sale == |b.sales|)
    && HeaderSound(header) && LinesFor(lines, |b.sales|) == header.subtotal && PaidFor(rows, |b.sales|) == header.paid
  }

  lemma {:induction false} AddSaleKeepsTotals(b: Books, header: Sale, lines: seq<SaleLine>, rows: seq<SalePay>)
    requires RowsBelong(b) && TotalsAddUp(b) && SaleRows(b, header, lines, rows)
    ensures TotalsAddUp(AddSale(b, header, lines, rows))
  {
    var after := AddSale(b, header, lines, rows);
    forall id | 0 <= id < |after.sales|
      ensures LinesFor(after.lines, id) == after.sales[id].subtotal && PaidFor(after.payments, id) == after.sales[id].paid
    {
      SumAppend(b.payments, rows, PaymentTo(id));
      SumAppend(b.lines, lines, TotalIn(id));
      if id < |b.sales| {
        SumNone(rows, PaymentTo(id));
        SumNone(lines, TotalIn(id));
      } else {
        SumNone(b.payments, PaymentTo(id));
        SumNone(b.lines, TotalIn(id));
      }
    }
  }

  lemma {:induction false} AddSaleKeepsRows(b: Books, header: Sale, lines: seq<SaleLine>, rows: seq<SalePay>)
    requires RowsBelong(b) && SaleRows(b, header, lines, rows)
    ensures RowsBelong(AddSale(b, header, lines, rows))
  {
    var after := AddSale(b, header, lines, rows);
    forall k | 0 <= k < |after.returnLines| ensures ReturnLineSound(after, after.returnLines[k]) {
      assert ReturnLineSound(b, b.returnLines[k]);
    }
  }

  lemma {:induction false} AddSaleKeepsBooks(b: Books, header: Sale, lines: seq<SaleLine>, rows: seq<SalePay>)
    requires BooksInvariant(b) && header.invoice == FreshNumber(b, header.invoice.counter) && SaleRows(b, header, lines, rows)
    ensures BooksInvariant(AddSale(b, header, lines, rows))
  {
    AddSaleKeepsNumbers(b, header, lines, rows);
    AddSaleKeepsRows(b, header, lines, rows);
    AddSaleKeepsTotals(b, header, lines, rows);
  }

  /** The rows of a new return. */
  predicate NewReturnRows(b: Books, header: SalesReturn, rows: seq<ReturnLine>) {
    && header.sale < |b.sales| && header.total > 0 && RefundFor(rows, |b.refunds|) == header.total
    && forall k | 0 <= k < |rows| :: rows[k].ret == |b.refunds| && ReturnLineSound(b.(refunds := b.refunds + [header]), rows[k])
  }

  lemma {:induction false} AddReturnKeepsTotals(b: Books, header: SalesReturn, rows: seq<ReturnLine>)
    requires RowsBelong(b) && TotalsAddUp(b) && NewReturnRows(b, header, rows)
    ensures TotalsAddUp(AddReturn(b, header, rows))
  {
    var after := AddReturn(b, header, rows);
    forall ret | 0 <= ret < |after.refunds| ensures RefundFor(after.returnLines, ret) == after.refunds[ret].total {
      SumAppend(b.returnLines, rows, AmountIn(ret));
      if ret < |b.refunds| {
        SumNone(rows, AmountIn(ret));
      } else {
        forall k | 0 <= k < |b.returnLines| ensures AmountIn(ret)(b.returnLines[k]) == 0 {
          assert ReturnLineSound(b, b.returnLines[k]);
        }
        SumNone(b.returnLines, AmountIn(ret));
      }
    }
  }

  lemma {:induction false} AddReturnKeepsRows(b: Books, header: SalesReturn, rows: seq<ReturnLine>)
    requires RowsBelong(b) && NewReturnRows(b, header, rows)
    ensures RowsBelong(AddReturn(b, header, rows))
  {
    var after := AddReturn(b, header, rows);
    forall k | 0 <= k < |after.returnLines| ensures ReturnLineSound(after, after.returnLines[k]) {
      if k < |b.returnLines| {
        assert ReturnLineSound(b, b.returnLines[k]);
      } else {
        assert ReturnLineSound(b.(refunds := b.refunds + [header]), rows[k - |b.returnLines|]);
      }
    }
  }

  lemma {:induction false} AddReturnKeepsBooks(b: Books, header: SalesReturn, rows: seq<ReturnLine>)
    requires BooksInvariant(b) && header.number == FreshNumber(b, header.number.counter) && NewReturnRows(b, header, rows)
    ensures BooksInvariant(AddReturn(b, header, rows))
  {
    AddReturnKeepsNumbers(b, header, rows);
    AddReturnKeepsRows(b, header, rows);
    AddReturnKeepsTotals(b, header, rows);
  }

  lemma {:induction false} NothingReturnedYet(b: Books, line: Id)
    requires RowsBelong(b) && line >= |b.lines|
    ensures Returned(b.returnLines, line) == 0
  {
    forall k | 0 <= k < |b.returnLines| ensures UnitsOf(line)(b.returnLines[k]) == 0 {
      assert ReturnLineSound(b, b.returnLines[k]);
    }
    SumNone(b.returnLines, UnitsOf(line));
  }

  /** New lines start with nothing returned, so a sale over-returns nothing. */
  lemma {:induction false} AddSaleKeepsReturned(b: Books, header: Sale, lines: seq<SaleLine>, rows: seq<SalePay>)
    requires RowsBelong(b) && NothingOverReturned(b)
    requires forall k | 0 <= k < |lines| :: lines[k].quantity > 0
    ensures NothingOverReturned(AddSale(b, header, lines, rows))
  {
    var after := AddSale(b, header, lines, rows);
    forall line | 0 <= line < |after.lines| ensures Returned(after.returnLines, line) <= after.lines[line].quantity {
      if line >= |b.lines| {
        NothingReturnedYet(b, line);
      }
    }
  }

  /** Prepared lines that the schema accepts, priced as they say. */
  predicate LinesSound(lines: seq<PreparedLine>) {
    forall i | 0 <= i < |lines| ::
      lines[i].quantity > 0 && lines[i].unitPrice >= 0 && lines[i].discount >= 0
      && lines[i].total == Max(lines[i].unitPrice * lines[i].quantity - lines[i].discount, 0)
  }

  lemma {:induction false} AddPreparedSaleKeepsBooks(mid: Books, header: Sale, lines: seq<PreparedLine>, rows: seq<SalePay>)
    requires BooksInvariant(mid) && header.invoice == FreshNumber(mid, header.invoice.counter)
    requires LinesSound(lines) && HeaderSound(header) && Subtotal(lines) == header.subtotal
    requires (forall k | 0 <= k < |rows| :: rows[k].sale == |mid.sales|) && PaidFor(rows, |mid.sales|) == header.paid
    ensures var after := AddSale(mid, header, SaleLines(|mid.sales|, lines), rows);
            BooksInvariant(after) && (NothingOverReturned(mid) ==> NothingOverReturned(after))
  {
    LinesForRows(|mid.sales|, lines);
    AddSaleKeepsBooks(mid, header, SaleLines(|mid.sales|, lines), rows);
    if NothingOverReturned(mid) {
      AddSaleKeepsReturned(mid, header, SaleLines(|mid.sales|, lines), rows);
    }
  }

  // ------------------------------------------------------------------
  // What later transactions leave alone.

  /** Ledger entries refer to sales and returns that exist. */
  predicate LedgerBelongs(t: Tables) {
    forall k | 0 <= k < |t.ledger| ::
      && (t.ledger[k].reference.SaleRef? ==> t.ledger[k].reference.sale < |t.books.sales|)
      && (t.ledger[k].reference.ReturnRef? ==> t.ledger[k].reference.ret < |t.books.refunds|)
  }

  /** after extends before by appending documents and rows that refer to new documents only. */
  ghost predicate Grows(before: Tables, after: Tables) {
    var b, a := before.books, after.books;
    && b.sales <= a.sales && b.lines <= a.lines && b.payments <= a.payments
    && b.refunds <= a.refunds && b.returnLines <= a.returnLines && before.ledger <= after.ledger
    && (forall k | |b.payments| <= k < |a.payments| :: a.payments[k].sale >= |b.sales|)
    && (forall k | |b.lines| <= k < |a.lines| :: a.lines[k].sale >= |b.sales|)
    && (forall k | |b.returnLines| <= k < |a.returnLines| :: a.returnLines[k].ret >= |b.refunds|)
    && (forall k | |before.ledger| <= k < |after.ledger| ::
          && (after.ledger[k].reference.SaleRef? ==> after.ledger[k].reference.sale >= |b.sales|)
          && (after.ledger[k].reference.ReturnRef? ==> after.ledger[k].reference.ret >= |b.refunds|))
  }

  lemma {:induction false} GrowsIsTransitive(a: Tables, b: Tables, c: Tables)
    requires Grows(a, b) && Grows(b, c)
    ensures Grows(a, c)
  {
    forall k | |a.books.payments| <= k < |c.books.payments| ensures c.books.payments[k].sale >= |a.books.sales| {
      if k < |b.books.payments| { assert c.books.payments[k] == b.books.payments[k]; }
    }
    forall k | |a.books.lines| <= k < |c.books.lines| ensures c.books.lines[k].sale >= |a.books.sales| {
      if k < |b.books.lines| { assert c.books.lines[k] == b.books.lines[k]; }
    }
    forall k | |a.books.returnLines| <= k < |c.books.returnLines| ensures c.books.returnLines[k].ret >= |a.books.refunds| {
      if k < |b.books.returnLines| { assert c.books.returnLines[k] == b.books.returnLines[k]; }
    }
    forall k | |a.ledger| <= k < |c.ledger|
      ensures c.ledger[k].reference.SaleRef? ==> c.ledger[k].reference.sale >= |a.books.sales|
      ensures c.ledger[k].reference.ReturnRef? ==> c.ledger[k].reference.ret >= |a.books.refunds|
    {
      if k < |b.ledger| { assert c.ledger[k] == b.ledger[k]; }
    }
  }
}
