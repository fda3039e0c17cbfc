/** The atomic exchange: goods come back, others go out, and the difference is settled one of three ways. */
module Exchange {
  import opened Wrappers
  import opened Tables
  import opened StockLog
  import opened CashDesk
  import opened CustomerLedger
  import opened Checkout
  import opened Bookkeeping
  import opened ProductStock
  import opened Sales
  import opened Returns

  datatype ExchangeDto = ExchangeDto(sale: Id, period: nat, goods: seq<ReturnItem>, items: seq<Item>, discount: Money, refund: Option<Method>,
                                     payments: seq<Tender>, paidAmount: Option<Money>, paymentMethod: Option<Method>, notes: Notes)

  datatype SettlementType = PositiveCollection | NegativeRefund | BalancedZero

  datatype ExchangeReply = ExchangeReply(salesReturn: SalesReturn, ret: Id, returnLines: seq<ReturnLine>,
                                         sale: Sale, saleId: Id, lines: seq<SaleLine>, payments: seq<SalePay>, credit: Money,
                                         difference: Money, settlement: SettlementType, refund: Option<RefundMethod>,
                                         cashRefunded: Option<Money>, balanceAfter: Option<Money>)

  // What is decided before the first write.
  datatype Plan = Plan(branch: Id, customer: Option<Id>, back: seq<PreparedReturn>, lines: seq<PreparedLine>,
                       returned: Money, subtotal: Money, discount: Money, total: Money, refund: Option<RefundMethod>)

  /** Positive: the customer pays; negative: the shop refunds. */
  function Difference(p: Plan): Money { p.total - p.returned }

  function SettlementOf(difference: Money): SettlementType {
    if difference > 0 then PositiveCollection else if difference < 0 then NegativeRefund else BalancedZero
  }

  /** A refund method is needed, and account credit needs an account, only when the shop refunds. */
  function ChooseRefund(difference: Money, refund: Option<Method>, customer: Option<Id>): Result<Option<RefundMethod>> {
    if difference >= 0 then Ok(None)
    else if refund.None? then Err(BadRequest)
    else if !refund.value.Credit? then Ok(Some(RefundCash))
    else if customer.None? then Err(BadRequest)
    else Ok(Some(RefundCredit))
  }

  function PrepareExchange(t: Tables, dto: ExchangeDto): Result<Plan> {
    if dto.goods == [] || dto.items == [] then Err(BadRequest)
    else if dto.sale >= |t.books.sales| then Err(NotFound)
    else
      var original := t.books.sales[dto.sale];
      var back :- PrepareReturns(t.books, dto.sale, dto.goods);
      var lines :- PrepareLines(t.products, dto.items, true);
      if !Available(t.inventory.stock, original.branch, Portions(lines)) then Err(BadRequest)
      else
        var subtotal, discount := Subtotal(lines), Max(dto.discount, 0);
        var total, returned := Max(subtotal - discount, 0), ReturnTotal(back);
        var refund :- ChooseRefund(total - returned, dto.refund, original.customer);
        Ok(Plan(original.branch, original.customer, back, lines, returned, subtotal, discount, total, refund))
  }

  method PlanExchange(db: Database, dto: ExchangeDto) returns (r: Result<Plan>)
    ensures r == PrepareExchange(db.Contents(), dto)
  {
    if dto.goods == [] {
      return Err(BadRequest);
    }
    if dto.items == [] {
      return Err(BadRequest);
    }
    if dto.sale >= |db.books.sales| {
      return Err(NotFound);
    }
    var original := db.books.sales[dto.sale];
    var back, returned := CheckReturns(db, dto.sale, dto.goods);
    if back.Err? {
      return Err(back.failure);
    }
    var lines := PriceCart(db, dto.items, true);
    if lines.Err? {
      return Err(lines.failure);
    }
    var enough := CheckAvailable(db, original.branch, Portions(lines.value));
    if !enough {
      return Err(BadRequest);
    }
    var subtotal, discount := Subtotal(lines.value), Max(dto.discount, 0);
    var total := Max(subtotal - discount, 0);
    var refund: Option<RefundMethod> := None;
    if total - returned < 0 {
      if dto.refund.None? {
        return Err(BadRequest);
      }
      refund := Some(if dto.refund.value.Credit? then RefundCredit else RefundCash);
      if refund == Some(RefundCredit) && original.customer.None? {
        return Err(BadRequest);
      }
    }
    return Ok(Plan(original.branch, original.customer, back.value, lines.value, returned, subtotal, discount, total, refund));
  }

  // ------------------------------------------------------------------
  // Settling the difference.

  function ExchangeTenders(dto: ExchangeDto, due: Money): seq<Tender> {
    var listed := RealTenders(dto.payments, true);
    var m := TenderMethod(if dto.paymentMethod.Some? then dto.paymentMethod.value else Cash, true);
    var raw := if dto.paidAmount.Some? then dto.paidAmount.value else due;
    if listed != [] then listed
    else if !m.Credit? && raw > 0 then [Tender(m, raw)]
    else []
  }

  // The outcome of a settlement: the tables it touches and the figures of the replacement sale.
  datatype Settled = Settled(ledger: seq<LedgerEntry>, till: Till, rows: seq<SalePay>, paid: Money, change: Money, status: PaymentStatus,
                             balanceAfter: Option<Money>, cashRefunded: Option<Money>)

  function OffsetRow(sale: Id, amount: Money, number: Number): SalePay { SalePay(sale, amount, Other, Some(number)) }

  /** The customer pays the difference; what is not tendered is put on the account, whatever its limit. */
  function Collect(t: Tables, dto: ExchangeDto, p: Plan, sale: Id, number: Number): Result<Settled> {
    var due := Difference(p);
    var tenders := ExchangeTenders(dto, due);
    var tendered, shares := SumTenders(tenders), Allocate(tenders, due);
    if tendered < due && p.customer.None? then Err(BadRequest)
    else if p.returned <= 0 || !AllStorable(shares) then Err(CheckViolation)
    else
      var owed := due - tendered;
      var ledger := if owed > 0 then Append(t.ledger, p.customer.value, SaleRef(sale), SaleEntry, owed, 0) else t.ledger;
      match BookCash(t.till, p.branch, SalePayment, Inward, CashOf(shares), SaleRef(sale))
      case None => Err(BadRequest)
      case Some(till) =>
        Ok(Settled(ledger, till, [OffsetRow(sale, p.returned, number)] + PaymentRows(sale, shares),
                   p.returned + Min(tendered, due), Max(tendered - due, 0),
                   if owed <= 0 then Paid else if tendered > 0 then PartiallyPaid else Unpaid,
                   if owed > 0 then Some(Balance(t.ledger, p.customer.value) + owed) else None, None))
  }

  /** The returned goods cover the replacement; what is left over is refunded. */
  function Cover(t: Tables, p: Plan, sale: Id, ret: Id, number: Number): Result<Settled> {
    var over := -Difference(p);
    var rows := [OffsetRow(sale, p.total, number)];
    if p.total <= 0 then Err(CheckViolation)
    else if p.refund == Some(RefundCredit) && p.customer.Some? then
      Ok(Settled(Append(t.ledger, p.customer.value, ReturnRef(ret), ReturnEntry, 0, over), t.till, rows, p.total, 0, Paid,
                 Some(Balance(t.ledger, p.customer.value) - over), None))
    else if p.refund == Some(RefundCash) then
      match BookCash(t.till, p.branch, ReturnRefund, Outward, over, ReturnRef(ret))
      case None => Err(BadRequest)
      case Some(till) => Ok(Settled(t.ledger, till, rows, p.total, 0, Paid, None, Some(over)))
    else Ok(Settled(t.ledger, t.till, rows, p.total, 0, Paid, None, None))
  }

  function Settle(t: Tables, dto: ExchangeDto, p: Plan, sale: Id, ret: Id, number: Number): Result<Settled> {
    if Difference(p) > 0 then Collect(t, dto, p, sale, number) else Cover(t, p, sale, ret, number)
  }

  /** The tables after a settlement; the header still carries its placeholders. */
  function WithSettlement(t: Tables, s: Settled): Tables {
    t.(ledger := s.ledger, till := s.till, books := t.books.(payments := t.books.payments + s.rows))
  }

  method GatherTenders(dto: ExchangeDto, due: Money) returns (tenders: seq<Tender>)
    ensures tenders == ExchangeTenders(dto, due)
  {
    tenders := CollectTenders(dto.payments, true);
    if tenders == [] {
      var m := TenderMethod(if dto.paymentMethod.Some? then dto.paymentMethod.value else Cash, true);
      var raw := if dto.paidAmount.Some? then dto.paidAmount.value else due;
      if m != Credit && raw > 0 {
        tenders := [Tender(m, raw)];
      }
    }
  }

  /** The return offset, then one row per allocated tender. */
  method RecordPayments(db: Database, p: Plan, sale: Id, number: Number, tenders: seq<Tender>, due: Money) returns (ok: bool, shares: seq<Tender>)
    modifies db
    ensures ok <==> p.returned > 0 && AllStorable(Allocate(tenders, due))
    ensures ok ==> shares == Allocate(tenders, due)
    ensures ok ==> db.Contents() == old(db.Contents()).(books := old(db.books).(payments :=
                     old(db.books.payments) + ([OffsetRow(sale, p.returned, number)] + PaymentRows(sale, shares))))
  {
    if p.returned <= 0 {
      return false, [];
    }
    ghost var before := db.books.payments;
    var offset := OffsetRow(sale, p.returned, number);
    db.books := db.books.(payments := db.books.payments + [offset]);
    ok, shares := InsertPayments(db, sale, tenders, due);
    if ok {
      assert (before + [offset]) + PaymentRows(sale, shares) == before + ([offset] + PaymentRows(sale, shares));
    }
  }

  method CollectDifference(db: Database, dto: ExchangeDto, p: Plan, sale: Id, number: Number) returns (r: Result<Settled>)
    modifies db
    ensures r == Collect(old(db.Contents()), dto, p, sale, number)
    ensures r.Ok? ==> db.Contents() == WithSettlement(old(db.Contents()), r.value)
  {
    var due := Difference(p);
    var tenders := GatherTenders(dto, due);
    var tendered := SumTenders(tenders);
    var paid := p.returned + Min(tendered, due);
    var change, status, balanceAfter := 0, Paid, None;
    if tendered >= due {
      change := tendered - due;
    } else {
      status := if tendered > 0 then PartiallyPaid else Unpaid;
      if p.customer.None? {
        return Err(BadRequest);
      }
      var after := Balance(db.ledger, p.customer.value) + (due - tendered);
      balanceAfter := Some(after);
      db.ledger := db.ledger + [LedgerEntry(p.customer.value, SaleRef(sale), SaleEntry, due - tendered, 0, after)];
    }
    var ok, shares := RecordPayments(db, p, sale, number, tenders, due);
    if !ok {
      return Err(CheckViolation);
    }
    var banked := MoveCash(db, p.branch, SalePayment, Inward, CashOf(shares), SaleRef(sale));
    if !banked {
      return Err(BadRequest);
    }
    return Ok(Settled(db.ledger, db.till, [OffsetRow(sale, p.returned, number)] + PaymentRows(sale, shares), paid, change, status, balanceAfter, None));
  }

  method CoverDifference(db: Database, p: Plan, sale: Id, ret: Id, number: Number) returns (r: Result<Settled>)
    modifies db
    ensures r == Cover(old(db.Contents()), p, sale, ret, number)
    ensures r.Ok? ==> db.Contents() == WithSettlement(old(db.Contents()), r.value)
  {
    var over := -Difference(p);
    if p.total <= 0 {
      return Err(CheckViolation);
    }
    var rows := [OffsetRow(sale, p.total, number)];
    db.books := db.books.(payments := db.books.payments + rows);
    var balanceAfter, cashRefunded := None, None;
    if p.refund == Some(RefundCredit) && p.customer.Some? {
      var after := Balance(db.ledger, p.customer.value) - over;
      balanceAfter := Some(after);
      db.ledger := db.ledger + [LedgerEntry(p.customer.value, ReturnRef(ret), ReturnEntry, 0, over, after)];
    } else if p.refund == Some(RefundCash) {
      cashRefunded := Some(over);
      var paidOut := MoveCash(db, p.branch, ReturnRefund, Outward, over, ReturnRef(ret));
      if !paidOut {
        return Err(BadRequest);
      }
    }
    return Ok(Settled(db.ledger, db.till, rows, p.total, 0, Paid, balanceAfter, cashRefunded));
  }

  // ------------------------------------------------------------------
  // The transaction.

  function ReturnNumber(b: Books, p: Plan, period: nat): Number { FreshNumber(b, Counter(ReturnSeries(p.branch), period)) }
  function InvoiceNumber(b: Books, p: Plan, period: nat): Number { FreshNumber(b, Counter(ExchangeInvoiceSeries(p.branch), period)) }

  function ReturnHeader(b: Books, dto: ExchangeDto, p: Plan): SalesReturn {
    SalesReturn(ReturnNumber(b, p, dto.period), dto.sale, p.branch, p.customer, p.returned,
                if p.refund.Some? then p.refund.value else RefundExchange,
                if dto.notes.NoNotes? then LinkedInvoice(InvoiceNumber(b, p, dto.period)) else dto.notes)
  }

  function SaleHeader(b: Books, dto: ExchangeDto, p: Plan, paid: Money, change: Money, status: PaymentStatus): Sale {
    Sale(InvoiceNumber(b, p, dto.period), p.branch, p.customer, p.subtotal, p.discount, p.total, paid, change, status,
         if dto.notes.NoNotes? then AgainstReturn(ReturnNumber(b, p, dto.period)) else dto.notes)
  }

  function ExchangeBooks(b: Books, dto: ExchangeDto, p: Plan, s: Settled): Books {
    AddSale(AddReturn(b, ReturnHeader(b, dto, p), ReturnRows(|b.refunds|, p.back)),
            SaleHeader(b, dto, p, s.paid, s.change, s.status), SaleLines(|b.sales|, p.lines), s.rows)
  }

  /** The stock after the returned goods are in and the replacements out. */
  function ExchangeStock(t: Tables, p: Plan): Result<Inventory> {
    var restored :- RestoreAll(t.inventory, p.branch, Back(p.back), ReturnRef(|t.books.refunds|), ServerError);
    WriteAll(restored, p.branch, p.lines, SaleRef(|t.books.sales|))
  }

  function ReplyOf(b: Books, dto: ExchangeDto, p: Plan, s: Settled): ExchangeReply {
    var header := ReturnHeader(b, dto, p);
    ExchangeReply(header.(notes := dto.notes), |b.refunds|, ReturnRows(|b.refunds|, p.back),
                  SaleHeader(b, dto, p, s.paid, s.change, s.status), |b.sales|, SaleLines(|b.sales|, p.lines), s.rows,
                  Max(p.total - s.paid, 0), Difference(p), SettlementOf(Difference(p)), p.refund, s.cashRefunded, s.balanceAfter)
  }

  function CommitExchange(t: Tables, dto: ExchangeDto, p: Plan): Result<(Tables, ExchangeReply)> {
    if p.returned <= 0 then Err(CheckViolation)
    else
      var inv :- ExchangeStock(t, p);
      var s :- Settle(t, dto, p, |t.books.sales|, |t.books.refunds|, ReturnNumber(t.books, p, dto.period));
      Ok((t.(inventory := inv, ledger := s.ledger, till := s.till, books := ExchangeBooks(t.books, dto, p, s)), ReplyOf(t.books, dto, p, s)))
  }

  function ExchangeSpec(t: Tables, dto: ExchangeDto): (Result<ExchangeReply>, Tables) {
    match PrepareExchange(t, dto)
    case Err(e) => (Err(e), t)
    case Ok(p) =>
      match CommitExchange(t, dto, p)
      case Err(e) => (Err(e), t)
      case Ok(done) => (Ok(done.1), done.0)
  }

  /** Steps 5 to 7: both numbers, both headers, and the stock of both sides. */
  method WriteGoods(db: Database, dto: ExchangeDto, p: Plan) returns (r: Result<bool>)
    modifies db
    ensures r.Ok? <==> p.returned > 0 && ExchangeStock(old(db.Contents()), p).Ok?
    ensures r.Err? ==> r.failure == if p.returned <= 0 then CheckViolation else ExchangeStock(old(db.Contents()), p).failure
    ensures r.Ok? ==> db.Contents() == old(db.Contents()).(
                        inventory := ExchangeStock(old(db.Contents()), p).value,
                        books := AddSale(AddReturn(old(db.books), ReturnHeader(old(db.books), dto, p), ReturnRows(|old(db.books).refunds|, p.back)),
                                         SaleHeader(old(db.books), dto, p, 0, 0, Unpaid), SaleLines(|old(db.books).sales|, p.lines), []))
  {
    ghost var begin := db.Contents();
    var ret, sale := |db.books.refunds|, |db.books.sales|;
    var returnCounter, saleCounter := Counter(ReturnSeries(p.branch), dto.period), Counter(ExchangeInvoiceSeries(p.branch), dto.period);
    var number := Number(returnCounter, NextValue(db.books.counters, returnCounter));
    db.books := db.books.(counters := Bump(db.books.counters, returnCounter));
    var invoice := Number(saleCounter, NextValue(db.books.counters, saleCounter));
    db.books := db.books.(counters := Bump(db.books.counters, saleCounter));
    var placeholder := Sale(invoice, p.branch, p.customer, p.subtotal, p.discount, p.total, 0, 0, Unpaid,
                            if dto.notes.NoNotes? then AgainstReturn(number) else dto.notes);
    db.books := db.books.(sales := db.books.sales + [placeholder]);
    if p.returned <= 0 {
      return Err(CheckViolation);
    }
    var header := SalesReturn(number, dto.sale, p.branch, p.customer, p.returned, if p.refund.Some? then p.refund.value else RefundExchange,
                              if dto.notes.NoNotes? then LinkedInvoice(invoice) else dto.notes);
    db.books := db.books.(refunds := db.books.refunds + [header]);
    assert header == ReturnHeader(begin.books, dto, p);
    assert placeholder == SaleHeader(begin.books, dto, p, 0, 0, Unpaid);
    var restored := InsertReturns(db, ret, p.branch, p.back, ServerError);
    if restored.Err? {
      return Err(restored.failure);
    }
    var written := InsertLines(db, sale, p.branch, p.lines);
    if written.Err? {
      return Err(written.failure);
    }
    assert begin.books.payments + [] == begin.books.payments;
    return Ok(true);
  }

  /** Filling in the header's placeholders and the payment rows gives the final books. */
  lemma {:induction false} HeaderCompleted(b: Books, dto: ExchangeDto, p: Plan, s: Settled)
    ensures var placed := AddSale(AddReturn(b, ReturnHeader(b, dto, p), ReturnRows(|b.refunds|, p.back)),
                                  SaleHeader(b, dto, p, 0, 0, Unpaid), SaleLines(|b.sales|, p.lines), []);
            var header := placed.sales[|b.sales|].(paid := s.paid, change := s.change, status := s.status);
            placed.(payments := placed.payments + s.rows, sales := placed.sales[|b.sales| := header]) == ExchangeBooks(b, dto, p, s)
  {
    var placeholder := SaleHeader(b, dto, p, 0, 0, Unpaid);
    assert (b.payments + []) + s.rows == b.payments + s.rows;
    assert (b.sales + [placeholder])[|b.sales| := SaleHeader(b, dto, p, s.paid, s.change, s.status)]
        == b.sales + [SaleHeader(b, dto, p, s.paid, s.change, s.status)];
  }

  method SettleDifference(db: Database, dto: ExchangeDto, p: Plan, sale: Id, ret: Id, number: Number) returns (r: Result<Settled>)
    modifies db
    ensures r == Settle(old(db.Contents()), dto, p, sale, ret, number)
    ensures r.Ok? ==> db.Contents() == WithSettlement(old(db.Contents()), r.value)
  {
    if Difference(p) > 0 {
      r := CollectDifference(db, dto, p, sale, number);
    } else {
      r := CoverDifference(db, p, sale, ret, number);
    }
  }

  /** Steps 5 to 9. */
  method ExecuteExchange(db: Database, dto: ExchangeDto, p: Plan) returns (r: Result<ExchangeReply>)
    modifies db
    ensures r.Ok? <==> CommitExchange(old(db.Contents()), dto, p).Ok?
    ensures r.Err? ==> r.failure == CommitExchange(old(db.Contents()), dto, p).failure
    ensures r.Ok? ==> (db.Contents(), r.value) == CommitExchange(old(db.Contents()), dto, p).value
  {
    ghost var begin := db.Contents();
    var before := db.books;
    var ret, sale := |db.books.refunds|, |db.books.sales|;
    var written := WriteGoods(db, dto, p);
    if written.Err? {
      return Err(written.failure);
    }
    var number := ReturnNumber(before, p, dto.period);
    SettleReadsOnly(db.Contents(), begin, dto, p, sale, ret, number);
    var settled := SettleDifference(db, dto, p, sale, ret, number);
    if settled.Err? {
      return Err(settled.failure);
    }
    var s := settled.value;
    HeaderCompleted(before, dto, p, s);
    var header := db.books.sales[sale].(paid := s.paid, change := s.change, status := s.status);
    db.books := db.books.(sales := db.books.sales[sale := header]);
    return Ok(ReplyOf(before, dto, p, s));
  }

  method ProcessExchange(db: Database, dto: ExchangeDto) returns (r: Result<ExchangeReply>)
    modifies db
    ensures (r, db.Contents()) == ExchangeSpec(old(db.Contents()), dto)
  {
    var begin := db.Contents();
    var plan := PlanExchange(db, dto);
    if plan.Err? {
      return Err(plan.failure);
    }
    r := ExecuteExchange(db, dto, plan.value);
    if r.Err? {
      db.Rollback(begin);
    }
  }

  /** Settling reads the ledger and the till only. */
  lemma {:induction false} SettleReadsOnly(a: Tables, b: Tables, dto: ExchangeDto, p: Plan, sale: Id, ret: Id, number: Number)
    requires a.ledger == b.ledger && a.till == b.till
    ensures Settle(a, dto, p, sale, ret, number) == Settle(b, dto, p, sale, ret, number)
  {}
}
