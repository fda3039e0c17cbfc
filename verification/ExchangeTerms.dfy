/** What an exchange takes back, charges, collects and refunds, told by its request, the sold rows and the catalogue. */
module ExchangeTerms {
  import opened Wrappers
  import opened Sums
  import opened Tables
  import opened StockLog
  import opened CashDesk
  import opened CustomerLedger
  import opened Checkout
  import opened Bookkeeping
  import opened Sales
  import opened Returns
  import opened Exchange
  import opened ExchangeLaws
  import opened TillLaws
  import opened SaleLaws
  import opened RefundLaws

  /** The price of a replacement: the client's exactly when one was sent, else the catalogue's. */
  function PriceOf(products: map<Id, Product>, item: Item): Money
    requires item.product in products
  {
    if item.unitPrice.Some? then item.unitPrice.value else products[item.product].salePrice
  }

  function AskedCharge(products: map<Id, Product>): Item -> Money {
    (item: Item) => if item.product in products then Max(PriceOf(products, item) * item.quantity - Max(item.discount, 0), 0) else 0
  }

  function Worth(t: Tables, dto: ExchangeDto): Money { Sum(dto.goods, ListRefund(t.books)) }

  function Replacement(t: Tables, dto: ExchangeDto): Money { Max(Sum(dto.items, AskedCharge(t.products)) - Max(dto.discount, 0), 0) }

  lemma {:induction false} SubtotalIsAsked(products: map<Id, Product>, items: seq<Item>)
    requires PrepareLines(products, items, true).Ok?
    ensures Subtotal(PrepareLines(products, items, true).value) == Sum(items, AskedCharge(products))
  {
    if items != [] {
      SubtotalIsAsked(products, items[1..]);
      SumCons(items[0], items[1..], AskedCharge(products));
      assert items == [items[0]] + items[1..];
      var lines := PrepareLines(products, items, true).value;
      assert lines[1..] == PrepareLines(products, items[1..], true).value;
    }
  }

  /** What the plan carries is what the request, the sold rows and the catalogue say. */
  lemma {:induction false} PlanTellsTheRequest(t: Tables, dto: ExchangeDto)
    requires PrepareExchange(t, dto).Ok?
    ensures var p := PrepareExchange(t, dto).value;
            && dto.sale < |t.books.sales| && p.branch == t.books.sales[dto.sale].branch && p.customer == t.books.sales[dto.sale].customer
            && p.returned == Worth(t, dto) && p.subtotal == Sum(dto.items, AskedCharge(t.products)) && p.discount == Max(dto.discount, 0)
            && p.total == Replacement(t, dto)
            && Back(p.back) == GoodsOf(t.books, dto.goods) && Portions(p.lines) == Asked(dto.items)
            && p.refund == (if p.total >= p.returned then None else if dto.refund == Some(Credit) then Some(RefundCredit) else Some(RefundCash))
            && (p.total < p.returned ==> dto.refund.Some? && (dto.refund == Some(Credit) ==> p.customer.Some?))
  {
    PreparedValue(t.books, dto.sale, dto.goods);
    PreparedGoods(t.books, dto.sale, dto.goods, 0);
    SubtotalIsAsked(t.products, dto.items);
    PreparedAsAsked(t.products, dto.items, true);
  }

  /** Its figures alone. */
  lemma {:induction false} PlanFigures(t: Tables, dto: ExchangeDto, p: Plan)
    requires PrepareExchange(t, dto) == Ok(p)
    ensures dto.sale < |t.books.sales| && p.branch == t.books.sales[dto.sale].branch && p.customer == t.books.sales[dto.sale].customer
    ensures p.returned == Worth(t, dto) && p.total == Replacement(t, dto) && Difference(p) == Replacement(t, dto) - Worth(t, dto)
    ensures p.refund == (if p.total >= p.returned then None else if dto.refund == Some(Credit) then Some(RefundCredit) else Some(RefundCash))
  {
    PlanTellsTheRequest(t, dto);
  }

  /** An exchange can be planned exactly when its goods may come back, its items may be sold and are there, and a refund is named that can be given. */
  lemma {:induction false} ExchangeIsPlannedIff(t: Tables, dto: ExchangeDto)
    ensures PrepareExchange(t, dto).Ok? <==>
              && dto.goods != [] && dto.items != [] && dto.sale < |t.books.sales|
              && AllMayComeBack(t.books, dto.sale, dto.goods)
              && AllSellable(t.products, dto.items)
              && Available(t.inventory.stock, t.books.sales[dto.sale].branch, Asked(dto.items))
              && (Replacement(t, dto) < Worth(t, dto) ==> dto.refund.Some? && (dto.refund == Some(Credit) ==> t.books.sales[dto.sale].customer.Some?))
    ensures PrepareExchange(t, dto).Err? ==>
              PrepareExchange(t, dto).failure == if dto.goods == [] || dto.items == [] then BadRequest else if dto.sale >= |t.books.sales| then NotFound
                                                 else if !AllMayComeBack(t.books, dto.sale, dto.goods) then ReturnFault(t.books, dto.sale, dto.goods)
                                                 else if !AllSellable(t.products, dto.items) then ItemFault(t.products, dto.items)
                                                 else BadRequest
  {
    ComesBackIff(t.books, dto.sale, dto.goods);
    PreparableIff(t.products, dto.items, true);
    if !AllSellable(t.products, dto.items) {
      FirstBadItemDecides(t.products, dto.items, true);
    }
    if PrepareReturns(t.books, dto.sale, dto.goods).Ok? && PrepareLines(t.products, dto.items, true).Ok? {
      PreparedValue(t.books, dto.sale, dto.goods);
      SubtotalIsAsked(t.products, dto.items);
      PreparedAsAsked(t.products, dto.items, true);
    }
  }

  // ------------------------------------------------------------------
  // The books.

  lemma {:induction false} ExchangeWrites(t: Tables, dto: ExchangeDto)
    requires ExchangeSpec(t, dto).0.Ok?
    ensures var (r, after) := ExchangeSpec(t, dto);
            var p := PrepareExchange(t, dto).value;
            var s := Settle(t, dto, p, |t.books.sales|, |t.books.refunds|, ReturnNumber(t.books, p, dto.period));
            && s.Ok? && after.books == ExchangeBooks(t.books, dto, p, s.value) && r.value == ReplyOf(t.books, dto, p, s.value)
            && after == t.(books := after.books, inventory := after.inventory, ledger := s.value.ledger, till := s.value.till)
            && ExchangeStock(t, p) == Ok(after.inventory)
  {}

  function NextNumber(b: Books, series: Series, period: nat): Number {
    var c := Counter(series, period);
    Number(c, if c in b.counters then b.counters[c] else 1)
  }

  /** The return's header: the next return number of the branch, the worth of the goods, the refund, and a link to the invoice unless notes were sent. */
  lemma {:induction false} ExchangeHasItsReturn(t: Tables, dto: ExchangeDto)
    requires ExchangeSpec(t, dto).0.Ok?
    ensures var (r, after) := ExchangeSpec(t, dto);
            var b, original := t.books, t.books.sales[dto.sale];
            var number, invoice := NextNumber(b, ReturnSeries(original.branch), dto.period), NextNumber(b, ExchangeInvoiceSeries(original.branch), dto.period);
            && r.value.ret == |b.refunds|
            && after.books.refunds == b.refunds + [SalesReturn(number, dto.sale, original.branch, original.customer, Worth(t, dto),
                                                               if r.value.refund.Some? then r.value.refund.value else RefundExchange,
                                                               if dto.notes == NoNotes then LinkedInvoice(invoice) else dto.notes)]
  {
    ExchangeWrites(t, dto);
    PlanTellsTheRequest(t, dto);
  }

  /** Both numbers are drawn, each from the branch's own series, one by one. */
  lemma {:induction false} ExchangeDrawsBothNumbers(t: Tables, dto: ExchangeDto)
    requires ExchangeSpec(t, dto).0.Ok?
    ensures var b, branch := t.books, t.books.sales[dto.sale].branch;
            var number, invoice := NextNumber(b, ReturnSeries(branch), dto.period), NextNumber(b, ExchangeInvoiceSeries(branch), dto.period);
            ExchangeSpec(t, dto).1.books.counters == b.counters[number.counter := number.value + 1][invoice.counter := invoice.value + 1]
  {
    ExchangeWrites(t, dto);
    PlanTellsTheRequest(t, dto);
  }

  /** Its rows take each good back at the price it was sold for. */
  lemma {:induction false} ExchangeHasItsReturnRows(t: Tables, dto: ExchangeDto)
    requires ExchangeSpec(t, dto).0.Ok?
    ensures var n, rows, ret := |t.books.returnLines|, ExchangeSpec(t, dto).1.books.returnLines, |t.books.refunds|;
            && |rows| == n + |dto.goods| && t.books.returnLines <= rows
            && forall i | 0 <= i < |dto.goods| :: dto.goods[i].line < |t.books.lines| && rows[n + i] == RowOf(t.books, ret, dto.goods[i])
  {
    var ret, p := |t.books.refunds|, PrepareExchange(t, dto).value;
    ExchangeWrites(t, dto);
    PreparedGoods(t.books, dto.sale, dto.goods, ret);
    RowsFollow(t.books.returnLines, ReturnRows(ret, p.back));
  }

  /** The replacement's header: the next exchange invoice of the branch, its charges, and a link to the return unless notes were sent. */
  lemma {:induction false} ExchangeHasItsSale(t: Tables, dto: ExchangeDto)
    requires ExchangeSpec(t, dto).0.Ok?
    ensures var (r, after) := ExchangeSpec(t, dto);
            var b, original := t.books, t.books.sales[dto.sale];
            var number, invoice := NextNumber(b, ReturnSeries(original.branch), dto.period), NextNumber(b, ExchangeInvoiceSeries(original.branch), dto.period);
            && r.value.saleId == |b.sales| && |after.books.sales| == |b.sales| + 1 && after.books.sales[..|b.sales|] == b.sales
            && var sale := after.books.sales[|b.sales|];
               && sale == Sale(invoice, original.branch, original.customer, Sum(dto.items, AskedCharge(t.products)), Max(dto.discount, 0), Replacement(t, dto),
                               sale.paid, sale.change, sale.status, if dto.notes == NoNotes then AgainstReturn(number) else dto.notes)
  {
    ExchangeWrites(t, dto);
    PlanTellsTheRequest(t, dto);
  }

  /** Each item becomes one line, at the client's price exactly when one was sent. */
  lemma {:induction false} ExchangeChargesWhatIsAsked(t: Tables, dto: ExchangeDto)
    requires ExchangeSpec(t, dto).0.Ok?
    ensures var n, lines, id := |t.books.lines|, ExchangeSpec(t, dto).1.books.lines, |t.books.sales|;
            && |lines| == n + |dto.items| && t.books.lines <= lines
            && forall i | 0 <= i < |dto.items| ::
                 && Sellable(t.products, dto.items[i])
                 && lines[n + i] == LineOf(id, dto.items[i], t.products[dto.items[i].product], PriceOf(t.products, dto.items[i]))
  {
    var p := PrepareExchange(t, dto).value;
    ExchangeWrites(t, dto);
    forall i | 0 <= i < |dto.items| { LinesArePriced(t.products, dto.items, true, i); }
    LinesArePriced(t.products, dto.items, true, 0);
    RowsFollow(t.books.lines, SaleLines(|t.books.sales|, p.lines));
  }

  /** The answer repeats what was stored, except that the return carries the notes that were sent. */
  lemma {:induction false} ExchangeAnswersWhatItStored(t: Tables, dto: ExchangeDto)
    requires ExchangeSpec(t, dto).0.Ok?
    ensures var (r, after) := ExchangeSpec(t, dto);
            var first := r.value;
            && first.saleId < |after.books.sales| && first.ret < |after.books.refunds|
            && first.sale == after.books.sales[first.saleId] && first.salesReturn == after.books.refunds[first.ret].(notes := dto.notes)
            && after.books.lines == t.books.lines + first.lines && after.books.payments == t.books.payments + first.payments
            && after.books.returnLines == t.books.returnLines + first.returnLines
            && first.difference == first.sale.total - first.salesReturn.total
            && first.settlement == (if first.difference > 0 then PositiveCollection else if first.difference < 0 then NegativeRefund else BalancedZero)
  {
    ExchangeWrites(t, dto);
  }

  // ------------------------------------------------------------------
  // The goods.

  /** Returned goods are put back first, then replacements are taken out, each item with its movement. */
  lemma {:induction false} ExchangeMovesWhatIsAsked(t: Tables, dto: ExchangeDto)
    requires ExchangeSpec(t, dto).0.Ok?
    ensures var after, branch := ExchangeSpec(t, dto).1, t.books.sales[dto.sale].branch;
            && IsExchanged(t.inventory.stock, after.inventory.stock, branch, GoodsOf(t.books, dto.goods), Asked(dto.items))
            && exists mid ::
                 && LogsPortions(t.inventory.moves, mid, branch, In, GoodsOf(t.books, dto.goods), ReturnRef(|t.books.refunds|))
                 && LogsPortions(mid, after.inventory.moves, branch, Out, Asked(dto.items), SaleRef(|t.books.sales|))
  {
    var p, ref := PrepareExchange(t, dto).value, ReturnRef(|t.books.refunds|);
    var restored := RestoreAll(t.inventory, p.branch, Back(p.back), ref, ServerError).value;
    PlanTellsTheRequest(t, dto);
    ExchangeMovesItsTotals(t, dto);
    RestorationsAreLogged(t.inventory, p.branch, Back(p.back), ref, ServerError);
    WriteAllDeducts(restored, p.branch, p.lines, SaleRef(|t.books.sales|));
    DeductionsAreLogged(restored, p.branch, Portions(p.lines), SaleRef(|t.books.sales|));
  }

  // ------------------------------------------------------------------
  // The difference.

  /** The money a request brings towards the difference. */
  function BroughtTo(dto: ExchangeDto, due: Money): Money {
    if Sum(dto.payments, RealPart()) > 0 then Sum(dto.payments, RealPart())
    else if dto.paymentMethod == Some(Credit) then 0
    else if dto.paidAmount.None? then Max(due, 0)
    else Max(dto.paidAmount.value, 0)
  }

  lemma {:induction false} ExchangeTendersAreBrought(dto: ExchangeDto, due: Money)
    ensures SumTenders(ExchangeTenders(dto, due)) == BroughtTo(dto, due)
    ensures Sum(dto.payments, RealPart()) > 0 ==> ExchangeTenders(dto, due) == RealTenders(dto.payments, true)
    ensures Sum(dto.payments, RealPart()) == 0 && BroughtTo(dto, due) > 0 ==>
              ExchangeTenders(dto, due) == [Tender(TenderMethod(MethodOf(dto.paymentMethod), true), BroughtTo(dto, due))]
  {
    ListedMoney(dto.payments, true);
    var ts := ExchangeTenders(dto, due);
    assert RealTenders(dto.payments, true) == [] && ts != [] ==> ts[1..] == [];
  }

  /** The answer and the tables carry the settlement. */
  ghost predicate Carries(first: ExchangeReply, after: Tables, p: Plan, s: Settled, saleId: Id, ret: Id, number: Number) {
    && first.saleId == saleId && first.ret == ret && first.salesReturn.number == number && first.refund == p.refund
    && first.difference == p.total - p.returned && first.sale.total == p.total
    && first.sale.paid == s.paid && first.sale.change == s.change && first.sale.status == s.status
    && first.credit == Max(p.total - s.paid, 0) && first.payments == s.rows
    && first.cashRefunded == s.cashRefunded && first.balanceAfter == s.balanceAfter && after.ledger == s.ledger && after.till == s.till
  }

  lemma {:induction false} ExchangeSettles(t: Tables, dto: ExchangeDto) returns (p: Plan, s: Settled)
    requires ExchangeSpec(t, dto).0.Ok?
    ensures var number := ReturnNumber(t.books, p, dto.period);
            && PrepareExchange(t, dto) == Ok(p) && Consistent(p)
            && Settle(t, dto, p, |t.books.sales|, |t.books.refunds|, number) == Ok(s)
            && Carries(ExchangeSpec(t, dto).0.value, ExchangeSpec(t, dto).1, p, s, |t.books.sales|, |t.books.refunds|, number)
  {
    p := PrepareExchange(t, dto).value;
    PlanIsConsistent(t, dto);
    s := Settle(t, dto, p, |t.books.sales|, |t.books.refunds|, ReturnNumber(t.books, p, dto.period)).value;
  }

  /** What is owed is one SALE debit of a customer, carrying the balance it leaves; with nothing owed the ledger is left alone. */
  predicate Owes(before: seq<LedgerEntry>, after: seq<LedgerEntry>, customer: Option<Id>, balanceAfter: Option<Money>, owed: Money, reference: Ref) {
    if owed <= 0 then after == before && balanceAfter == None
    else
      && customer.Some? && balanceAfter == Some(Balance(before, customer.value) + owed)
      && after == before + [LedgerEntry(customer.value, reference, SaleEntry, owed, 0, Balance(before, customer.value) + owed)]
  }

  lemma {:induction false} CollectTakesWhatIsBrought(t: Tables, dto: ExchangeDto, p: Plan, sale: Id, ret: Id, number: Number, s: Settled)
    requires Difference(p) > 0 && Settle(t, dto, p, sale, ret, number) == Ok(s)
    ensures var due, brought := Difference(p), BroughtTo(dto, Difference(p));
            && s.cashRefunded == None && s.paid == p.returned + Min(brought, due) && s.change == Max(brought - due, 0)
            && s.status == (if brought >= due then Paid else if brought > 0 then PartiallyPaid else Unpaid)
            && s.rows != [] && s.rows[0] == SalePay(sale, p.returned, Other, Some(number))
            && Owes(t.ledger, s.ledger, p.customer, s.balanceAfter, due - brought, SaleRef(sale))
  {
    ExchangeTendersAreBrought(dto, Difference(p));
  }

  lemma {:induction false} CoverRefunds(t: Tables, dto: ExchangeDto, p: Plan, sale: Id, ret: Id, number: Number, s: Settled)
    requires Difference(p) <= 0 && Consistent(p) && Settle(t, dto, p, sale, ret, number) == Ok(s)
    ensures var over := -Difference(p);
            && s.paid == p.total && s.change == 0 && s.status == Paid && s.rows == [SalePay(sale, p.total, Other, Some(number))]
            && if over == 0 then s.cashRefunded == None && s.balanceAfter == None && s.ledger == t.ledger && s.till == t.till
               else if p.refund == Some(RefundCredit) then
                 && s.cashRefunded == None && s.till == t.till
                 && p.customer.Some? && s.balanceAfter == Some(Balance(t.ledger, p.customer.value) - over)
                 && s.ledger == t.ledger + [LedgerEntry(p.customer.value, ReturnRef(ret), ReturnEntry, 0, over, Balance(t.ledger, p.customer.value) - over)]
               else
                 && s.cashRefunded == Some(over) && s.balanceAfter == None && s.ledger == t.ledger
                 && MovedInOpenSession(t.till, s.till, p.branch, ReturnRefund, Outward, over, ReturnRef(ret))
  {
    OpenSessionIsOpen(t.till.sessions, p.branch);
  }

  /** When the customer pays: what is brought pays, comes back as change, or is missing; the first payment row offsets the return. */
  lemma {:induction false} ExchangeCollectsTheDifference(t: Tables, dto: ExchangeDto)
    requires ExchangeSpec(t, dto).0.Ok? && Replacement(t, dto) > Worth(t, dto)
    ensures var first, due := ExchangeSpec(t, dto).0.value, Replacement(t, dto) - Worth(t, dto);
            var brought := BroughtTo(dto, due);
            && first.difference == due && first.refund == None && first.cashRefunded == None
            && first.sale.paid == Worth(t, dto) + Min(brought, due) && first.sale.change == Max(brought - due, 0) && first.credit == Max(due - brought, 0)
            && first.sale.status == (if brought >= due then Paid else if brought > 0 then PartiallyPaid else Unpaid)
            && first.payments != [] && first.payments[0] == SalePay(first.saleId, Worth(t, dto), Other, Some(first.salesReturn.number))
  {
    var p, s := ExchangeSettles(t, dto);
    PlanFigures(t, dto, p);
    CollectTakesWhatIsBrought(t, dto, p, |t.books.sales|, |t.books.refunds|, ReturnNumber(t.books, p, dto.period), s);
  }

  /** What is missing is owed by the customer of the original sale, as one SALE debit; otherwise the ledger is left alone. */
  lemma {:induction false} ExchangeOwesTheRest(t: Tables, dto: ExchangeDto)
    requires ExchangeSpec(t, dto).0.Ok? && Replacement(t, dto) > Worth(t, dto)
    ensures var (r, after) := ExchangeSpec(t, dto);
            var first, due := r.value, Replacement(t, dto) - Worth(t, dto);
            var owed, customer := due - BroughtTo(dto, due), t.books.sales[dto.sale].customer;
            Owes(t.ledger, after.ledger, customer, first.balanceAfter, owed, SaleRef(first.saleId))
  {
    var p, s := ExchangeSettles(t, dto);
    PlanFigures(t, dto, p);
    CollectTakesWhatIsBrought(t, dto, p, |t.books.sales|, |t.books.refunds|, ReturnNumber(t.books, p, dto.period), s);
  }

  /** The CASH among its other payment rows is what comes into an open session of the branch. */
  lemma {:induction false} ExchangeBanksItsCashRows(t: Tables, dto: ExchangeDto)
    requires ExchangeSpec(t, dto).0.Ok? && Replacement(t, dto) > Worth(t, dto)
    ensures var (r, after) := ExchangeSpec(t, dto);
            var first := r.value;
            var cash := Sum(first.payments, CashRowOf(first.saleId));
            if cash > 0 then MovedInOpenSession(t.till, after.till, t.books.sales[dto.sale].branch, SalePayment, Inward, cash, SaleRef(first.saleId))
            else after.till == t.till
  {
    var p, s := ExchangeSettles(t, dto);
    var due := Difference(p);
    PlanFigures(t, dto, p);
    CollectedCashRows(t, dto, p, |t.books.sales|, |t.books.refunds|, ReturnNumber(t.books, p, dto.period), s);
    ExchangeTendersArePositive(dto, due);
    AllocationIsExact(ExchangeTenders(dto, due), due);
    SettledCash(t, dto, p, |t.books.sales|, |t.books.refunds|, ReturnNumber(t.books, p, dto.period));
  }

  lemma {:induction false} CollectedCashRows(t: Tables, dto: ExchangeDto, p: Plan, sale: Id, ret: Id, number: Number, s: Settled)
    requires Difference(p) > 0 && Settle(t, dto, p, sale, ret, number) == Ok(s)
    ensures Sum(s.rows, CashRowOf(sale)) == CashOf(Allocate(ExchangeTenders(dto, Difference(p)), Difference(p))) && s.cashRefunded == None
  {
    var shares := Allocate(ExchangeTenders(dto, Difference(p)), Difference(p));
    CashOfRows(sale, shares);
    SumCons(OffsetRow(sale, p.returned, number), PaymentRows(sale, shares), CashRowOf(sale));
  }

  /**
   * When the shop refunds: CREDIT lowers the account of the sale's customer by the difference as one
   * RETURN credit and touches no till; any other method pays the difference out of an open session
   * and touches no account. When nothing is left over, neither is touched.
   */
  lemma {:induction false} ExchangeRefundsAsAsked(t: Tables, dto: ExchangeDto)
    requires ExchangeSpec(t, dto).0.Ok? && Replacement(t, dto) <= Worth(t, dto)
    ensures var (r, after) := ExchangeSpec(t, dto);
            var first, over, customer := r.value, Worth(t, dto) - Replacement(t, dto), t.books.sales[dto.sale].customer;
            && first.difference == -over && first.sale.paid == first.sale.total && first.sale.change == 0 && first.sale.status == Paid && first.credit == 0
            && first.payments == [SalePay(first.saleId, first.sale.total, Other, Some(first.salesReturn.number))]
            && if over == 0 then
                 first.refund == None && first.cashRefunded == None && first.balanceAfter == None && after.ledger == t.ledger && after.till == t.till
               else if dto.refund == Some(Credit) then
                 && first.refund == Some(RefundCredit) && first.cashRefunded == None && after.till == t.till
                 && customer.Some? && first.balanceAfter == Some(Balance(t.ledger, customer.value) - over)
                 && after.ledger == t.ledger + [LedgerEntry(customer.value, ReturnRef(first.ret), ReturnEntry, 0, over, Balance(t.ledger, customer.value) - over)]
               else
                 && first.refund == Some(RefundCash) && first.cashRefunded == Some(over) && first.balanceAfter == None && after.ledger == t.ledger
                 && MovedInOpenSession(t.till, after.till, t.books.sales[dto.sale].branch, ReturnRefund, Outward, over, ReturnRef(first.ret))
  {
    var p, s := ExchangeSettles(t, dto);
    PlanFigures(t, dto, p);
    CoverRefunds(t, dto, p, |t.books.sales|, |t.books.refunds|, ReturnNumber(t.books, p, dto.period), s);
  }

  /** A refund is given exactly when the goods are worth more than the replacement. */
  lemma {:induction false} RefundIffGoodsAreWorthMore(t: Tables, dto: ExchangeDto)
    requires ExchangeSpec(t, dto).0.Ok?
    ensures ExchangeSpec(t, dto).0.value.refund.Some? <==> Replacement(t, dto) < Worth(t, dto)
    ensures ExchangeSpec(t, dto).0.value.difference == Replacement(t, dto) - Worth(t, dto)
  {
    ExchangeWrites(t, dto);
    PlanTellsTheRequest(t, dto);
  }

  /** A planned exchange commits exactly when the goods are worth something, the rows and prices allow it, and the difference can be banked, owed or refunded. */
  lemma {:induction false} PlannedExchangeCommitsIff(t: Tables, dto: ExchangeDto)
    requires PrepareExchange(t, dto).Ok? && forall p | p in t.products :: t.products[p].salePrice >= 0 && t.products[p].purchasePrice >= 0
    ensures var branch, due := t.books.sales[dto.sale].branch, Replacement(t, dto) - Worth(t, dto);
            ExchangeSpec(t, dto).0.Ok? <==>
              && Worth(t, dto) > 0 && RowsExist(t.inventory.stock, branch, GoodsOf(t.books, dto.goods))
              && (forall i | 0 <= i < |dto.items| && dto.items[i].unitPrice.Some? :: dto.items[i].unitPrice.value >= 0)
              && if due > 0 then
                   && CanBank(t, branch, Allocate(ExchangeTenders(dto, due), due))
                   && (BroughtTo(dto, due) < due ==> t.books.sales[dto.sale].customer.Some?)
                 else Replacement(t, dto) > 0 && (due < 0 && dto.refund != Some(Credit) ==> !NoneOpen(t.till, branch))
    ensures ExchangeSpec(t, dto).0.Err? ==> ExchangeSpec(t, dto).1 == t
  {
    var p, due := PrepareExchange(t, dto).value, Difference(PrepareExchange(t, dto).value);
    PlanTellsTheRequest(t, dto);
    ExchangeCommitsIff(t, dto);
    GoodsMoveAsAsked(t, dto);
    OpenSessionIsOpen(t.till.sessions, p.branch);
    if due > 0 {
      ExchangeTendersAreBrought(dto, due);
      ExchangeTendersArePositive(dto, due);
      AllocationIsExact(ExchangeTenders(dto, due), due);
      BanksIff(t, p.branch, SalePayment, Allocate(ExchangeTenders(dto, due), due), NoRef);
    }
  }

  lemma {:induction false} GoodsMoveAsAsked(t: Tables, dto: ExchangeDto)
    requires PrepareExchange(t, dto).Ok? && forall p | p in t.products :: t.products[p].salePrice >= 0 && t.products[p].purchasePrice >= 0
    ensures GoodsCanMove(t, PrepareExchange(t, dto).value) <==>
              && RowsExist(t.inventory.stock, t.books.sales[dto.sale].branch, GoodsOf(t.books, dto.goods))
              && forall i | 0 <= i < |dto.items| && dto.items[i].unitPrice.Some? :: dto.items[i].unitPrice.value >= 0
  {
    var p := PrepareExchange(t, dto).value;
    PlanTellsTheRequest(t, dto);
    forall i | 0 <= i < |dto.items| ensures |p.lines| == |dto.items| && Sellable(t.products, dto.items[i])
                                     && p.lines[i].unitPrice == PriceOf(t.products, dto.items[i]) && p.lines[i].cost >= 0 {
      LinesArePriced(t.products, dto.items, true, i);
    }
    LinesArePriced(t.products, dto.items, true, 0);
    assert forall i | 0 <= i < |p.back| :: Back(p.back)[i].product == p.back[i].product;
  }

  predicate SendsNegativePrice(dto: ExchangeDto) {
    exists i :: 0 <= i < |dto.items| && dto.items[i].unitPrice.Some? && dto.items[i].unitPrice.value < 0
  }

  /** What a planned exchange that fails is told: a lost stock row is a server error, a missing debtor or session a bad request, and what the schema refuses a violation. */
  function PlannedRefusal(t: Tables, dto: ExchangeDto): Failure
    requires dto.sale < |t.books.sales|
  {
    var original := t.books.sales[dto.sale];
    if Worth(t, dto) <= 0 then CheckViolation
    else if !RowsExist(t.inventory.stock, original.branch, GoodsOf(t.books, dto.goods)) then ServerError
    else if SendsNegativePrice(dto) then CheckViolation
    else SettlementFault(dto, Replacement(t, dto) - Worth(t, dto), Replacement(t, dto), original.customer)
  }

  function SettlementFault(dto: ExchangeDto, due: Money, total: Money, customer: Option<Id>): Failure {
    var shares := Allocate(ExchangeTenders(dto, due), due);
    if due > 0 then
      if BroughtTo(dto, due) < due && customer.None? then BadRequest
      else if exists i :: 0 <= i < |shares| && !Storable(shares[i].means) then CheckViolation
      else BadRequest
    else if total <= 0 then CheckViolation
    else BadRequest
  }

  lemma {:induction false} WritesFailOnPrice(inv: Inventory, branch: Id, lines: seq<PreparedLine>, reference: Ref, i: nat)
    requires i < |lines| && lines[i].unitPrice < 0 && Positive(Portions(lines)) && Available(inv.stock, branch, Portions(lines))
    ensures WriteAll(inv, branch, lines, reference) == Err(CheckViolation)
    decreases |lines|
  {
    if lines[0].unitPrice >= 0 && lines[0].cost >= 0 {
      var first := Portion(lines[0].product, lines[0].quantity);
      assert Portions(lines)[0] == first && Portions(lines)[1..] == Portions(lines[1..]);
      WantedNonNegative(Portions(lines), lines[0].product);
      AvailableTail(inv, branch, Portions(lines), reference);
      WritesFailOnPrice(Deduct(inv, branch, first, reference).value, branch, lines[1..], reference, i - 1);
    }
  }

  lemma {:induction false} PriceRefusal(t: Tables, dto: ExchangeDto, p: Plan)
    requires PrepareExchange(t, dto) == Ok(p) && SendsNegativePrice(dto)
    requires RestoreAll(t.inventory, p.branch, Back(p.back), ReturnRef(|t.books.refunds|), ServerError).Ok?
    ensures ExchangeStock(t, p) == Err(CheckViolation)
  {
    var ref := ReturnRef(|t.books.refunds|);
    var i :| 0 <= i < |dto.items| && dto.items[i].unitPrice.Some? && dto.items[i].unitPrice.value < 0;
    var restored := RestoreAll(t.inventory, p.branch, Back(p.back), ref, ServerError).value;
    LinesArePriced(t.products, dto.items, true, i);
    PreparedReturnsAreSane(t.books, dto.sale, dto.goods);
    PreparedLinesAreSane(t.products, dto.items, true);
    AvailableAfterRestore(t.inventory, p.branch, Back(p.back), Portions(p.lines), ref, ServerError);
    WritesFailOnPrice(restored, p.branch, p.lines, SaleRef(|t.books.sales|), i);
  }

  lemma {:induction false} StockRefusal(t: Tables, dto: ExchangeDto, p: Plan)
    requires PrepareExchange(t, dto) == Ok(p) && (forall q | q in t.products :: t.products[q].salePrice >= 0 && t.products[q].purchasePrice >= 0)
    ensures !RowsExist(t.inventory.stock, p.branch, GoodsOf(t.books, dto.goods)) ==> ExchangeStock(t, p) == Err(ServerError)
    ensures RowsExist(t.inventory.stock, p.branch, GoodsOf(t.books, dto.goods)) && SendsNegativePrice(dto) ==> ExchangeStock(t, p) == Err(CheckViolation)
    ensures RowsExist(t.inventory.stock, p.branch, GoodsOf(t.books, dto.goods)) && !SendsNegativePrice(dto) ==> ExchangeStock(t, p).Ok?
  {
    PlanTellsTheRequest(t, dto);
    RestoresWhenRowsExist(t.inventory, p.branch, Back(p.back), ReturnRef(|t.books.refunds|), ServerError);
    if RowsExist(t.inventory.stock, p.branch, GoodsOf(t.books, dto.goods)) {
      if SendsNegativePrice(dto) {
        PriceRefusal(t, dto, p);
      } else {
        GoodsMoveAsAsked(t, dto);
        GoodsMoveIff(t, dto);
      }
    }
  }

  lemma {:induction false} SettleRefusal(t: Tables, dto: ExchangeDto, p: Plan, sale: Id, ret: Id, number: Number)
    requires Consistent(p) && p.returned > 0 && Settle(t, dto, p, sale, ret, number).Err?
    ensures Settle(t, dto, p, sale, ret, number).failure == SettlementFault(dto, Difference(p), p.total, p.customer)
  {
    var due := Difference(p);
    var shares := Allocate(ExchangeTenders(dto, due), due);
    ExchangeTendersAreBrought(dto, due);
    assert AllStorable(shares) <==> !exists i :: 0 <= i < |shares| && !Storable(shares[i].means);
  }

  lemma {:induction false} CommitRefusal(t: Tables, dto: ExchangeDto, p: Plan)
    requires CommitExchange(t, dto, p).Err?
    ensures var r := CommitExchange(t, dto, p);
            if p.returned <= 0 then r == Err(CheckViolation)
            else if ExchangeStock(t, p).Err? then r.failure == ExchangeStock(t, p).failure
            else
              var s := Settle(t, dto, p, |t.books.sales|, |t.books.refunds|, ReturnNumber(t.books, p, dto.period));
              s.Err? && r.failure == s.failure
  {}

  /** What a planned exchange that fails is told, and that it fails without a trace. */
  lemma {:induction false} PlannedExchangeRefusals(t: Tables, dto: ExchangeDto)
    requires PrepareExchange(t, dto).Ok? && ExchangeSpec(t, dto).0.Err?
    requires forall p | p in t.products :: t.products[p].salePrice >= 0 && t.products[p].purchasePrice >= 0
    ensures ExchangeSpec(t, dto) == (Err(PlannedRefusal(t, dto)), t)
  {
    var p := PrepareExchange(t, dto).value;
    PlanFigures(t, dto, p);
    PlanIsConsistent(t, dto);
    StockRefusal(t, dto, p);
    CommitRefusal(t, dto, p);
    if p.returned > 0 && ExchangeStock(t, p).Ok? {
      SettleRefusal(t, dto, p, |t.books.sales|, |t.books.refunds|, ReturnNumber(t.books, p, dto.period));
    }
  }
}
