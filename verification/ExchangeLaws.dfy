/** What an accepted exchange establishes, and what it keeps. */
module ExchangeLaws {
  import opened Wrappers
  import opened Sums
  import opened Tables
  import opened StockLog
  import opened CashDesk
  import opened CustomerLedger
  import opened Checkout
  import opened Bookkeeping
  import opened ProductStock
  import opened Sales
  import opened Returns
  import opened Exchange

  // ------------------------------------------------------------------
  // Money.

  /** Payment rows that are money, not the offset of returned goods. */
  function Applied(rows: seq<SalePay>): Money {
    if rows == [] then 0 else (if rows[0].offset.None? then rows[0].amount else 0) + Applied(rows[1..])
  }

  lemma {:induction false} AppliedShares(sale: Id, ts: seq<Tender>)
    ensures Applied(PaymentRows(sale, ts)) == SumTenders(ts)
    decreases |ts|
  {
    if ts != [] {
      assert PaymentRows(sale, ts)[1..] == PaymentRows(sale, ts[1..]);
      AppliedShares(sale, ts[1..]);
    }
  }

  lemma {:induction false} OffsetThenShares(sale: Id, offset: SalePay, ts: seq<Tender>)
    requires offset.sale == sale && offset.offset.Some?
    ensures var rows := [offset] + PaymentRows(sale, ts);
            PaidFor(rows, sale) == offset.amount + SumTenders(ts) && Applied(rows) == SumTenders(ts)
  {
    SumCons(offset, PaymentRows(sale, ts), PaymentTo(sale));
    PaidForRows(sale, ts);
    assert ([offset] + PaymentRows(sale, ts))[1..] == PaymentRows(sale, ts);
    AppliedShares(sale, ts);
  }

  /** The refund method a plan carries fits its difference and its customer. */
  predicate Consistent(p: Plan) {
    && (Difference(p) < 0 <==> p.refund.Some?)
    && (p.refund.Some? ==> p.refund == Some(RefundCash) || (p.refund == Some(RefundCredit) && p.customer.Some?))
  }

  lemma {:induction false} PlanIsConsistent(t: Tables, dto: ExchangeDto)
    requires PrepareExchange(t, dto).Ok?
    ensures Consistent(PrepareExchange(t, dto).value)
  {}

  function Owed(before: seq<LedgerEntry>, after: seq<LedgerEntry>, customer: Option<Id>): Money {
    if customer.Some? then Balance(after, customer.value) - Balance(before, customer.value) else 0
  }

  function PaidOut(cashRefunded: Option<Money>): Money { if cashRefunded.Some? then cashRefunded.value else 0 }

  lemma {:induction false} ExchangeTendersArePositive(dto: ExchangeDto, due: Money)
    ensures PositiveTenders(ExchangeTenders(dto, due))
  {
    RealTendersArePositive(dto.payments, true);
  }

  lemma {:induction false} EntryCounts(ledger: seq<LedgerEntry>, owner: Id, reference: Ref, kind: EntryKind, debit: Money, credit: Money, customer: Id)
    ensures Balance(Append(ledger, owner, reference, kind, debit, credit), customer)
         == Balance(ledger, customer) + (if owner == customer then debit - credit else 0)
  {
    assert Append(ledger, owner, reference, kind, debit, credit)[..|ledger|] == ledger;
  }

  /** What a settlement must add up to. */
  ghost predicate Balanced(t: Tables, p: Plan, sale: Id, s: Settled) {
    && PaidFor(s.rows, sale) == s.paid
    && p.returned + Applied(s.rows) + Owed(t.ledger, s.ledger, p.customer) == p.total + PaidOut(s.cashRefunded)
    && s.change >= 0
    && (s.status == Paid <==> Owed(t.ledger, s.ledger, p.customer) <= 0)
    && Max(p.total - s.paid, 0) == Max(Owed(t.ledger, s.ledger, p.customer), 0)
  }

  lemma {:induction false} CollectedDebt(t: Tables, dto: ExchangeDto, p: Plan, sale: Id, number: Number)
    requires Difference(p) > 0 && Collect(t, dto, p, sale, number).Ok?
    ensures Owed(t.ledger, Collect(t, dto, p, sale, number).value.ledger, p.customer)
         == Max(Difference(p) - SumTenders(ExchangeTenders(dto, Difference(p))), 0)
  {
    var due := Difference(p);
    var tendered := SumTenders(ExchangeTenders(dto, due));
    if tendered < due {
      EntryCounts(t.ledger, p.customer.value, SaleRef(sale), SaleEntry, due - tendered, 0, p.customer.value);
    }
  }

  lemma {:induction false} CollectingBalances(t: Tables, dto: ExchangeDto, p: Plan, sale: Id, number: Number)
    requires Difference(p) > 0 && Collect(t, dto, p, sale, number).Ok?
    ensures var s := Collect(t, dto, p, sale, number).value;
            && Balanced(t, p, sale, s) && s.cashRefunded == None
            && SumTenders(ExchangeTenders(dto, Difference(p))) == Applied(s.rows) + s.change
  {
    var due := Difference(p);
    var tenders := ExchangeTenders(dto, due);
    ExchangeTendersArePositive(dto, due);
    AllocationIsExact(tenders, due);
    OffsetThenShares(sale, OffsetRow(sale, p.returned, number), Allocate(tenders, due));
    CollectedDebt(t, dto, p, sale, number);
  }

  lemma {:induction false} CoveringBalances(t: Tables, p: Plan, sale: Id, ret: Id, number: Number)
    requires Difference(p) <= 0 && Consistent(p) && Cover(t, p, sale, ret, number).Ok?
    ensures var s := Cover(t, p, sale, ret, number).value;
            Balanced(t, p, sale, s) && Applied(s.rows) == 0 && s.change == 0
  {
    var offset := OffsetRow(sale, p.total, number);
    OffsetThenShares(sale, offset, []);
    assert [offset] + PaymentRows(sale, []) == [offset];
    if p.refund == Some(RefundCredit) {
      EntryCounts(t.ledger, p.customer.value, ReturnRef(ret), ReturnEntry, 0, -Difference(p), p.customer.value);
    }
  }

  /**
   * No value appears or disappears in an exchange: the returned goods, the money applied and the new
   * debt equal the replacement and the cash refunded (an account credit is a negative debt). The
   * payment rows total the paid amount, the credit reported is the debt, and it is marked PAID
   * exactly when no debt is left.
   */
  lemma {:induction false} ExchangeConservesValue(t: Tables, dto: ExchangeDto)
    requires ExchangeSpec(t, dto).0.Ok? && RowsBelong(t.books)
    ensures var (r, after) := ExchangeSpec(t, dto);
            var first := r.value;
            var owed := Owed(t.ledger, after.ledger, first.sale.customer);
            && first.salesReturn.total + Applied(first.payments) + owed == first.sale.total + PaidOut(first.cashRefunded)
            && PaidFor(after.books.payments, first.saleId) == first.sale.paid
            && first.credit == Max(owed, 0) && (first.sale.status == Paid <==> owed <= 0)
            && first.sale.change >= 0
  {
    var p := PrepareExchange(t, dto).value;
    var sale, ret, number := |t.books.sales|, |t.books.refunds|, ReturnNumber(t.books, p, dto.period);
    PlanIsConsistent(t, dto);
    if Difference(p) > 0 {
      CollectingBalances(t, dto, p, sale, number);
    } else {
      CoveringBalances(t, p, sale, ret, number);
    }
    NewSaleIsPaid(t.books, Settle(t, dto, p, sale, ret, number).value.rows);
  }

  lemma {:induction false} NewSaleIsPaid(b: Books, rows: seq<SalePay>)
    requires RowsBelong(b)
    ensures PaidFor(b.payments + rows, |b.sales|) == PaidFor(rows, |b.sales|)
  {
    SumNone(b.payments, PaymentTo(|b.sales|));
    SumAppend(b.payments, rows, PaymentTo(|b.sales|));
  }

  /** Tendered money is applied or handed back, only when the customer pays. */
  lemma {:induction false} ExchangeChangeIsTheRest(t: Tables, dto: ExchangeDto)
    requires ExchangeSpec(t, dto).0.Ok?
    ensures var first := ExchangeSpec(t, dto).0.value;
            if first.difference > 0 then SumTenders(ExchangeTenders(dto, first.difference)) == Applied(first.payments) + first.sale.change
            else Applied(first.payments) == 0 && first.sale.change == 0
  {
    var p := PrepareExchange(t, dto).value;
    var sale, ret, number := |t.books.sales|, |t.books.refunds|, ReturnNumber(t.books, p, dto.period);
    PlanIsConsistent(t, dto);
    if Difference(p) > 0 {
      CollectingBalances(t, dto, p, sale, number);
    } else {
      CoveringBalances(t, p, sale, ret, number);
    }
  }

  lemma {:induction false} BookedInOpenSession(till: Till, branch: Id, kind: CashKind, direction: Direction, amount: Money, reference: Ref)
    requires amount > 0 && BookCash(till, branch, kind, direction, amount, reference).Some?
    ensures MovedInOpenSession(till, BookCash(till, branch, kind, direction, amount, reference).value, branch, kind, direction, amount, reference)
  {
    OpenSessionIsOpen(till.sessions, branch);
  }

  lemma {:induction false} SettledCash(t: Tables, dto: ExchangeDto, p: Plan, sale: Id, ret: Id, number: Number)
    requires Consistent(p) && Settle(t, dto, p, sale, ret, number).Ok?
    ensures var s, due := Settle(t, dto, p, sale, ret, number).value, Difference(p);
            var cash := CashOf(Allocate(ExchangeTenders(dto, due), due));
            if due > 0 && cash > 0 then MovedInOpenSession(t.till, s.till, p.branch, SalePayment, Inward, cash, SaleRef(sale))
            else if s.cashRefunded.Some? then
              due < 0 && s.cashRefunded.value == -due && MovedInOpenSession(t.till, s.till, p.branch, ReturnRefund, Outward, -due, ReturnRef(ret))
            else s.till == t.till
  {
    var due := Difference(p);
    if due > 0 {
      var cash := CashOf(Allocate(ExchangeTenders(dto, due), due));
      if cash > 0 {
        BookedInOpenSession(t.till, p.branch, SalePayment, Inward, cash, SaleRef(sale));
      }
    } else if p.refund == Some(RefundCash) {
      BookedInOpenSession(t.till, p.branch, ReturnRefund, Outward, -due, ReturnRef(ret));
    }
  }

  /** The open session receives exactly the cash share, or pays exactly the cash refund, or sees nothing. */
  lemma {:induction false} ExchangeCashIsExact(t: Tables, dto: ExchangeDto)
    requires ExchangeSpec(t, dto).0.Ok?
    ensures var (r, after) := ExchangeSpec(t, dto);
            var first := r.value;
            var cash := CashOf(Allocate(ExchangeTenders(dto, first.difference), first.difference));
            if first.difference > 0 && cash > 0 then
              MovedInOpenSession(t.till, after.till, first.sale.branch, SalePayment, Inward, cash, SaleRef(first.saleId))
            else if first.cashRefunded.Some? then
              first.difference < 0 && first.cashRefunded.value == -first.difference
              && MovedInOpenSession(t.till, after.till, first.sale.branch, ReturnRefund, Outward, -first.difference, ReturnRef(first.ret))
            else after.till == t.till
  {
    var p := PrepareExchange(t, dto).value;
    PlanIsConsistent(t, dto);
    SettledCash(t, dto, p, |t.books.sales|, |t.books.refunds|, ReturnNumber(t.books, p, dto.period));
  }

  // ------------------------------------------------------------------
  // Stock.

  /** Returned goods put back and replacements taken out of one branch. */
  ghost predicate IsExchanged(before: map<Shelf, int>, after: map<Shelf, int>, branch: Id, back: seq<Portion>, out: seq<Portion>) {
    && after.Keys == before.Keys
    && forall s | s in before ::
         after[s] == before[s] + (if s.branch == branch then Wanted(back, s.product) - Wanted(out, s.product) else 0)
  }

  /**
   * The check made before the first write covers the whole exchange: once the returned goods are
   * back, writing the replacement lines cannot fail on stock, and every shelf ends where the two
   * requests say.
   */
  lemma {:induction false} CheckedExchangeStockSuffices(t: Tables, dto: ExchangeDto)
    requires PrepareExchange(t, dto).Ok?
    requires var p := PrepareExchange(t, dto).value;
             && RestoreAll(t.inventory, p.branch, Back(p.back), ReturnRef(|t.books.refunds|), ServerError).Ok?
             && forall i | 0 <= i < |p.lines| :: p.lines[i].unitPrice >= 0 && p.lines[i].cost >= 0
    ensures ExchangeStock(t, PrepareExchange(t, dto).value).Ok?
  {
    var p := PrepareExchange(t, dto).value;
    var ref := ReturnRef(|t.books.refunds|);
    var restored := RestoreAll(t.inventory, p.branch, Back(p.back), ref, ServerError).value;
    PreparedReturnsAreSane(t.books, dto.sale, dto.goods);
    PreparedLinesAreSane(t.products, dto.items, true);
    AvailableAfterRestore(t.inventory, p.branch, Back(p.back), Portions(p.lines), ref, ServerError);
    WriteAllDeducts(restored, p.branch, p.lines, SaleRef(|t.books.sales|));
    AggregateCheckIsExact(restored, p.branch, Portions(p.lines), SaleRef(|t.books.sales|));
  }

  lemma {:induction false} ExchangeMovesItsTotals(t: Tables, dto: ExchangeDto)
    requires ExchangeSpec(t, dto).0.Ok?
    ensures var p := PrepareExchange(t, dto).value;
            IsExchanged(t.inventory.stock, ExchangeSpec(t, dto).1.inventory.stock, p.branch, Back(p.back), Portions(p.lines))
  {
    var p := PrepareExchange(t, dto).value;
    var ref := ReturnRef(|t.books.refunds|);
    var restored := RestoreAll(t.inventory, p.branch, Back(p.back), ref, ServerError).value;
    RestoreAllAdds(t.inventory, p.branch, Back(p.back), ref, ServerError);
    PreparedLinesAreSane(t.products, dto.items, true);
    WriteAllDeducts(restored, p.branch, p.lines, SaleRef(|t.books.sales|));
    AggregateCheckIsExact(restored, p.branch, Portions(p.lines), SaleRef(|t.books.sales|));
  }

  // ------------------------------------------------------------------
  // Which planned exchanges commit.

  lemma {:induction false} RestoresIff(inv: Inventory, branch: Id, ps: seq<Portion>, reference: Ref, missing: Failure)
    ensures RestoreAll(inv, branch, ps, reference, missing).Ok? <==> forall i | 0 <= i < |ps| :: Shelf(ps[i].product, branch) in inv.stock
    decreases |ps|
  {
    if ps != [] {
      var first := Restore(inv, branch, ps[0], reference, missing);
      if first.Ok? {
        RestoresIff(first.value, branch, ps[1..], reference, missing);
        assert forall i | 0 < i < |ps| :: ps[i] == ps[1..][i - 1];
      }
    }
  }

  lemma {:induction false} WrittenPrices(inv: Inventory, branch: Id, lines: seq<PreparedLine>, reference: Ref)
    requires WriteAll(inv, branch, lines, reference).Ok?
    ensures forall i | 0 <= i < |lines| :: lines[i].unitPrice >= 0 && lines[i].cost >= 0
    decreases |lines|
  {
    if lines != [] {
      WrittenPrices(Deduct(inv, branch, Portion(lines[0].product, lines[0].quantity), reference).value, branch, lines[1..], reference);
    }
  }

  /** The rows of every product coming back exist, and no replacement line has a negative price or cost. */
  predicate GoodsCanMove(t: Tables, p: Plan) {
    && (forall i | 0 <= i < |p.back| :: Shelf(p.back[i].product, p.branch) in t.inventory.stock)
    && (forall i | 0 <= i < |p.lines| :: p.lines[i].unitPrice >= 0 && p.lines[i].cost >= 0)
  }

  lemma {:induction false} GoodsMoveIff(t: Tables, dto: ExchangeDto)
    requires PrepareExchange(t, dto).Ok?
    ensures var p := PrepareExchange(t, dto).value; ExchangeStock(t, p).Ok? <==> GoodsCanMove(t, p)
  {
    var p, ref := PrepareExchange(t, dto).value, ReturnRef(|t.books.refunds|);
    RestoresIff(t.inventory, p.branch, Back(p.back), ref, ServerError);
    assert forall i | 0 <= i < |p.back| :: Back(p.back)[i].product == p.back[i].product;
    var restored := RestoreAll(t.inventory, p.branch, Back(p.back), ref, ServerError);
    if restored.Ok? {
      if ExchangeStock(t, p).Ok? {
        WrittenPrices(restored.value, p.branch, p.lines, SaleRef(|t.books.sales|));
      }
      if GoodsCanMove(t, p) {
        CheckedExchangeStockSuffices(t, dto);
      }
    }
  }

  predicate HasOpenSession(t: Tables, branch: Id) { OpenSessionAt(t.till.sessions, branch).Some? }

  /**
   * A positive difference: every share that is booked has a method the schema knows (BANK is not
   * one), what is not tendered has a customer to owe it, and cash has an open session. Otherwise the
   * replacement must be worth something, and a cash refund needs an open session.
   */
  predicate CanSettle(t: Tables, dto: ExchangeDto, p: Plan) {
    var due := Difference(p);
    var tenders := ExchangeTenders(dto, due);
    if due > 0 then
      && (forall i | 0 <= i < |Allocate(tenders, due)| :: Storable(Allocate(tenders, due)[i].means))
      && (SumTenders(tenders) < due ==> p.customer.Some?)
      && (CashOf(Allocate(tenders, due)) > 0 ==> HasOpenSession(t, p.branch))
    else p.total > 0 && (p.refund == Some(RefundCash) && due < 0 ==> HasOpenSession(t, p.branch))
  }

  lemma {:induction false} SettlesIff(t: Tables, dto: ExchangeDto, p: Plan, sale: Id, ret: Id, number: Number)
    requires p.returned > 0
    ensures Settle(t, dto, p, sale, ret, number).Ok? <==> CanSettle(t, dto, p)
  {}

  /** A planned exchange commits exactly when what comes back is worth something, the goods can move and the difference can be settled. */
  lemma {:induction false} ExchangeCommitsIff(t: Tables, dto: ExchangeDto)
    requires PrepareExchange(t, dto).Ok?
    ensures var p := PrepareExchange(t, dto).value;
            ExchangeSpec(t, dto).0.Ok? <==> p.returned > 0 && GoodsCanMove(t, p) && CanSettle(t, dto, p)
  {
    var p := PrepareExchange(t, dto).value;
    GoodsMoveIff(t, dto);
    if p.returned > 0 {
      SettlesIff(t, dto, p, |t.books.sales|, |t.books.refunds|, ReturnNumber(t.books, p, dto.period));
    }
  }

  // ------------------------------------------------------------------
  // Credit limits.

  function NewDebt(dto: ExchangeDto, p: Plan): Money {
    Max(Difference(p) - SumTenders(ExchangeTenders(dto, Difference(p))), 0)
  }

  /** An exchange never looks at the customers table. */
  lemma {:induction false} LimitsAreNotConsulted(t: Tables, dto: ExchangeDto, customers: map<Id, Customer>)
    ensures ExchangeSpec(t.(customers := customers), dto).0 == ExchangeSpec(t, dto).0
  {
    var other := t.(customers := customers);
    assert PrepareExchange(other, dto) == PrepareExchange(t, dto);
    if PrepareExchange(t, dto).Ok? {
      var p := PrepareExchange(t, dto).value;
      SettleReadsOnly(other, t, dto, p, |t.books.sales|, |t.books.refunds|, ReturnNumber(t.books, p, dto.period));
    }
  }

  /** By how much a settlement changes the customer's balance. */
  function Posting(dto: ExchangeDto, p: Plan): Money {
    if p.customer.None? then 0
    else if Difference(p) > 0 then NewDebt(dto, p)
    else if p.refund == Some(RefundCredit) then Difference(p)
    else 0
  }

  function PostingTo(dto: ExchangeDto, p: Plan, customer: Id): Money {
    if p.customer == Some(customer) then Posting(dto, p) else 0
  }

  /** Nothing is posted, or one entry that adds the posting to the balance that was read. */
  ghost predicate Extends(before: seq<LedgerEntry>, after: seq<LedgerEntry>, customer: Id, posting: Money, read: Money) {
    if posting == 0 then after == before
    else
      && |after| == |before| + 1 && before <= after
      && var e := after[|before|];
         e.customer == customer && e.debit >= 0 && e.credit >= 0 && e.debit - e.credit == posting && e.balanceAfter == read + posting
  }

  lemma {:induction false} CollectPosts(t: Tables, dto: ExchangeDto, p: Plan, sale: Id, number: Number)
    requires Difference(p) > 0 && p.customer.Some? && Collect(t, dto, p, sale, number).Ok?
    ensures Extends(t.ledger, Collect(t, dto, p, sale, number).value.ledger, p.customer.value, Posting(dto, p), Balance(t.ledger, p.customer.value))
  {}

  lemma {:induction false} CoverPosts(t: Tables, dto: ExchangeDto, p: Plan, sale: Id, ret: Id, number: Number)
    requires Difference(p) <= 0 && Consistent(p) && p.customer.Some? && Cover(t, p, sale, ret, number).Ok?
    ensures Extends(t.ledger, Cover(t, p, sale, ret, number).value.ledger, p.customer.value, Posting(dto, p), Balance(t.ledger, p.customer.value))
  {}

  lemma {:induction false} SettlePosts(t: Tables, dto: ExchangeDto, p: Plan, sale: Id, ret: Id, number: Number)
    requires Consistent(p) && p.customer.Some? && Settle(t, dto, p, sale, ret, number).Ok?
    ensures Extends(t.ledger, Settle(t, dto, p, sale, ret, number).value.ledger, p.customer.value, Posting(dto, p), Balance(t.ledger, p.customer.value))
  {
    if Difference(p) > 0 {
      CollectPosts(t, dto, p, sale, number);
    } else {
      CoverPosts(t, dto, p, sale, ret, number);
    }
  }

  lemma {:induction false} ExtendedBalance(before: seq<LedgerEntry>, after: seq<LedgerEntry>, owner: Id, posting: Money, read: Money, customer: Id)
    requires Extends(before, after, owner, posting, read)
    ensures Balance(after, customer) == Balance(before, customer) + (if customer == owner then posting else 0)
  {
    if posting != 0 {
      assert after[..|before|] == before;
    }
  }

  lemma {:induction false} ExtendedIndex(before: seq<LedgerEntry>, after: seq<LedgerEntry>, owner: Id, posting: Money, read: Money)
    requires RunningIndex(before) && Extends(before, after, owner, posting, read)
    ensures RunningIndex(after) <==> posting == 0 || read == Balance(before, owner)
  {
    if posting != 0 {
      assert after[..|before|] == before;
    }
  }

  /** The customer's balance moves by the posting, every other stays. */
  lemma {:induction false} ExchangePosting(t: Tables, dto: ExchangeDto, customer: Id)
    requires ExchangeSpec(t, dto).0.Ok?
    ensures Balance(ExchangeSpec(t, dto).1.ledger, customer) == Balance(t.ledger, customer) + PostingTo(dto, PrepareExchange(t, dto).value, customer)
  {
    var p, after := PrepareExchange(t, dto).value, ExchangeSpec(t, dto).1;
    PlanIsConsistent(t, dto);
    if p.customer.Some? {
      SettlePosts(t, dto, p, |t.books.sales|, |t.books.refunds|, ReturnNumber(t.books, p, dto.period));
      ExtendedBalance(t.ledger, after.ledger, p.customer.value, Posting(dto, p), Balance(t.ledger, p.customer.value), customer);
    } else {
      NobodyPosts(t, dto, p);
    }
  }

  lemma {:induction false} NobodyPosts(t: Tables, dto: ExchangeDto, p: Plan)
    requires Consistent(p) && p.customer.None? && CommitExchange(t, dto, p).Ok?
    ensures CommitExchange(t, dto, p).value.0.ledger == t.ledger
  {}

  /** Limits survive an exchange exactly when what it leaves unpaid fits the customer's limit, had anyone checked. */
  lemma {:induction false} ExchangeKeepsLimitsIff(t: Tables, dto: ExchangeDto)
    requires WithinLimits(t) && ExchangeSpec(t, dto).0.Ok?
    ensures var p := PrepareExchange(t, dto).value;
            WithinLimits(ExchangeSpec(t, dto).1) <==>
              (Difference(p) > 0 && p.customer.Some? && p.customer.value in t.customers && t.customers[p.customer.value].creditLimit > 0 ==>
                 Balance(t.ledger, p.customer.value) + NewDebt(dto, p) <= t.customers[p.customer.value].creditLimit)
  {
    var p, after := PrepareExchange(t, dto).value, ExchangeSpec(t, dto).1;
    PlanIsConsistent(t, dto);
    forall c | c in t.customers {
      ExchangePosting(t, dto, c);
    }
  }

  // ------------------------------------------------------------------
  // What an exchange keeps.

  lemma {:induction false} ExchangeKeepsStock(t: Tables, dto: ExchangeDto)
    requires StockInvariant(t)
    ensures StockInvariant(ExchangeSpec(t, dto).1)
  {
    if ExchangeSpec(t, dto).0.Ok? {
      var p, ref := PrepareExchange(t, dto).value, ReturnRef(|t.books.refunds|);
      var restored := RestoreAll(t.inventory, p.branch, Back(p.back), ref, ServerError).value;
      RestoringKeepsFaithful(t.inventory, p.branch, t.books, dto.sale, dto.goods, ref, ServerError);
      WritingKeepsFaithful(restored, p.branch, t.products, dto.items, true, SaleRef(|t.books.sales|));
    }
  }

  /** The till is as before, or one movement was booked in the open session. */
  ghost predicate BookedOnce(before: Till, after: Till, branch: Id) {
    after == before
    || exists kind: CashKind, direction: Direction, amount: Money, reference: Ref ::
         !kind.ExpenseMove? && BookCash(before, branch, kind, direction, amount, reference) == Some(after)
  }

  lemma {:induction false} SettlingBooksOnce(t: Tables, dto: ExchangeDto, p: Plan, sale: Id, ret: Id, number: Number)
    requires Settle(t, dto, p, sale, ret, number).Ok?
    ensures BookedOnce(t.till, Settle(t, dto, p, sale, ret, number).value.till, p.branch)
  {
    var due := Difference(p);
    if due > 0 {
      assert BookCash(t.till, p.branch, SalePayment, Inward, CashOf(Allocate(ExchangeTenders(dto, due), due)), SaleRef(sale))
          == Some(Settle(t, dto, p, sale, ret, number).value.till);
    } else if p.refund == Some(RefundCash) {
      assert BookCash(t.till, p.branch, ReturnRefund, Outward, -due, ReturnRef(ret)) == Some(Settle(t, dto, p, sale, ret, number).value.till);
    }
  }

  lemma {:induction false} BookingOnceKeepsTill(till: Till, after: Till, expenses: seq<Expense>, branch: Id)
    requires TillInvariant(till) && ExpensesNet(expenses, till.moves) && BookedOnce(till, after, branch)
    ensures TillInvariant(after) && ClosedStayFinal(till, after) && ExpensesNet(expenses, after.moves)
  {
    if after != till {
      var kind: CashKind, direction: Direction, amount: Money, reference: Ref :|
        !kind.ExpenseMove? && BookCash(till, branch, kind, direction, amount, reference) == Some(after);
      BookCashKeepsTill(till, expenses, branch, kind, direction, amount, reference);
    }
  }

  lemma {:induction false} ExchangeKeepsTill(t: Tables, dto: ExchangeDto)
    requires TillInvariant(t.till) && ExpensesNet(t.expenses, t.till.moves)
    ensures var after := ExchangeSpec(t, dto).1;
            TillInvariant(after.till) && ClosedStayFinal(t.till, after.till) && ExpensesNet(after.expenses, after.till.moves)
  {
    if ExchangeSpec(t, dto).0.Ok? {
      var p := PrepareExchange(t, dto).value;
      SettlingBooksOnce(t, dto, p, |t.books.sales|, |t.books.refunds|, ReturnNumber(t.books, p, dto.period));
      BookingOnceKeepsTill(t.till, ExchangeSpec(t, dto).1.till, t.expenses, p.branch);
    }
  }

  lemma {:induction false} SettlingKeepsIndex(t: Tables, dto: ExchangeDto, p: Plan, sale: Id, ret: Id, number: Number)
    requires RunningIndex(t.ledger) && Settle(t, dto, p, sale, ret, number).Ok?
    ensures RunningIndex(Settle(t, dto, p, sale, ret, number).value.ledger)
  {
    if p.customer.Some? {
      var due := Difference(p);
      if due > 0 {
        var owed := due - SumTenders(ExchangeTenders(dto, due));
        if owed > 0 {
          AppendKeepsIndex(t.ledger, p.customer.value, SaleRef(sale), SaleEntry, owed, 0);
        }
      } else {
        AppendKeepsIndex(t.ledger, p.customer.value, ReturnRef(ret), ReturnEntry, 0, -due);
      }
    }
  }

  lemma {:induction false} ExchangeKeepsLedger(t: Tables, dto: ExchangeDto)
    requires RunningIndex(t.ledger)
    ensures RunningIndex(ExchangeSpec(t, dto).1.ledger)
  {
    if ExchangeSpec(t, dto).0.Ok? {
      var p := PrepareExchange(t, dto).value;
      SettlingKeepsIndex(t, dto, p, |t.books.sales|, |t.books.refunds|, ReturnNumber(t.books, p, dto.period));
    }
  }

  lemma {:induction false} ReturnSidesBooks(t: Tables, dto: ExchangeDto, p: Plan)
    requires BooksInvariant(t.books) && PrepareExchange(t, dto) == Ok(p) && p.returned > 0
    ensures var mid := AddReturn(t.books, ReturnHeader(t.books, dto, p), ReturnRows(|t.books.refunds|, p.back));
            && BooksInvariant(mid)
            && InvoiceNumber(t.books, p, dto.period) == FreshNumber(mid, Counter(ExchangeInvoiceSeries(p.branch), dto.period))
            && (NothingOverReturned(t.books) && DistinctLines(dto.goods) ==> NothingOverReturned(mid))
  {
    PreparedReturnsAreSane(t.books, dto.sale, dto.goods);
    RefundForRows(|t.books.refunds|, p.back);
    AddReturnKeepsBooks(t.books, ReturnHeader(t.books, dto, p), ReturnRows(|t.books.refunds|, p.back));
    if NothingOverReturned(t.books) && DistinctLines(dto.goods) {
      DistinctLinesFit(t.books, dto.sale, dto.goods);
      RowsKeepReturnedIff(t.books, dto.sale, dto.goods, ReturnHeader(t.books, dto, p));
    }
  }

  lemma {:induction false} ReplacementLinesAreSound(t: Tables, dto: ExchangeDto, p: Plan)
    requires PrepareExchange(t, dto) == Ok(p) && ExchangeStock(t, p).Ok?
    ensures LinesSound(p.lines) && Subtotal(p.lines) == p.subtotal
  {
    var restored := RestoreAll(t.inventory, p.branch, Back(p.back), ReturnRef(|t.books.refunds|), ServerError).value;
    WrittenLinesAreSound(restored, p.branch, t.products, dto.items, true, SaleRef(|t.books.sales|));
  }

  lemma {:induction false} SettledRowsFit(t: Tables, dto: ExchangeDto, p: Plan, sale: Id, ret: Id, number: Number)
    requires Consistent(p) && Settle(t, dto, p, sale, ret, number).Ok?
    ensures var s := Settle(t, dto, p, sale, ret, number).value;
            PaidFor(s.rows, sale) == s.paid && forall k | 0 <= k < |s.rows| :: s.rows[k].sale == sale
  {
    if Difference(p) > 0 {
      CollectingBalances(t, dto, p, sale, number);
    } else {
      CoveringBalances(t, p, sale, ret, number);
    }
  }

  lemma {:induction false} ExchangeKeepsBooks(t: Tables, dto: ExchangeDto)
    requires BooksInvariant(t.books)
    ensures var after := ExchangeSpec(t, dto).1;
            BooksInvariant(after.books) && (NothingOverReturned(t.books) && DistinctLines(dto.goods) ==> NothingOverReturned(after.books))
  {
    if ExchangeSpec(t, dto).0.Ok? {
      var p, number := PrepareExchange(t, dto).value, ReturnNumber(t.books, PrepareExchange(t, dto).value, dto.period);
      var sale, ret := |t.books.sales|, |t.books.refunds|;
      var s := Settle(t, dto, p, sale, ret, number).value;
      PlanIsConsistent(t, dto);
      ReturnSidesBooks(t, dto, p);
      ReplacementLinesAreSound(t, dto, p);
      SettledRowsFit(t, dto, p, sale, ret, number);
      AddPreparedSaleKeepsBooks(AddReturn(t.books, ReturnHeader(t.books, dto, p), ReturnRows(ret, p.back)),
                         SaleHeader(t.books, dto, p, s.paid, s.change, s.status), p.lines, s.rows);
    }
  }

  /** New lines start with nothing returned, and the old ones stay. */
  lemma {:induction false} SoldLinesKeepReturnedIff(b: Books, header: Sale, lines: seq<SaleLine>, rows: seq<SalePay>)
    requires RowsBelong(b) && forall k | 0 <= k < |lines| :: lines[k].quantity > 0
    ensures NothingOverReturned(AddSale(b, header, lines, rows)) <==> NothingOverReturned(b)
  {
    var after := AddSale(b, header, lines, rows);
    if NothingOverReturned(b) {
      AddSaleKeepsReturned(b, header, lines, rows);
    } else {
      var line :| 0 <= line < |b.lines| && Returned(b.returnLines, line) > b.lines[line].quantity;
      assert after.lines[line] == b.lines[line];
    }
  }

  /** An accepted exchange keeps returned within sold exactly when its returned lines fit as a whole. */
  lemma {:induction false} ExchangeReturnedWithinSoldIff(t: Tables, dto: ExchangeDto)
    requires BooksInvariant(t.books) && NothingOverReturned(t.books) && ExchangeSpec(t, dto).0.Ok?
    ensures NothingOverReturned(ExchangeSpec(t, dto).1.books) <==> FitsAsAWhole(t.books, dto.goods)
  {
    var p := PrepareExchange(t, dto).value;
    var s := Settle(t, dto, p, |t.books.sales|, |t.books.refunds|, ReturnNumber(t.books, p, dto.period)).value;
    var mid := AddReturn(t.books, ReturnHeader(t.books, dto, p), ReturnRows(|t.books.refunds|, p.back));
    ReturnSidesBooks(t, dto, p);
    ReplacementLinesAreSound(t, dto, p);
    RowsKeepReturnedIff(t.books, dto.sale, dto.goods, ReturnHeader(t.books, dto, p));
    SoldLinesKeepReturnedIff(mid, SaleHeader(t.books, dto, p, s.paid, s.change, s.status), SaleLines(|t.books.sales|, p.lines), s.rows);
  }

  lemma {:induction false} SettledLedgerGrows(t: Tables, dto: ExchangeDto, p: Plan, sale: Id, ret: Id, number: Number)
    requires Settle(t, dto, p, sale, ret, number).Ok?
    ensures var s := Settle(t, dto, p, sale, ret, number).value;
            && t.ledger <= s.ledger
            && (forall k | |t.ledger| <= k < |s.ledger| :: s.ledger[k].reference == SaleRef(sale) || s.ledger[k].reference == ReturnRef(ret))
            && (forall k | 0 <= k < |s.rows| :: s.rows[k].sale == sale)
  {}

  lemma {:induction false} ExchangeGrows(t: Tables, dto: ExchangeDto)
    ensures Grows(t, ExchangeSpec(t, dto).1)
    ensures LedgerBelongs(t) ==> LedgerBelongs(ExchangeSpec(t, dto).1)
  {
    if ExchangeSpec(t, dto).0.Ok? {
      var p := PrepareExchange(t, dto).value;
      SettledLedgerGrows(t, dto, p, |t.books.sales|, |t.books.refunds|, ReturnNumber(t.books, p, dto.period));
    }
  }

  // A customer with a limit of 10 returns goods worth 5, bought at branch, for goods worth 100, and pays nothing.
  ghost predicate DearSwap(t: Tables, dto: ExchangeDto, branch: Id, number: Number) {
    && t.books == Books([Sale(number, branch, Some(1), 5, 0, 5, 5, 0, Paid, NoNotes)], [SaleLine(0, 7, 5, 3, 1, 0, 5)], [], [], [], map[])
    && t.ledger == [] && t.customers == map[1 := Customer(10, true)]
    && t.products == map[8 := Product(100, 60, 60, true)]
    && t.inventory.stock == map[Shelf(7, branch) := 0, Shelf(8, branch) := 1]
    && dto == ExchangeDto(0, 0, [ReturnItem(0, 1)], [Item(8, 1, None, 0)], 0, None, [], Some(0), None, NoNotes)
  }

  function DearPlan(branch: Id): Plan {
    Plan(branch, Some(1), [PreparedReturn(0, 7, 5, 1)], [PreparedLine(8, 100, 60, 1, 0, 100)], 5, 100, 0, 100, None)
  }

  lemma {:induction false} DearLines(t: Tables, dto: ExchangeDto, branch: Id, number: Number)
    requires DearSwap(t, dto, branch, number)
    ensures PrepareReturns(t.books, 0, dto.goods) == Ok(DearPlan(branch).back) && ReturnTotal(DearPlan(branch).back) == 5
    ensures PrepareLines(t.products, dto.items, true) == Ok(DearPlan(branch).lines) && Subtotal(DearPlan(branch).lines) == 100
    ensures Available(t.inventory.stock, branch, Portions(DearPlan(branch).lines))
  {
    var back, line := PreparedReturn(0, 7, 5, 1), PreparedLine(8, 100, 60, 1, 0, 100);
    assert PrepareReturn(t.books, 0, dto.goods[0]) == Ok(back) && dto.goods[1..] == [] && [back] + [] == [back];
    assert PrepareLine(t.products, dto.items[0], true) == Ok(line) && dto.items[1..] == [] && [line] + [] == [line];
    assert [back][1..] == [] && [line][1..] == [];
    var out := Portions([line]);
    assert out == [Portion(8, 1)] && out[1..] == [] && Wanted(out, 8) == 1;
  }

  lemma {:induction false} DearPlanIsMade(t: Tables, dto: ExchangeDto, branch: Id, number: Number)
    requires DearSwap(t, dto, branch, number)
    ensures PrepareExchange(t, dto) == Ok(DearPlan(branch))
  {
    DearLines(t, dto, branch, number);
  }

  lemma {:induction false} DearStockSuffices(t: Tables, dto: ExchangeDto, branch: Id, number: Number)
    requires DearSwap(t, dto, branch, number)
    ensures ExchangeStock(t, DearPlan(branch)).Ok?
  {
    var back := Back(DearPlan(branch).back);
    assert back == [Portion(7, 1)] && back[1..] == [];
    var restored := Restore(t.inventory, branch, back[0], ReturnRef(0), ServerError);
    assert RestoreAll(restored.value, branch, back[1..], ReturnRef(0), ServerError).Ok?;
    DearPlanIsMade(t, dto, branch, number);
    CheckedExchangeStockSuffices(t, dto);
  }

  lemma {:induction false} DearSwapSettles(t: Tables, dto: ExchangeDto, branch: Id, number: Number)
    requires DearSwap(t, dto, branch, number)
    ensures var r := Settle(t, dto, DearPlan(branch), 1, 0, ReturnNumber(t.books, DearPlan(branch), 0));
            r.Ok? && Balance(r.value.ledger, 1) == 95
  {
    assert ExchangeTenders(dto, 95) == [] && Allocate([], 95) == [] && PaymentRows(1, []) == [];
    EntryCounts([], 1, SaleRef(1), SaleEntry, 95, 0, 1);
  }

  /** It is accepted, and the customer ends up owing 95. */
  lemma {:induction false} ExchangeCanExceedTheLimit(t: Tables, dto: ExchangeDto, branch: Id, number: Number)
    requires DearSwap(t, dto, branch, number)
    ensures WithinLimits(t) && ExchangeSpec(t, dto).0.Ok? && Balance(ExchangeSpec(t, dto).1.ledger, 1) == 95
    ensures !WithinLimits(ExchangeSpec(t, dto).1)
  {
    DearPlanIsMade(t, dto, branch, number);
    DearStockSuffices(t, dto, branch, number);
    DearSwapSettles(t, dto, branch, number);
    assert CommitExchange(t, dto, DearPlan(branch)).Ok?;
  }
}
