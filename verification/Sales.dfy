/** One sale as one transaction. */
module Sales {
  import opened Wrappers
  import opened Sums
  import opened Tables
  import opened StockLog
  import opened CashDesk
  import opened CustomerLedger
  import opened Checkout
  import opened Bookkeeping
  import opened ProductStock

  // Everything a sale computes before its first write.
  datatype Bill = Bill(lines: seq<PreparedLine>, subtotal: Money, discount: Money, total: Money, tenders: seq<Tender>)

  function Tendered(b: Bill): Money { SumTenders(b.tenders) }
  function PaidPart(b: Bill): Money { if Tendered(b) >= b.total then b.total else Tendered(b) }
  function ChangePart(b: Bill): Money { if Tendered(b) >= b.total then Tendered(b) - b.total else 0 }
  function CreditPart(b: Bill): Money { if Tendered(b) >= b.total then 0 else b.total - Tendered(b) }
  function StatusOf(b: Bill): PaymentStatus {
    if Tendered(b) >= b.total then Paid else if Tendered(b) > 0 then PartiallyPaid else Unpaid
  }

  function CheckBranch(branches: map<Id, Branch>, branch: Id): Result<bool> {
    if branch !in branches || !branches[branch].active || branches[branch].warehouse then Err(BadRequest) else Ok(true)
  }

  /** A walk-in sale names no customer. */
  function CheckCustomer(customers: map<Id, Customer>, customer: Option<Id>): Result<bool> {
    if customer.None? then Ok(true)
    else if customer.value !in customers then Err(NotFound)
    else if !customers[customer.value].active then Err(BadRequest)
    else Ok(true)
  }

  function MakeBill(lines: seq<PreparedLine>, dto: SaleDto): Bill {
    var subtotal, discount := Subtotal(lines), Max(dto.discount, 0);
    var total := Max(subtotal - discount, 0);
    Bill(lines, subtotal, discount, total, SaleTenders(dto, total))
  }

  function PrepareSale(t: Tables, dto: SaleDto): Result<Bill> {
    if dto.items == [] then Err(BadRequest)
    else
      var _ :- CheckBranch(t.branches, dto.branch);
      var _ :- CheckCustomer(t.customers, dto.customer);
      var lines :- PrepareLines(t.products, dto.items, false);
      var bill := MakeBill(lines, dto);
      if CreditPart(bill) > 0 && dto.customer.None? then Err(BadRequest)
      else if !Available(t.inventory.stock, dto.branch, Portions(lines)) then Err(BadRequest)
      else Ok(bill)
  }

  /** The ledger after charging credit to the customer, or None when the limit forbids it. */
  function ChargeCredit(t: Tables, customer: Option<Id>, sale: Id, credit: Money): Option<seq<LedgerEntry>> {
    if credit <= 0 || customer.None? || customer.value !in t.customers then Some(t.ledger)
    else
      var limit := t.customers[customer.value].creditLimit;
      if limit > 0 && Balance(t.ledger, customer.value) + credit > limit then None
      else Some(Append(t.ledger, customer.value, SaleRef(sale), SaleEntry, credit, 0))
  }

  /** The till after booking the cash share, or None when cash came in with no open session. */
  function BookCash(till: Till, branch: Id, kind: CashKind, direction: Direction, amount: Money, reference: Ref): Option<Till> {
    if amount <= 0 then Some(till)
    else
      match OpenSessionAt(till.sessions, branch)
      case None => None
      case Some(session) => Some(Record(till, CashMove(Some(session), branch, kind, direction, amount, Cash, reference)))
  }

  function SaleRow(dto: SaleDto, counters: map<Counter, nat>, b: Bill): Sale {
    var c := Counter(InvoiceSeries(dto.branch, dto.user), dto.period);
    Sale(Number(c, NextValue(counters, c)), dto.branch, dto.customer, b.subtotal, b.discount, b.total,
         PaidPart(b), ChangePart(b), StatusOf(b), dto.notes)
  }

  /** The books after the header, the lines and the allocated payments are in. */
  function SaleBooks(books: Books, dto: SaleDto, b: Bill): Books {
    AddSale(books, SaleRow(dto, books.counters, b), SaleLines(|books.sales|, b.lines), PaymentRows(|books.sales|, Allocate(b.tenders, b.total)))
  }

  function CommitSale(t: Tables, dto: SaleDto, b: Bill): Result<Tables> {
    var id := |t.books.sales|;
    var ledger := ChargeCredit(t, dto.customer, id, CreditPart(b));
    if ledger.None? then Err(BadRequest)
    else
      var inv :- WriteAll(t.inventory, dto.branch, b.lines, SaleRef(id));
      var shares := Allocate(b.tenders, b.total);
      if !AllStorable(shares) then Err(CheckViolation)
      else
        match BookCash(t.till, dto.branch, SalePayment, Inward, CashOf(shares), SaleRef(id))
        case None => Err(BadRequest)
        case Some(till) => Ok(t.(ledger := ledger.value, inventory := inv, books := SaleBooks(t.books, dto, b), till := till))
  }

  function SaleSpec(t: Tables, dto: SaleDto): (Result<SaleReply>, Tables) {
    match PrepareSale(t, dto)
    case Err(e) => (Err(e), t)
    case Ok(b) =>
      match CommitSale(t, dto, b)
      case Err(e) => (Err(e), t)
      case Ok(after) =>
        (Ok(SaleReply(|t.books.sales|, CreditPart(b),
                      if CreditPart(b) > 0 && dto.customer.Some? then Some(Balance(after.ledger, dto.customer.value)) else None)), after)
  }

  method PrepareCheckout(db: Database, dto: SaleDto) returns (r: Result<Bill>)
    ensures r == PrepareSale(db.Contents(), dto)
  {
    if dto.items == [] {
      return Err(BadRequest);
    }
    if dto.branch !in db.branches || !db.branches[dto.branch].active || db.branches[dto.branch].warehouse {
      return Err(BadRequest);
    }
    var customer := CheckCustomer(db.customers, dto.customer);
    if customer.Err? {
      return Err(customer.failure);
    }
    var lines := PriceCart(db, dto.items, false);
    if lines.Err? {
      return Err(lines.failure);
    }
    var subtotal, discount := Subtotal(lines.value), Max(dto.discount, 0);
    var total := Max(subtotal - discount, 0);
    var tenders := CollectTenders(dto.payments, false);
    if tenders == [] {
      tenders := LegacyTender(dto, total);
    }
    var bill := Bill(lines.value, subtotal, discount, total, tenders);
    if CreditPart(bill) > 0 && dto.customer.None? {
      return Err(BadRequest);
    }
    var enough := CheckAvailable(db, dto.branch, Portions(lines.value));
    if !enough {
      return Err(BadRequest);
    }
    return Ok(bill);
  }

  /** The credit part goes on the customer's account, unless the limit forbids it. */
  method ChargeAccount(db: Database, customer: Option<Id>, sale: Id, credit: Money) returns (ok: bool)
    modifies db
    ensures ok <==> ChargeCredit(old(db.Contents()), customer, sale, credit).Some?
    ensures db.Contents() == if ok then old(db.Contents()).(ledger := ChargeCredit(old(db.Contents()), customer, sale, credit).value)
                             else old(db.Contents())
  {
    if credit > 0 && customer.Some? && customer.value in db.customers {
      var outstanding := Balance(db.ledger, customer.value);
      var limit := db.customers[customer.value].creditLimit;
      if limit > 0 && outstanding + credit > limit {
        return false;
      }
      db.ledger := db.ledger + [LedgerEntry(customer.value, SaleRef(sale), SaleEntry, credit, 0, outstanding + credit)];
    }
    return true;
  }

  /** The cash part joins the branch's open session; without one it is refused. */
  method MoveCash(db: Database, branch: Id, kind: CashKind, direction: Direction, amount: Money, reference: Ref) returns (ok: bool)
    modifies db
    ensures ok <==> BookCash(old(db.till), branch, kind, direction, amount, reference).Some?
    ensures db.Contents() == if ok then old(db.Contents()).(till := BookCash(old(db.till), branch, kind, direction, amount, reference).value)
                             else old(db.Contents())
  {
    if amount > 0 {
      var session := OpenSessionAt(db.till.sessions, branch);
      if session.None? {
        return false;
      }
      db.till := db.till.(moves := db.till.moves + [CashMove(session, branch, kind, direction, amount, Cash, reference)]);
    }
    return true;
  }

  /** Steps 10 to 15: every write, any of which may still fail the transaction. */
  method WriteSale(db: Database, dto: SaleDto, b: Bill) returns (r: Result<bool>)
    modifies db
    ensures r.Ok? <==> CommitSale(old(db.Contents()), dto, b).Ok?
    ensures r.Ok? ==> db.Contents() == CommitSale(old(db.Contents()), dto, b).value
    ensures r.Err? ==> r.failure == CommitSale(old(db.Contents()), dto, b).failure
  {
    ghost var begin := db.Contents();
    var id := |db.books.sales|;
    var counter := Counter(InvoiceSeries(dto.branch, dto.user), dto.period);
    var invoice := Number(counter, NextValue(db.books.counters, counter));
    db.books := db.books.(counters := Bump(db.books.counters, counter));
    var header := Sale(invoice, dto.branch, dto.customer, b.subtotal, b.discount, b.total, PaidPart(b), ChangePart(b), StatusOf(b), dto.notes);
    assert header == SaleRow(dto, begin.books.counters, b);
    var charged := ChargeAccount(db, dto.customer, id, CreditPart(b));
    if !charged {
      return Err(BadRequest);
    }
    db.books := db.books.(sales := db.books.sales + [header]);
    var lines := InsertLines(db, id, dto.branch, b.lines);
    if lines.Err? {
      return Err(lines.failure);
    }
    var ok, shares := InsertPayments(db, id, b.tenders, b.total);
    if !ok {
      return Err(CheckViolation);
    }
    assert db.books == SaleBooks(begin.books, dto, b);
    var banked := MoveCash(db, dto.branch, SalePayment, Inward, CashOf(shares), SaleRef(id));
    if !banked {
      return Err(BadRequest);
    }
    return Ok(true);
  }

  method CompleteSaleTx(db: Database, dto: SaleDto) returns (r: Result<SaleReply>)
    modifies db
    ensures (r, db.Contents()) == SaleSpec(old(db.Contents()), dto)
  {
    var begin := db.Contents();
    var bill := PrepareCheckout(db, dto);
    if bill.Err? {
      return Err(bill.failure);
    }
    var id := |db.books.sales|;
    var written := WriteSale(db, dto, bill.value);
    if written.Err? {
      db.Rollback(begin);
      return Err(written.failure);
    }
    var credit := CreditPart(bill.value);
    var after := if credit > 0 && dto.customer.Some? then Some(Balance(db.ledger, dto.customer.value)) else None;
    return Ok(SaleReply(id, credit, after));
  }

  // ------------------------------------------------------------------
  // What a sale establishes.

  lemma {:induction false} LegacyIsPositive(dto: SaleDto, total: Money)
    ensures PositiveTenders(SaleTenders(dto, total))
  {
    RealTendersArePositive(dto.payments, false);
  }

  /**
   * The money of a sale adds up: its payment rows total the paid amount, tendered money is paid or
   * given back as change, the total is paid or owed, and never both change and credit at once.
   */
  lemma {:induction false} SaleMoneyAddsUp(t: Tables, dto: SaleDto)
    requires SaleSpec(t, dto).0.Ok? && RowsBelong(t.books)
    ensures var (r, after) := SaleSpec(t, dto);
            var sale, b := after.books.sales[r.value.sale], PrepareSale(t, dto).value;
            && r.value.sale == |t.books.sales|
            && PaidFor(after.books.payments, r.value.sale) == sale.paid
            && SumTenders(b.tenders) == sale.paid + sale.change
            && sale.total == sale.paid + r.value.credit
            && (sale.change == 0 || r.value.credit == 0)
            && sale.paid >= 0 && sale.change >= 0 && r.value.credit >= 0
            && (sale.status == Paid <==> r.value.credit == 0)
  {
    var b := PrepareSale(t, dto).value;
    var id := |t.books.sales|;
    LegacyIsPositive(dto, b.total);
    AllocationIsExact(b.tenders, b.total);
    SumNone(t.books.payments, PaymentTo(id));
    PaidPartIsAllocated(dto, b, id);
    SumAppend(t.books.payments, PaymentRows(id, Allocate(b.tenders, b.total)), PaymentTo(id));
  }

  /** The customer is debited with exactly the credit, or the ledger is left alone. */
  lemma {:induction false} SaleDebitsItsCredit(t: Tables, dto: SaleDto)
    requires SaleSpec(t, dto).0.Ok?
    ensures var (r, after) := SaleSpec(t, dto);
            if r.value.credit > 0 then
              && dto.customer.Some? && r.value.balanceAfter == Some(Balance(t.ledger, dto.customer.value) + r.value.credit)
              && after.ledger == Append(t.ledger, dto.customer.value, SaleRef(r.value.sale), SaleEntry, r.value.credit, 0)
            else after.ledger == t.ledger && r.value.balanceAfter == None
  {
    var credit := CreditPart(PrepareSale(t, dto).value);
    assert CheckCustomer(t.customers, dto.customer).Ok?;
    if dto.customer.Some? {
      var l := Append(t.ledger, dto.customer.value, SaleRef(|t.books.sales|), SaleEntry, credit, 0);
      assert l[..|t.ledger|] == t.ledger;
    }
  }

  /** The branch's open session receives exactly the cash share, or the till is left alone. */
  lemma {:induction false} SaleBanksItsCash(t: Tables, dto: SaleDto)
    requires SaleSpec(t, dto).0.Ok?
    ensures var (r, after) := SaleSpec(t, dto);
            var cash := CashOf(Allocate(PrepareSale(t, dto).value.tenders, PrepareSale(t, dto).value.total));
            if cash > 0 then
              exists session :: 0 <= session < |t.till.sessions|
                && t.till.sessions[session].status.Open? && t.till.sessions[session].branch == dto.branch
                && after.till == Record(t.till, CashMove(Some(session), dto.branch, SalePayment, Inward, cash, Cash, SaleRef(r.value.sale)))
            else after.till == t.till
  {
    OpenSessionIsOpen(t.till.sessions, dto.branch);
  }

  /** A sale that passes its checks never fails on a stock row. */
  lemma {:induction false} CheckedStockSuffices(t: Tables, dto: SaleDto)
    requires PrepareSale(t, dto).Ok?
    requires forall p | p in t.products :: t.products[p].salePrice >= 0 && t.products[p].purchasePrice >= 0
    ensures WriteAll(t.inventory, dto.branch, PrepareSale(t, dto).value.lines, SaleRef(|t.books.sales|)).Ok?
  {
    var b := PrepareSale(t, dto).value;
    PreparedLinesAreSane(t.products, dto.items, false);
    PricesAreCatalogued(t.products, dto.items);
    WriteAllDeducts(t.inventory, dto.branch, b.lines, SaleRef(|t.books.sales|));
    AggregateCheckIsExact(t.inventory, dto.branch, Portions(b.lines), SaleRef(|t.books.sales|));
  }

  /** A sale takes exactly its per-product totals from its branch, and nothing elsewhere. */
  lemma {:induction false} SaleTakesItsTotals(t: Tables, dto: SaleDto)
    requires SaleSpec(t, dto).0.Ok?
    ensures IsDeducted(t.inventory.stock, SaleSpec(t, dto).1.inventory.stock, dto.branch, Portions(PrepareSale(t, dto).value.lines))
  {
    var b := PrepareSale(t, dto).value;
    PreparedLinesAreSane(t.products, dto.items, false);
    WriteAllDeducts(t.inventory, dto.branch, b.lines, SaleRef(|t.books.sales|));
    AggregateCheckIsExact(t.inventory, dto.branch, Portions(b.lines), SaleRef(|t.books.sales|));
  }

  lemma {:induction false} PricesAreCatalogued(products: map<Id, Product>, items: seq<Item>)
    requires PrepareLines(products, items, false).Ok?
    requires forall p | p in products :: products[p].salePrice >= 0 && products[p].purchasePrice >= 0
    ensures var lines := PrepareLines(products, items, false).value;
            forall i | 0 <= i < |lines| :: lines[i].unitPrice >= 0 && lines[i].cost >= 0
  {
    if items != [] {
      PricesAreCatalogued(products, items[1..]);
    }
  }

  // ------------------------------------------------------------------
  // What a sale keeps.

  lemma {:induction false} BookCashKeepsTill(till: Till, expenses: seq<Expense>, branch: Id, kind: CashKind, direction: Direction, amount: Money, reference: Ref)
    requires TillInvariant(till) && ExpensesNet(expenses, till.moves) && !kind.ExpenseMove?
    requires BookCash(till, branch, kind, direction, amount, reference).Some?
    ensures var after := BookCash(till, branch, kind, direction, amount, reference).value;
            TillInvariant(after) && ClosedStayFinal(till, after) && ExpensesNet(expenses, after.moves)
  {
    if amount > 0 {
      OpenSessionIsOpen(till.sessions, branch);
      var m := CashMove(OpenSessionAt(till.sessions, branch), branch, kind, direction, amount, Cash, reference);
      RecordKeepsTill(till, m);
      OtherMovesKeepNetIff(expenses, till.moves, m);
    }
  }

  lemma {:induction false} SaleKeepsTill(t: Tables, dto: SaleDto)
    requires TillInvariant(t.till) && ExpensesNet(t.expenses, t.till.moves)
    ensures var after := SaleSpec(t, dto).1;
            TillInvariant(after.till) && ClosedStayFinal(t.till, after.till) && ExpensesNet(after.expenses, after.till.moves)
  {
    if SaleSpec(t, dto).0.Ok? {
      var b := PrepareSale(t, dto).value;
      BookCashKeepsTill(t.till, t.expenses, dto.branch, SalePayment, Inward, CashOf(Allocate(b.tenders, b.total)), SaleRef(|t.books.sales|));
    }
  }

  lemma {:induction false} ChargeKeepsLedger(t: Tables, customer: Option<Id>, sale: Id, credit: Money)
    requires RunningIndex(t.ledger) && ChargeCredit(t, customer, sale, credit).Some?
    ensures var ledger := ChargeCredit(t, customer, sale, credit).value;
            && RunningIndex(ledger)
            && forall c | c in t.customers && t.customers[c].creditLimit > 0 ::
                 Balance(ledger, c) == Balance(t.ledger, c) || Balance(ledger, c) <= t.customers[c].creditLimit
  {
    if credit > 0 && customer.Some? {
      AppendKeepsIndex(t.ledger, customer.value, SaleRef(sale), SaleEntry, credit, 0);
    }
  }

  /** The running index survives, and a sale never takes a customer past a positive limit. */
  lemma {:induction false} SaleKeepsLedger(t: Tables, dto: SaleDto)
    requires RunningIndex(t.ledger)
    ensures var after := SaleSpec(t, dto).1;
            RunningIndex(after.ledger) && (WithinLimits(t) ==> WithinLimits(after))
  {
    if SaleSpec(t, dto).0.Ok? {
      ChargeKeepsLedger(t, dto.customer, |t.books.sales|, CreditPart(PrepareSale(t, dto).value));
    }
  }

  lemma {:induction false} SaleKeepsStock(t: Tables, dto: SaleDto)
    requires StockInvariant(t)
    ensures StockInvariant(SaleSpec(t, dto).1)
  {
    if SaleSpec(t, dto).0.Ok? {
      WritingKeepsFaithful(t.inventory, dto.branch, t.products, dto.items, false, SaleRef(|t.books.sales|));
    }
  }

  /** Writing prepared lines keeps the log faithful and touches existing rows only. */
  lemma {:induction false} WritingKeepsFaithful(inv: Inventory, branch: Id, products: map<Id, Product>, items: seq<Item>, clientPrice: bool, reference: Ref)
    requires Faithful(inv) && PrepareLines(products, items, clientPrice).Ok?
    requires WriteAll(inv, branch, PrepareLines(products, items, clientPrice).value, reference).Ok?
    ensures var after := WriteAll(inv, branch, PrepareLines(products, items, clientPrice).value, reference).value;
            Faithful(after) && after.stock.Keys == inv.stock.Keys
  {
    var lines := PrepareLines(products, items, clientPrice).value;
    PreparedLinesAreSane(products, items, clientPrice);
    WriteAllDeducts(inv, branch, lines, reference);
    DeductAllKeepsFaithful(inv, branch, Portions(lines), reference);
    AggregateCheckIsExact(inv, branch, Portions(lines), reference);
  }

  lemma {:induction false} WrittenPricesAreNonNegative(inv: Inventory, branch: Id, lines: seq<PreparedLine>, reference: Ref)
    requires WriteAll(inv, branch, lines, reference).Ok?
    ensures forall i | 0 <= i < |lines| :: lines[i].unitPrice >= 0
    decreases |lines|
  {
    if lines != [] {
      var next := Deduct(inv, branch, Portion(lines[0].product, lines[0].quantity), reference).value;
      WrittenPricesAreNonNegative(next, branch, lines[1..], reference);
      forall i | 0 <= i < |lines| ensures lines[i].unitPrice >= 0 {
        if i > 0 { assert lines[i] == lines[1..][i - 1]; }
      }
    }
  }

  /** Lines that were prepared and then written pass every check of their rows. */
  lemma {:induction false} WrittenLinesAreSound(inv: Inventory, branch: Id, products: map<Id, Product>, items: seq<Item>, clientPrice: bool, reference: Ref)
    requires PrepareLines(products, items, clientPrice).Ok?
    requires WriteAll(inv, branch, PrepareLines(products, items, clientPrice).value, reference).Ok?
    ensures LinesSound(PrepareLines(products, items, clientPrice).value)
  {
    var lines := PrepareLines(products, items, clientPrice).value;
    PreparedLinesAreSane(products, items, clientPrice);
    assert forall i | 0 <= i < |lines| :: Portions(lines)[i].quantity > 0;
    WrittenPricesAreNonNegative(inv, branch, lines, reference);
  }

  lemma {:induction false} BilledLinesAreSound(t: Tables, dto: SaleDto)
    requires SaleSpec(t, dto).0.Ok?
    ensures LinesSound(PrepareSale(t, dto).value.lines)
  {
    WrittenLinesAreSound(t.inventory, dto.branch, t.products, dto.items, false, SaleRef(|t.books.sales|));
  }

  lemma {:induction false} PaidPartIsAllocated(dto: SaleDto, b: Bill, sale: Id)
    requires b.tenders == SaleTenders(dto, b.total) && b.total >= 0
    ensures PaidFor(PaymentRows(sale, Allocate(b.tenders, b.total)), sale) == PaidPart(b)
  {
    LegacyIsPositive(dto, b.total);
    AllocationIsExact(b.tenders, b.total);
    PaidForRows(sale, Allocate(b.tenders, b.total));
  }

  lemma {:induction false} SaleKeepsBooks(t: Tables, dto: SaleDto)
    requires BooksInvariant(t.books)
    ensures var after := SaleSpec(t, dto).1;
            BooksInvariant(after.books) && (NothingOverReturned(t.books) ==> NothingOverReturned(after.books))
  {
    if SaleSpec(t, dto).0.Ok? {
      var id, b := |t.books.sales|, PrepareSale(t, dto).value;
      BilledLinesAreSound(t, dto);
      PaidPartIsAllocated(dto, b, id);
      AddPreparedSaleKeepsBooks(t.books, SaleRow(dto, t.books.counters, b), b.lines, PaymentRows(id, Allocate(b.tenders, b.total)));
    }
  }

  lemma {:induction false} SaleGrows(t: Tables, dto: SaleDto)
    ensures Grows(t, SaleSpec(t, dto).1)
  {}
}
