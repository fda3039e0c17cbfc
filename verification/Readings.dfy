/** What the statements read, and why a request that read the current rows commits what it would commit alone. */
module Readings {
  import opened Wrappers
  import opened Tables
  import opened StockLog
  import opened StockTransfer
  import opened CustomerLedger
  import opened Checkout
  import opened Bookkeeping
  import opened Sales
  import opened Returns
  import opened Exchange
  import opened ExchangeLaws
  import opened ExchangeReplay
  import opened Isolation
  import opened Statements
  import LockOrder

  /** Everything read is what the tables hold. */
  ghost predicate TrueTo(t: Tables, seen: Seen) {
    forall g | g in seen :: seen[g] == ValueOf(t, g)
  }

  ghost predicate StockSeen(seen: Seen, branch: Id, product: Id) { StockRow(Shelf(product, branch)) in seen }

  lemma {:induction false} SnapshotHas(t: Tables, q: Request, k: nat)
    requires k < |PlanOf(q)| && !PlanOf(q)[k].Take?
    ensures PlanOf(q)[k].region in Snapshot(Shop(), t, q)
  {
    assert PlanOf(q)[k].region in Regions(PlanOf(q));
  }

  lemma {:induction false} SnapshotIsTrue(t: Tables, q: Request)
    ensures TrueTo(t, Snapshot(Shop(), t, q))
  {}

  lemma {:induction false} StockReadIsTrue(t: Tables, seen: Seen)
    requires TrueTo(t, seen)
    ensures forall s :: StockRow(s) in seen ==> (s in StockRead(seen) <==> s in t.inventory.stock)
    ensures forall s :: s in StockRead(seen) ==> s in t.inventory.stock && StockRead(seen)[s] == t.inventory.stock[s]
  {
    forall s
      ensures StockRow(s) in seen ==> (s in StockRead(seen) <==> s in t.inventory.stock)
      ensures s in StockRead(seen) ==> s in t.inventory.stock && StockRead(seen)[s] == t.inventory.stock[s]
    {
      if StockRow(s) in seen {
        assert seen[StockRow(s)] == ValueOf(t, StockRow(s));
      }
    }
  }

  lemma {:induction false} AvailableAsRead(t: Tables, seen: Seen, branch: Id, ps: seq<Portion>)
    requires TrueTo(t, seen) && forall i | 0 <= i < |ps| :: StockSeen(seen, branch, ps[i].product)
    ensures Available(StockRead(seen), branch, ps) <==> Available(t.inventory.stock, branch, ps)
  {
    StockReadIsTrue(t, seen);
    forall i | 0 <= i < |ps|
      ensures Shelf(ps[i].product, branch) in StockRead(seen) <==> Shelf(ps[i].product, branch) in t.inventory.stock
    {
      assert StockSeen(seen, branch, ps[i].product);
    }
  }

  lemma {:induction false} EntriesCount(ledger: seq<LedgerEntry>, customer: Id)
    ensures Balance(StatementEntries(ledger, customer), customer) == Balance(ledger, customer)
  {
    if ledger != [] {
      var earlier, e := ledger[..|ledger| - 1], ledger[|ledger| - 1];
      EntriesCount(earlier, customer);
      var s := StatementEntries(earlier, customer);
      assert e.customer == customer ==> (s + [e])[..|s|] == s;
      assert s + [] == s;
    }
  }

  // ------------------------------------------------------------------
  // Sales.

  lemma {:induction false} CartIsSeen(t: Tables, products: map<Id, Product>, items: seq<Item>, clientPrice: bool, seen: Seen, branch: Id)
    requires PrepareLines(products, items, clientPrice).Ok?
    requires forall i | 0 <= i < |items| :: StockSeen(seen, branch, items[i].product)
    ensures forall i | 0 <= i < |PrepareLines(products, items, clientPrice).value| ::
              StockSeen(seen, branch, Portions(PrepareLines(products, items, clientPrice).value)[i].product)
  {
    PreparedLinesAreSane(products, items, clientPrice);
  }

  lemma {:induction false} SaleChecksAgree(t: Tables, dto: SaleDto, seen: Seen)
    requires TrueTo(t, seen) && forall i | 0 <= i < |dto.items| :: StockSeen(seen, dto.branch, dto.items[i].product)
    ensures PrepareSale(AsRead(t, seen), dto) == PrepareSale(t, dto)
  {
    var lines := PrepareLines(t.products, dto.items, false);
    if lines.Ok? {
      CartIsSeen(t, t.products, dto.items, false, seen, dto.branch);
      AvailableAsRead(t, seen, dto.branch, Portions(lines.value));
    }
  }

  /** The account as far as the transaction has looked: none, or the customer's current entries. */
  ghost predicate LedgerSeen(t: Tables, seen: Seen, customer: Option<Id>) {
    customer.Some? ==> EntriesRead(seen, customer) == StatementEntries(t.ledger, customer.value)
  }

  lemma {:induction false} ChargeAsRead(t: Tables, seen: Seen, customer: Option<Id>, sale: Id, credit: Money)
    requires LedgerSeen(t, seen, customer)
    ensures var read := EntriesRead(seen, customer);
            var charged, exact := ChargeCredit(t.(ledger := read), customer, sale, credit), ChargeCredit(t, customer, sale, credit);
            && (charged.Some? <==> exact.Some?)
            && (exact.Some? ==> read <= charged.value && t.ledger + charged.value[|read|..] == exact.value)
  {
    if customer.Some? {
      EntriesCount(t.ledger, customer.value);
    }
  }

  lemma {:induction false} SaleCommitsAlike(t: Tables, dto: SaleDto, b: Bill, seen: Seen)
    requires LedgerSeen(t, seen, dto.customer)
    ensures var read := EntriesRead(seen, dto.customer);
            var at, exact := CommitSale(t.(ledger := read), dto, b), CommitSale(t, dto, b);
            && (at.Ok? <==> exact.Ok?)
            && (exact.Ok? ==> Posted(t, read, at.value) == exact.value)
  {
    ChargeAsRead(t, seen, dto.customer, |t.books.sales|, CreditPart(b));
  }

  lemma {:induction false} SaleAsAlone(t: Tables, dto: SaleDto, seen: Seen)
    requires TrueTo(t, seen) && LedgerSeen(t, seen, dto.customer)
    requires forall i | 0 <= i < |dto.items| :: StockSeen(seen, dto.branch, dto.items[i].product)
    ensures SaleAt(t, dto, seen) == Atomic(t, OfSale(dto))
  {
    SaleChecksAgree(t, dto, seen);
    if PrepareSale(t, dto).Ok? {
      SaleCommitsAlike(t, dto, PrepareSale(t, dto).value, seen);
    }
  }

  lemma {:induction false} LedgerIsSeen(t: Tables, seen: Seen, customer: Option<Id>)
    requires TrueTo(t, seen) && (customer.Some? ==> CustomerRow(customer.value) in seen)
    ensures LedgerSeen(t, seen, customer)
  {
    if customer.Some? {
      assert seen[CustomerRow(customer.value)] == ValueOf(t, CustomerRow(customer.value));
    }
  }

  lemma {:induction false} SaleSees(t: Tables, dto: SaleDto)
    ensures var seen := Snapshot(Shop(), t, OfSale(dto));
            && (dto.customer.Some? ==> CustomerRow(dto.customer.value) in seen)
            && forall i | 0 <= i < |dto.items| :: StockSeen(seen, dto.branch, dto.items[i].product)
  {
    var q := OfSale(dto);
    var plan, products := PlanOf(q), LockOrder.Sorted(ProductsOf(dto.items));
    var head := TakeCustomer(dto.customer, Exclusive);
    if dto.customer.Some? {
      SnapshotHas(t, q, |plan| - 1);
    }
    forall i | 0 <= i < |dto.items|
      ensures StockSeen(Snapshot(Shop(), t, q), dto.branch, dto.items[i].product)
    {
      assert ProductsOf(dto.items)[i] in products;
      var k :| 0 <= k < |products| && products[k] == dto.items[i].product;
      assert plan[|head| + k] == Needs(dto.branch, products)[k];
      SnapshotHas(t, q, |head| + k);
    }
  }

  lemma {:induction false} SaleAlone(t: Tables, dto: SaleDto)
    ensures Alone(Shop(), t, OfSale(dto)) == Atomic(t, OfSale(dto))
  {
    var seen := Snapshot(Shop(), t, OfSale(dto));
    SnapshotIsTrue(t, OfSale(dto));
    SaleSees(t, dto);
    LedgerIsSeen(t, seen, dto.customer);
    SaleAsAlone(t, dto, seen);
  }

  // ------------------------------------------------------------------
  // Exchanges.

  lemma {:induction false} ReturnedAsRead(rows: seq<ReturnLine>, lines: seq<SaleLine>, sale: Id, line: Id)
    requires line < |lines| && lines[line].sale == sale
    ensures Bookkeeping.Returned(Select(rows, LineBelongs(lines, sale)), line) == Bookkeeping.Returned(rows, line)
  {
    if rows != [] {
      var earlier, r := rows[..|rows| - 1], rows[|rows| - 1];
      var s := Select(earlier, LineBelongs(lines, sale));
      ReturnedAsRead(earlier, lines, sale, line);
      assert LineBelongs(lines, sale)(r) ==> (s + [r])[..|s|] == s;
      assert s + [] == s;
    }
  }

  lemma {:induction false} ReturnsAsRead(b: Books, read: Books, sale: Id, items: seq<ReturnItem>)
    requires read == b.(returnLines := Select(b.returnLines, LineBelongs(b.lines, sale)))
    ensures PrepareReturns(read, sale, items) == PrepareReturns(b, sale, items)
  {
    if items != [] {
      var line := items[0].line;
      if line < |b.lines| && b.lines[line].sale == sale {
        ReturnedAsRead(b.returnLines, b.lines, sale, line);
      }
      ReturnsAsRead(b, read, sale, items[1..]);
    }
  }

  lemma {:induction false} ExchangeChecksAgree(t: Tables, dto: ExchangeDto, branch: Id, seen: Seen)
    requires TrueTo(t, seen) && OriginalRow(dto.sale) in seen
    requires forall i | 0 <= i < |dto.items| :: StockSeen(seen, branch, dto.items[i].product)
    requires dto.sale < |t.books.sales| ==> t.books.sales[dto.sale].branch == branch
    ensures PrepareExchange(ExchangeView(t, dto, seen), dto) == PrepareExchange(t, dto)
  {
    assert seen[OriginalRow(dto.sale)] == ValueOf(t, OriginalRow(dto.sale));
    ReturnsAsRead(t.books, ExchangeView(t, dto, seen).books, dto.sale, dto.goods);
    var lines := PrepareLines(t.products, dto.items, true);
    if lines.Ok? {
      CartIsSeen(t, t.products, dto.items, true, seen, branch);
      AvailableAsRead(t, seen, branch, Portions(lines.value));
    }
  }

  /** What settling computes from the entries read, it computes from the ledger. */
  lemma {:induction false} SettleAsRead(t: Tables, read: seq<LedgerEntry>, dto: ExchangeDto, p: Plan, sale: Id, ret: Id, number: Number)
    requires Consistent(p) && (p.customer.Some? ==> Balance(read, p.customer.value) == Balance(t.ledger, p.customer.value))
    ensures var at, exact := Settle(t.(ledger := read), dto, p, sale, ret, number), Settle(t, dto, p, sale, ret, number);
            && (at.Ok? <==> exact.Ok?)
            && (exact.Ok? ==> read <= at.value.ledger && at.value == exact.value.(ledger := at.value.ledger)
                              && t.ledger + at.value.ledger[|read|..] == exact.value.ledger)
  {
    if Difference(p) > 0 {
      CollectAsRead(t, read, dto, p, sale, number);
    } else {
      CoverAsRead(t, read, p, sale, ret, number);
    }
  }

  lemma {:induction false} AppendAsRead(ledger: seq<LedgerEntry>, read: seq<LedgerEntry>, customer: Id, reference: Ref, kind: EntryKind, debit: Money, credit: Money)
    requires Balance(read, customer) == Balance(ledger, customer)
    ensures var at := Append(read, customer, reference, kind, debit, credit);
            read <= at && ledger + at[|read|..] == Append(ledger, customer, reference, kind, debit, credit)
  {}

  lemma {:induction false} CollectAsRead(t: Tables, read: seq<LedgerEntry>, dto: ExchangeDto, p: Plan, sale: Id, number: Number)
    requires p.customer.Some? ==> Balance(read, p.customer.value) == Balance(t.ledger, p.customer.value)
    ensures var at, exact := Collect(t.(ledger := read), dto, p, sale, number), Collect(t, dto, p, sale, number);
            && (at.Ok? <==> exact.Ok?)
            && (exact.Ok? ==> read <= at.value.ledger && at.value == exact.value.(ledger := at.value.ledger)
                              && t.ledger + at.value.ledger[|read|..] == exact.value.ledger)
  {
    var owed := Difference(p) - SumTenders(ExchangeTenders(dto, Difference(p)));
    if owed > 0 && p.customer.Some? {
      AppendAsRead(t.ledger, read, p.customer.value, SaleRef(sale), SaleEntry, owed, 0);
    } else {
      assert t.ledger + read[|read|..] == t.ledger;
    }
  }

  lemma {:induction false} CoverAsRead(t: Tables, read: seq<LedgerEntry>, p: Plan, sale: Id, ret: Id, number: Number)
    requires p.customer.Some? ==> Balance(read, p.customer.value) == Balance(t.ledger, p.customer.value)
    ensures var at, exact := Cover(t.(ledger := read), p, sale, ret, number), Cover(t, p, sale, ret, number);
            && (at.Ok? <==> exact.Ok?)
            && (exact.Ok? ==> read <= at.value.ledger && at.value == exact.value.(ledger := at.value.ledger)
                              && t.ledger + at.value.ledger[|read|..] == exact.value.ledger)
  {
    if p.customer.Some? {
      AppendAsRead(t.ledger, read, p.customer.value, ReturnRef(ret), ReturnEntry, 0, -Difference(p));
    }
    assert t.ledger + read[|read|..] == t.ledger;
  }

  lemma {:induction false} ExchangeCommitsAlike(t: Tables, dto: ExchangeDto, p: Plan, seen: Seen)
    requires Consistent(p) && LedgerSeen(t, seen, p.customer)
    ensures var read := EntriesRead(seen, p.customer);
            var at, exact := CommitExchange(t.(ledger := read), dto, p), CommitExchange(t, dto, p);
            && (at.Ok? <==> exact.Ok?)
            && (exact.Ok? ==> Posted(t, read, at.value.0) == exact.value.0)
  {
    if p.customer.Some? {
      EntriesCount(t.ledger, p.customer.value);
    }
    SettleAsRead(t, EntriesRead(seen, p.customer), dto, p, |t.books.sales|, |t.books.refunds|, ReturnNumber(t.books, p, dto.period));
  }

  lemma {:induction false} ExchangeAsAlone(t: Tables, dto: ExchangeDto, branch: Id, customer: Option<Id>, back: seq<Id>, seen: Seen)
    requires TrueTo(t, seen) && LedgerSeen(t, seen, customer) && OriginalRow(dto.sale) in seen
    requires forall i | 0 <= i < |dto.items| :: StockSeen(seen, branch, dto.items[i].product)
    requires dto.sale < |t.books.sales| ==> t.books.sales[dto.sale].branch == branch
    ensures ExchangeAt(t, dto, branch, customer, back, seen) == Atomic(t, OfExchange(dto, branch, customer, back))
  {
    ExchangeChecksAgree(t, dto, branch, seen);
    if PrepareExchange(t, dto).Ok? {
      var p := PrepareExchange(t, dto).value;
      PlanIsConsistent(t, dto);
      if Resolved(p, branch, customer, back) {
        ExchangeCommitsAlike(t, dto, p, seen);
      }
    }
  }

  lemma {:induction false} ExchangeSees(t: Tables, dto: ExchangeDto, branch: Id, customer: Option<Id>, back: seq<Id>)
    ensures var seen := Snapshot(Shop(), t, OfExchange(dto, branch, customer, back));
            && OriginalRow(dto.sale) in seen
            && (customer.Some? ==> CustomerRow(customer.value) in seen)
            && forall i | 0 <= i < |dto.items| :: StockSeen(seen, branch, dto.items[i].product)
  {
    var q := OfExchange(dto, branch, customer, back);
    var plan, products := PlanOf(q), LockOrder.Distinct(ProductsOf(dto.items));
    assert plan[1] == Look(OriginalRow(dto.sale));
    SnapshotHas(t, q, 1);
    if customer.Some? {
      SnapshotHas(t, q, |plan| - 1);
    }
    forall i | 0 <= i < |dto.items|
      ensures StockSeen(Snapshot(Shop(), t, q), branch, dto.items[i].product)
    {
      assert ProductsOf(dto.items)[i] in products;
      var k :| 0 <= k < |products| && products[k] == dto.items[i].product;
      assert plan[2 + k] == Needs(branch, products)[k];
      SnapshotHas(t, q, 2 + k);
    }
  }

  /** An exchange resolved from another sale than its own throws either way. */
  lemma {:induction false} MisresolvedThrows(t: Tables, dto: ExchangeDto, branch: Id, customer: Option<Id>, back: seq<Id>, seen: Seen)
    requires dto.sale < |t.books.sales| && t.books.sales[dto.sale].branch != branch
    ensures ExchangeAt(t, dto, branch, customer, back, seen) == None == Atomic(t, OfExchange(dto, branch, customer, back))
  {
    var view := ExchangeView(t, dto, seen);
    if PrepareExchange(t, dto).Ok? {
      PlannedAtItsBranch(t, dto);
    }
    if PrepareExchange(view, dto).Ok? {
      PlannedAtItsBranch(view, dto);
    }
  }

  lemma {:induction false} PlannedAtItsBranch(t: Tables, dto: ExchangeDto)
    requires dto.sale < |t.books.sales| && PrepareExchange(t, dto).Ok?
    ensures PrepareExchange(t, dto).value.branch == t.books.sales[dto.sale].branch
  {}

  lemma {:induction false} ExchangeAlone(t: Tables, dto: ExchangeDto, branch: Id, customer: Option<Id>, back: seq<Id>)
    ensures Alone(Shop(), t, OfExchange(dto, branch, customer, back)) == Atomic(t, OfExchange(dto, branch, customer, back))
  {
    var q := OfExchange(dto, branch, customer, back);
    var seen := Snapshot(Shop(), t, q);
    SnapshotIsTrue(t, q);
    ExchangeSees(t, dto, branch, customer, back);
    LedgerIsSeen(t, seen, customer);
    if dto.sale < |t.books.sales| && t.books.sales[dto.sale].branch != branch {
      MisresolvedThrows(t, dto, branch, customer, back, seen);
    } else {
      ExchangeAsAlone(t, dto, branch, customer, back, seen);
    }
  }

  // ------------------------------------------------------------------
  // Transfers.

  lemma {:induction false} MoveReadIsMove(inv: Inventory, source: Id, destination: Id, item: Portion, reference: Ref)
    requires source != destination
    ensures MoveRead(inv, source, destination, item, reference, QuantityAt(inv.stock, Shelf(item.product, source)),
                     QuantityAt(inv.stock, Shelf(item.product, destination)))
         == MoveOne(inv, source, destination, item, reference)
  {}

  lemma {:induction false} TransferSees(t: Tables, dto: TransferDto)
    ensures StockSeen(Snapshot(Shop(), t, OfTransfer(dto)), dto.source, dto.product)
  {
    SnapshotHas(t, OfTransfer(dto), 0);
  }

  lemma {:induction false} TransferAlone(t: Tables, dto: TransferDto)
    ensures Alone(Shop(), t, OfTransfer(dto)) == Atomic(t, OfTransfer(dto))
  {
    var seen := Snapshot(Shop(), t, OfTransfer(dto));
    SnapshotIsTrue(t, OfTransfer(dto));
    TransferSees(t, dto);
    StockReadIsTrue(t, seen);
    assert CheckTransfer(AsRead(t, seen), dto) == CheckTransfer(t, dto);
    if dto.source != dto.destination && CheckTransfer(t, dto).Ok? {
      MoveReadIsMove(t.inventory, dto.source, dto.destination, Portion(dto.product, dto.quantity), TransferRef(TransferRowOf(t, dto).id));
      assert TransferSpec(t, dto).1.transfers != t.transfers || TransferSpec(t, dto).1 == t;
    }
  }

  /** The quantities read are those of the stock on the shelves of the items. */
  ghost predicate ReadAgrees(read: map<Shelf, int>, stock: map<Shelf, int>, source: Id, destination: Id, items: seq<Portion>) {
    forall i | 0 <= i < |items| ::
      && QuantityAt(read, Shelf(items[i].product, source)) == QuantityAt(stock, Shelf(items[i].product, source))
      && QuantityAt(read, Shelf(items[i].product, destination)) == QuantityAt(stock, Shelf(items[i].product, destination))
  }

  lemma {:induction false} AgreesAfterMove(inv: Inventory, read: map<Shelf, int>, source: Id, destination: Id, items: seq<Portion>, reference: Ref)
    requires items != [] && Ascending(items) && ReadAgrees(read, inv.stock, source, destination, items)
    ensures ReadAgrees(read, MoveOne(inv, source, destination, items[0], reference).stock, source, destination, items[1..])
  {
    forall i | 0 < i < |items|
      ensures QuantityAt(read, Shelf(items[i].product, source))
           == QuantityAt(MoveOne(inv, source, destination, items[0], reference).stock, Shelf(items[i].product, source))
      ensures QuantityAt(read, Shelf(items[i].product, destination))
           == QuantityAt(MoveOne(inv, source, destination, items[0], reference).stock, Shelf(items[i].product, destination))
    {
      MoveOneTouchesOneProduct(inv, source, destination, items[0], reference, Shelf(items[i].product, source));
      MoveOneTouchesOneProduct(inv, source, destination, items[0], reference, Shelf(items[i].product, destination));
    }
  }

  lemma {:induction false} MoveAllReadIsMoveAll(inv: Inventory, read: map<Shelf, int>, source: Id, destination: Id, items: seq<Portion>, reference: Ref)
    requires source != destination && Ascending(items) && ReadAgrees(read, inv.stock, source, destination, items)
    ensures MoveAllRead(inv, read, source, destination, items, reference) == MoveAll(inv, source, destination, items, reference)
    decreases |items|
  {
    if items != [] {
      MoveReadIsMove(inv, source, destination, items[0], reference);
      AgreesAfterMove(inv, read, source, destination, items, reference);
      MoveAllReadIsMoveAll(MoveOne(inv, source, destination, items[0], reference), read, source, destination, items[1..], reference);
    }
  }

  lemma {:induction false} ResultsReadAreResults(inv: Inventory, read: map<Shelf, int>, source: Id, destination: Id, items: seq<Portion>, reference: Ref)
    requires Ascending(items) && ReadAgrees(read, inv.stock, source, destination, items)
    ensures ResultsRead(inv.stock, read, source, destination, items) == ItemResults(inv, source, destination, items, reference)
  {
    ResultsReportTheStart(inv, source, destination, items, reference);
  }

  lemma {:induction false} CoversAsRead(t: Tables, seen: Seen, source: Id, items: seq<Portion>)
    requires TrueTo(t, seen) && forall i | 0 <= i < |items| :: StockSeen(seen, source, items[i].product)
    ensures Covers(StockRead(seen), source, items) <==> Covers(t.inventory.stock, source, items)
  {
    StockReadIsTrue(t, seen);
    forall i | 0 <= i < |items|
      ensures Shelf(items[i].product, source) in StockRead(seen) <==> Shelf(items[i].product, source) in t.inventory.stock
    {
      assert StockSeen(seen, source, items[i].product);
    }
  }

  /** Both orders of fetching contain every fetch. */
  lemma {:induction false} FetchedIn(p: BatchPayload, i: nat) returns (first: nat, second: nat)
    requires i < |p.items|
    ensures first < |BatchFetches(p)| && BatchFetches(p)[first] == Need(StockRow(Shelf(p.items[i].product, p.source)))
    ensures second < |BatchFetches(p)| && BatchFetches(p)[second] == Find(StockRow(Shelf(p.items[i].product, p.destination)))
  {
    var n := |p.items|;
    first, second := if p.source < p.destination then i else n + i, if p.source < p.destination then n + i else i;
  }

  lemma {:induction false} BatchSees(t: Tables, id: Id, p: BatchPayload, i: nat)
    requires Proper(p) && i < |p.items|
    ensures StockSeen(Snapshot(Shop(), t, OfBatch(id, p)), p.source, p.items[i].product)
    ensures StockSeen(Snapshot(Shop(), t, OfBatch(id, p)), p.destination, p.items[i].product)
  {
    var first, second := FetchedIn(p, i);
    assert PlanOf(OfBatch(id, p)) == BatchPlan(p);
    SnapshotHas(t, OfBatch(id, p), first);
    SnapshotHas(t, OfBatch(id, p), second);
  }

  lemma {:induction false} BatchReadAgrees(t: Tables, id: Id, p: BatchPayload)
    requires Proper(p)
    ensures ReadAgrees(StockRead(Snapshot(Shop(), t, OfBatch(id, p))), t.inventory.stock, p.source, p.destination, p.items)
    ensures forall i | 0 <= i < |p.items| :: StockSeen(Snapshot(Shop(), t, OfBatch(id, p)), p.source, p.items[i].product)
  {
    var seen := Snapshot(Shop(), t, OfBatch(id, p));
    SnapshotIsTrue(t, OfBatch(id, p));
    StockReadIsTrue(t, seen);
    forall i | 0 <= i < |p.items|
      ensures StockSeen(seen, p.source, p.items[i].product) && StockSeen(seen, p.destination, p.items[i].product)
    {
      BatchSees(t, id, p, i);
    }
  }

  lemma {:induction false} BatchChecksAgree(t: Tables, p: BatchPayload, seen: Seen)
    requires Covers(StockRead(seen), p.source, p.items) <==> Covers(t.inventory.stock, p.source, p.items)
    ensures CheckBatch(AsRead(t, seen), p) == CheckBatch(t, p)
  {}

  lemma {:induction false} BatchAsAlone(t: Tables, id: Id, p: BatchPayload, seen: Seen)
    requires ReadAgrees(StockRead(seen), t.inventory.stock, p.source, p.destination, p.items)
    requires CheckBatch(AsRead(t, seen), p) == CheckBatch(t, p)
    ensures BatchAt(t, id, p, seen) == Atomic(t, OfBatch(id, p))
  {
    if Proper(p) && CheckBatch(t, p).Ok? {
      MoveAllReadIsMoveAll(t.inventory, StockRead(seen), p.source, p.destination, p.items, BatchRef(Given(id)));
      ResultsReadAreResults(t.inventory, StockRead(seen), p.source, p.destination, p.items, BatchRef(Given(id)));
    }
  }

  lemma {:induction false} BatchAlone(t: Tables, id: Id, p: BatchPayload)
    ensures Alone(Shop(), t, OfBatch(id, p)) == Atomic(t, OfBatch(id, p))
  {
    var seen := Snapshot(Shop(), t, OfBatch(id, p));
    if Proper(p) {
      SnapshotIsTrue(t, OfBatch(id, p));
      BatchReadAgrees(t, id, p);
      CoversAsRead(t, seen, p.source, p.items);
      BatchChecksAgree(t, p, seen);
      BatchAsAlone(t, id, p, seen);
    }
  }

  /** Run alone, the statements commit what the single transaction of the request commits. */
  lemma {:induction false} AloneIsAtomic(t: Tables, q: Request)
    ensures Alone(Shop(), t, q) == Atomic(t, q)
  {
    match q
    case OfSale(dto) => SaleAlone(t, dto);
    case OfExchange(dto, branch, customer, back) => ExchangeAlone(t, dto, branch, customer, back);
    case OfTransfer(dto) => TransferAlone(t, dto);
    case OfBatch(id, p) => BatchAlone(t, id, p);
  }
}
