/** What the transactions write lies within what their statements lock, and each region is read once. */
module Footprints {
  import opened Wrappers
  import opened Tables
  import opened StockLog
  import opened StockTransfer
  import opened CustomerLedger
  import opened Checkout
  import opened Bookkeeping
  import opened Sales
  import opened Returns
  import opened Exchange
  import opened ExchangeLaws
  import opened ExchangeReplay
  import opened Frames
  import opened Runs
  import opened Isolation
  import opened Statements
  import opened Readings
  import LockOrder

  // ------------------------------------------------------------------
  // Each region is read by one statement.

  lemma {:induction false} ReadsOnceJoin(a: seq<Isolation.Step<Region>>, b: seq<Isolation.Step<Region>>)
    requires ReadsOnce(a) && ReadsOnce(b)
    requires forall k, l | 0 <= k < |a| && 0 <= l < |b| && !a[k].Take? && !b[l].Take? :: a[k].region != b[l].region
    ensures ReadsOnce(a + b)
  {}

  lemma {:induction false} DistinctNeeds(branch: Id, products: seq<Id>)
    requires forall i, j | 0 <= i < j < |products| :: products[i] != products[j]
    ensures ReadsOnce(Needs(branch, products)) && ReadsOnce(Finds(branch, products)) && ReadsOnce(Takes(branch, products))
  {}

  lemma {:induction false} SaleReadsOnce(dto: SaleDto)
    ensures ReadsOnce(SalePlan(dto))
  {
    var a, n := TakeCustomer(dto.customer, Exclusive), Needs(dto.branch, LockOrder.Sorted(ProductsOf(dto.items)));
    var c, l := [TakeCounter(InvoiceSeries(dto.branch, dto.user), dto.period)], LookAtLedger(dto.customer);
    DistinctNeeds(dto.branch, LockOrder.Sorted(ProductsOf(dto.items)));
    ReadsOnceJoin(a, n);
    ReadsOnceJoin(a + n, c);
    ReadsOnceJoin(a + n + c, l);
  }

  lemma {:induction false} ExchangeReadsOnce(dto: ExchangeDto, branch: Id, customer: Option<Id>, back: seq<Id>)
    ensures ReadsOnce(Statements.ExchangePlan(dto, branch, customer, back))
  {
    var a, n := [Take(OriginalRow(dto.sale), Exclusive), Look(OriginalRow(dto.sale))], Needs(branch, LockOrder.Distinct(ProductsOf(dto.items)));
    var c := [TakeCounter(ReturnSeries(branch), dto.period), TakeCounter(ExchangeInvoiceSeries(branch), dto.period)];
    var f, b, l := TakeCustomer(customer, Shared), Takes(branch, back), LookAtLedger(customer);
    DistinctNeeds(branch, LockOrder.Distinct(ProductsOf(dto.items)));
    ReadsOnceJoin(a, n);
    ReadsOnceJoin(a + n, c);
    ReadsOnceJoin(a + n + c, f);
    ReadsOnceJoin(a + n + c + f, b);
    ReadsOnceJoin(a + n + c + f + b, l);
  }

  lemma {:induction false} BatchReadsOnce(p: BatchPayload)
    requires p.source != p.destination && Ascending(p.items)
    ensures ReadsOnce(BatchPlan(p))
  {
    var products := MovedProducts(p.items);
    var out, into := Needs(p.source, products), Finds(p.destination, products);
    DistinctNeeds(p.source, products);
    DistinctNeeds(p.destination, products);
    ReadsOnceJoin(out, into);
    ReadsOnceJoin(into, out);
    ReadsOnceJoin(BatchFetches(p), Takes(p.destination, products));
  }

  // ------------------------------------------------------------------
  // Footprints.

  /** Regions whose value differs are locked by the plan. */
  ghost predicate WithinLocks(t: Tables, after: Tables, plan: seq<Isolation.Step<Region>>) {
    forall g :: ValueOf(after, g) != ValueOf(t, g) ==> Locked(plan, g)
  }

  lemma {:induction false} OthersKeepStatement(ledger: seq<LedgerEntry>, more: seq<LedgerEntry>, customer: Id)
    requires forall k | 0 <= k < |more| :: more[k].customer != customer
    ensures StatementEntries(ledger + more, customer) == StatementEntries(ledger, customer)
  {
    if more == [] {
      assert ledger + more == ledger;
    } else {
      assert (ledger + more)[..|ledger + more| - 1] == ledger + more[..|more| - 1];
      OthersKeepStatement(ledger, more[..|more| - 1], customer);
      var s := StatementEntries(ledger, customer);
      assert s + [] == s;
    }
  }

  /** Entries were added, all of one customer, if any. */
  ghost predicate PostedFor(before: seq<LedgerEntry>, after: seq<LedgerEntry>, customer: Option<Id>) {
    before <= after && forall k | |before| <= k < |after| :: Some(after[k].customer) == customer
  }

  lemma {:induction false} PostingTouchesOne(t: Tables, after: Tables, customer: Option<Id>, c: Id)
    requires PostedFor(t.ledger, after.ledger, customer) && customer != Some(c)
    ensures ValueOf(after, CustomerRow(c)) == ValueOf(t, CustomerRow(c))
  {
    var more := after.ledger[|t.ledger|..];
    assert after.ledger == t.ledger + more;
    OthersKeepStatement(t.ledger, more, c);
  }

  lemma {:induction false} SelectAlike(rows: seq<ReturnLine>, p: ReturnLine -> bool, q: ReturnLine -> bool)
    requires forall k | 0 <= k < |rows| :: p(rows[k]) == q(rows[k])
    ensures Select(rows, p) == Select(rows, q)
  {
    if rows != [] {
      SelectAlike(rows[..|rows| - 1], p, q);
    }
  }

  /** New return lines are of one sale, if any. */
  ghost predicate ReturnedFor(before: Books, after: Books, sale: Option<Id>) {
    && before.lines <= after.lines && before.returnLines <= after.returnLines
    && forall k | |before.returnLines| <= k < |after.returnLines| ::
         var line := after.returnLines[k].saleLine;
         line < |before.lines| && Some(before.lines[line].sale) == sale
  }

  lemma {:induction false} ReturningTouchesOne(t: Tables, after: Tables, sale: Option<Id>, s: Id)
    requires RowsBelong(t.books) && ReturnedFor(t.books, after.books, sale) && sale != Some(s)
    ensures ValueOf(after, OriginalRow(s)) == ValueOf(t, OriginalRow(s))
  {
    var rows, later := t.books.returnLines, after.books.returnLines;
    SelectGrown(rows, later, LineBelongs(after.books.lines, s));
    forall k | 0 <= k < |rows|
      ensures LineBelongs(after.books.lines, s)(rows[k]) == LineBelongs(t.books.lines, s)(rows[k])
    {
      assert ReturnLineSound(t.books, rows[k]);
    }
    SelectAlike(rows, LineBelongs(after.books.lines, s), LineBelongs(t.books.lines, s));
  }

  lemma {:induction false} WantedIsNamed(ps: seq<Portion>, product: Id) returns (i: nat)
    requires Wanted(ps, product) != 0
    ensures i < |ps| && ps[i].product == product
  {
    if forall j | 0 <= j < |ps| :: ps[j].product != product {
      WantedAbsent(ps, product);
    }
    i :| 0 <= i < |ps| && ps[i].product == product;
  }

  lemma {:induction false} LockedIn(a: seq<Isolation.Step<Region>>, b: seq<Isolation.Step<Region>>, g: Region)
    ensures Locked(a, g) || Locked(b, g) ==> Locked(a + b, g)
  {
    if Locked(a, g) {
      var k :| 0 <= k < |a| && Locks(a[k]) && a[k].region == g;
      assert (a + b)[k] == a[k];
    }
    if Locked(b, g) {
      var k :| 0 <= k < |b| && Locks(b[k]) && b[k].region == g;
      assert (a + b)[|a| + k] == b[k];
    }
  }

  lemma {:induction false} NeedsLock(branch: Id, products: seq<Id>, product: Id)
    requires product in products
    ensures Locked(Needs(branch, products), StockRow(Shelf(product, branch)))
    ensures Locked(Takes(branch, products), StockRow(Shelf(product, branch)))
  {
    var k :| 0 <= k < |products| && products[k] == product;
    assert Needs(branch, products)[k].region == StockRow(Shelf(product, branch));
    assert Takes(branch, products)[k].region == StockRow(Shelf(product, branch));
  }

  // ---- sales --------------------------------------------------------

  lemma {:induction false} SaleLocks(dto: SaleDto)
    ensures dto.customer.Some? ==> Locked(SalePlan(dto), CustomerRow(dto.customer.value))
    ensures forall i | 0 <= i < |dto.items| :: Locked(SalePlan(dto), StockRow(Shelf(dto.items[i].product, dto.branch)))
  {
    var products := LockOrder.Sorted(ProductsOf(dto.items));
    var a, n := TakeCustomer(dto.customer, Exclusive), Needs(dto.branch, products);
    var rest := [TakeCounter(InvoiceSeries(dto.branch, dto.user), dto.period)] + LookAtLedger(dto.customer);
    assert SalePlan(dto) == a + n + rest;
    if dto.customer.Some? {
      assert a[0].region == CustomerRow(dto.customer.value);
      LockedIn(a, n, CustomerRow(dto.customer.value));
      LockedIn(a + n, rest, CustomerRow(dto.customer.value));
    }
    forall i | 0 <= i < |dto.items| ensures Locked(SalePlan(dto), StockRow(Shelf(dto.items[i].product, dto.branch))) {
      var g := StockRow(Shelf(dto.items[i].product, dto.branch));
      assert ProductsOf(dto.items)[i] in products;
      NeedsLock(dto.branch, products, dto.items[i].product);
      LockedIn(a, n, g);
      LockedIn(a + n, rest, g);
    }
  }

  lemma {:induction false} SalePosts(t: Tables, dto: SaleDto)
    requires SaleSpec(t, dto).0.Ok?
    ensures PostedFor(t.ledger, SaleSpec(t, dto).1.ledger, dto.customer) && ReturnedFor(t.books, SaleSpec(t, dto).1.books, None)
  {}

  lemma {:induction false} SaleTouchesShelf(t: Tables, dto: SaleDto, shelf: Shelf) returns (i: nat)
    requires SaleSpec(t, dto).0.Ok? && ValueOf(SaleSpec(t, dto).1, StockRow(shelf)) != ValueOf(t, StockRow(shelf))
    ensures i < |dto.items| && shelf == Shelf(dto.items[i].product, dto.branch)
  {
    var lines := PrepareSale(t, dto).value.lines;
    SaleTakesItsTotals(t, dto);
    PreparedLinesAreSane(t.products, dto.items, false);
    assert shelf in t.inventory.stock;
    i := WantedIsNamed(Portions(lines), shelf.product);
  }

  lemma {:induction false} SaleFootprint(t: Tables, dto: SaleDto)
    requires RowsBelong(t.books) && SaleSpec(t, dto).0.Ok?
    ensures WithinLocks(t, SaleSpec(t, dto).1, SalePlan(dto))
  {
    var after := SaleSpec(t, dto).1;
    SaleLocks(dto);
    SalePosts(t, dto);
    forall g | ValueOf(after, g) != ValueOf(t, g) ensures Locked(SalePlan(dto), g) {
      match g
      case CustomerRow(c) => if dto.customer != Some(c) { PostingTouchesOne(t, after, dto.customer, c); }
      case OriginalRow(s) => ReturningTouchesOne(t, after, None, s);
      case StockRow(shelf) => var i := SaleTouchesShelf(t, dto, shelf);
      case CounterRow(_) =>
    }
  }

  // ---- exchanges ----------------------------------------------------

  lemma {:induction false} ExchangeLocks(dto: ExchangeDto, branch: Id, customer: Option<Id>, back: seq<Id>)
    ensures Locked(Statements.ExchangePlan(dto, branch, customer, back), OriginalRow(dto.sale))
    ensures customer.Some? ==> Locked(Statements.ExchangePlan(dto, branch, customer, back), CustomerRow(customer.value))
    ensures forall product | product in ProductsOf(dto.items) || product in back ::
              Locked(Statements.ExchangePlan(dto, branch, customer, back), StockRow(Shelf(product, branch)))
  {
    var products := LockOrder.Distinct(ProductsOf(dto.items));
    var a, n := [Take(OriginalRow(dto.sale), Exclusive), Look(OriginalRow(dto.sale))], Needs(branch, products);
    var c := [TakeCounter(ReturnSeries(branch), dto.period), TakeCounter(ExchangeInvoiceSeries(branch), dto.period)];
    var f, b, l := TakeCustomer(customer, Shared), Takes(branch, back), LookAtLedger(customer);
    forall g ensures Locked(a, g) || Locked(n, g) || Locked(f, g) || Locked(b, g) ==> Locked(Statements.ExchangePlan(dto, branch, customer, back), g) {
      LockedIn(a, n, g);
      LockedIn(a + n, c, g);
      LockedIn(a + n + c, f, g);
      LockedIn(a + n + c + f, b, g);
      LockedIn(a + n + c + f + b, l, g);
    }
    assert a[0].region == OriginalRow(dto.sale);
    assert customer.Some? ==> f[0].region == CustomerRow(customer.value);
    forall product | product in ProductsOf(dto.items) ensures Locked(n, StockRow(Shelf(product, branch))) { NeedsLock(branch, products, product); }
    forall product | product in back ensures Locked(b, StockRow(Shelf(product, branch))) { NeedsLock(branch, back, product); }
  }

  lemma {:induction false} ExchangePosts(t: Tables, dto: ExchangeDto)
    requires ExchangeSpec(t, dto).0.Ok?
    ensures PostedFor(t.ledger, ExchangeSpec(t, dto).1.ledger, PrepareExchange(t, dto).value.customer)
  {}

  lemma {:induction false} ExchangeReturns(t: Tables, dto: ExchangeDto)
    requires ExchangeSpec(t, dto).0.Ok?
    ensures ReturnedFor(t.books, ExchangeSpec(t, dto).1.books, Some(dto.sale))
  {
    var back := PrepareReturns(t.books, dto.sale, dto.goods).value;
    PreparedReturnsAreSane(t.books, dto.sale, dto.goods);
    forall i | 0 <= i < |back| ensures back[i].line < |t.books.lines| && t.books.lines[back[i].line].sale == dto.sale {
      PreparedAt(t.books, dto.sale, dto.goods, i);
    }
    var rows := ReturnRows(|t.books.refunds|, back);
    assert ExchangeSpec(t, dto).1.books.returnLines == t.books.returnLines + rows;
  }

  lemma {:induction false} ExchangeTouchesShelf(t: Tables, dto: ExchangeDto, shelf: Shelf)
    requires ExchangeSpec(t, dto).0.Ok? && ValueOf(ExchangeSpec(t, dto).1, StockRow(shelf)) != ValueOf(t, StockRow(shelf))
    ensures var p := PrepareExchange(t, dto).value;
            shelf.branch == p.branch && (shelf.product in ProductsOf(dto.items) || exists i :: 0 <= i < |p.back| && p.back[i].product == shelf.product)
  {
    var p := PrepareExchange(t, dto).value;
    ExchangeMovesItsTotals(t, dto);
    PreparedLinesAreSane(t.products, dto.items, true);
    assert shelf in t.inventory.stock;
    if Wanted(Back(p.back), shelf.product) != 0 {
      var i := WantedIsNamed(Back(p.back), shelf.product);
      assert p.back[i].product == shelf.product;
    } else {
      var i := WantedIsNamed(Portions(p.lines), shelf.product);
      assert ProductsOf(dto.items)[i] == shelf.product;
    }
  }

  lemma {:induction false} ExchangeFootprint(t: Tables, dto: ExchangeDto, branch: Id, customer: Option<Id>, back: seq<Id>)
    requires RowsBelong(t.books) && ExchangeSpec(t, dto).0.Ok? && Resolved(PrepareExchange(t, dto).value, branch, customer, back)
    ensures WithinLocks(t, ExchangeSpec(t, dto).1, Statements.ExchangePlan(dto, branch, customer, back))
  {
    var after := ExchangeSpec(t, dto).1;
    ExchangeLocks(dto, branch, customer, back);
    ExchangePosts(t, dto);
    ExchangeReturns(t, dto);
    forall g | ValueOf(after, g) != ValueOf(t, g) ensures Locked(Statements.ExchangePlan(dto, branch, customer, back), g) {
      match g
      case CustomerRow(c) => if customer != Some(c) { PostingTouchesOne(t, after, customer, c); }
      case OriginalRow(s) => if s != dto.sale { ReturningTouchesOne(t, after, Some(dto.sale), s); }
      case StockRow(shelf) => ExchangeTouchesShelf(t, dto, shelf);
      case CounterRow(_) =>
    }
  }

  // ---- transfers ----------------------------------------------------

  lemma {:induction false} StockOnly(t: Tables, after: Tables, g: Region)
    requires after.ledger == t.ledger && after.books == t.books && !g.StockRow?
    ensures ValueOf(after, g) == ValueOf(t, g)
  {}

  lemma {:induction false} TransferFootprint(t: Tables, dto: TransferDto)
    requires TransferSpec(t, dto).0.Ok?
    ensures WithinLocks(t, TransferSpec(t, dto).1, TransferPlan(dto))
  {
    var after := TransferSpec(t, dto).1;
    NeedsLock(dto.source, [dto.product], dto.product);
    NeedsLock(dto.destination, [dto.product], dto.product);
    forall g { LockedIn(Needs(dto.source, [dto.product]), Takes(dto.destination, [dto.product]), g); }
    forall g | ValueOf(after, g) != ValueOf(t, g) ensures Locked(TransferPlan(dto), g) {
      if !g.StockRow? {
        StockOnly(t, after, g);
      }
    }
  }

  lemma {:induction false} MoveAllTouches(inv: Inventory, source: Id, destination: Id, items: seq<Portion>, reference: Ref, shelf: Shelf)
    requires forall i | 0 <= i < |items| :: shelf != Shelf(items[i].product, source) && shelf != Shelf(items[i].product, destination)
    ensures var after := MoveAll(inv, source, destination, items, reference).stock;
            (shelf in after <==> shelf in inv.stock) && (shelf in after ==> after[shelf] == inv.stock[shelf])
    decreases |items|
  {
    if items != [] {
      MoveAllTouches(MoveOne(inv, source, destination, items[0], reference), source, destination, items[1..], reference, shelf);
    }
  }

  lemma {:induction false} BatchLocks(p: BatchPayload, i: nat)
    requires i < |p.items|
    ensures Locked(BatchPlan(p), StockRow(Shelf(p.items[i].product, p.source))) && Locked(BatchPlan(p), StockRow(Shelf(p.items[i].product, p.destination)))
  {
    var first, second := FetchedIn(p, i);
    var takes := Takes(p.destination, MovedProducts(p.items));
    assert MovedProducts(p.items)[i] == p.items[i].product;
    NeedsLock(p.destination, MovedProducts(p.items), p.items[i].product);
    LockedIn(BatchFetches(p), takes, StockRow(Shelf(p.items[i].product, p.source)));
    LockedIn(BatchFetches(p), takes, StockRow(Shelf(p.items[i].product, p.destination)));
  }

  lemma {:induction false} BatchFootprint(t: Tables, id: Id, p: BatchPayload)
    ensures WithinLocks(t, ApplyBatch(t, Given(id), p), BatchPlan(p))
  {
    var after := ApplyBatch(t, Given(id), p);
    forall g | ValueOf(after, g) != ValueOf(t, g) ensures Locked(BatchPlan(p), g) {
      if g.StockRow? {
        if forall i | 0 <= i < |p.items| :: g.shelf != Shelf(p.items[i].product, p.source) && g.shelf != Shelf(p.items[i].product, p.destination) {
          MoveAllTouches(t.inventory, p.source, p.destination, p.items, BatchRef(Given(id)), g.shelf);
        } else {
          var i :| 0 <= i < |p.items| && !(g.shelf != Shelf(p.items[i].product, p.source) && g.shelf != Shelf(p.items[i].product, p.destination));
          BatchLocks(p, i);
        }
      } else {
        StockOnly(t, after, g);
      }
    }
  }

  lemma {:induction false} Footprint(t: Tables, q: Request)
    requires RowsBelong(t.books) && Atomic(t, q).Some?
    ensures WithinLocks(t, Atomic(t, q).value, PlanOf(q))
  {
    match q
    case OfSale(dto) => SaleFootprint(t, dto);
    case OfExchange(dto, branch, customer, back) => ExchangeFootprint(t, dto, branch, customer, back);
    case OfTransfer(dto) => TransferFootprint(t, dto);
    case OfBatch(id, p) => BatchFootprint(t, id, p);
  }
}
