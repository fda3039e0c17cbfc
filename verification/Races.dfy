/** Which of the transactions can overtake each other: the only two races there are. */
module Races {
  import opened Wrappers
  import opened Tables
  import opened StockLog
  import opened StockTransfer
  import opened CustomerLedger
  import opened Checkout
  import opened Bookkeeping
  import opened Sales
  import opened Returns
  import opened Exchange
  import opened ExchangeLaws
  import opened Frames
  import opened ProductStock
  import opened Runs
  import opened Isolation
  import opened Statements
  import opened Readings
  import opened Footprints
  import LockOrder

  // ------------------------------------------------------------------
  // The program meets what serial execution asks of it.

  ghost function Valid(): Tables -> bool { (t: Tables) => Runs.Invariant(t) }

  lemma {:induction false} ShopReadsOnce()
    ensures PlansReadOnce(Shop())
  {
    forall q ensures ReadsOnce(PlanOf(q)) {
      match q
      case OfSale(dto) => SaleReadsOnce(dto);
      case OfExchange(dto, branch, customer, back) => ExchangeReadsOnce(dto, branch, customer, back);
      case OfTransfer(dto) =>
      case OfBatch(_, p) => if Proper(p) { BatchReadsOnce(p); }
    }
  }

  lemma {:induction false} BatchIsKept(t: Tables, id: Id, p: BatchPayload)
    requires Runs.Invariant(t) && Proper(p) && CheckBatch(t, p).Ok?
    ensures Kept(t, ApplyBatch(t, Given(id), p))
  {
    var ref := BatchRef(Given(id));
    MoveAllKeepsFaithful(t.inventory, p.source, p.destination, p.items, ref);
    MoveAllShelves(t.inventory, p.source, p.destination, p.items, ref, t.products);
    MoveAllIsQuiet(t.inventory, p.source, p.destination, p.items, ref);
    StockIsKept(t, ApplyBatch(t, Given(id), p));
  }

  lemma {:induction false} AtomicKeeps(t: Tables, q: Request)
    requires Runs.Invariant(t) && Atomic(t, q).Some?
    ensures Kept(t, Atomic(t, q).value)
  {
    match q
    case OfSale(dto) => SellKeeps(t, dto);
    case OfExchange(dto, _, _, _) => SwapKeeps(t, dto);
    case OfTransfer(dto) => MoveSingleKeeps(t, dto);
    case OfBatch(id, p) => BatchIsKept(t, id, p);
  }

  lemma {:induction false} ShopIsFramed()
    ensures Framed(Shop(), Valid())
  {
    forall t, q | Valid()(t) && Alone(Shop(), t, q).Some?
      ensures Valid()(Alone(Shop(), t, q).value)
      ensures forall g :: ValueOf(Alone(Shop(), t, q).value, g) != ValueOf(t, g) ==> Locked(PlanOf(q), g)
    {
      AloneIsAtomic(t, q);
      AtomicKeeps(t, q);
      Footprint(t, q);
    }
  }

  // ------------------------------------------------------------------
  // The races.

  /** Exchanges of one registered customer, of two sales, numbered by different counters. */
  predicate BalanceRace(a: Request, b: Request) {
    && a.OfExchange? && b.OfExchange? && a.customer.Some? && a.customer == b.customer
    && a.swap.sale != b.swap.sale && !(a.branch == b.branch && a.swap.period == b.swap.period)
  }

  /** The request moves goods to a shelf that has no row yet. */
  ghost predicate Creates(t: Tables, q: Request, shelf: Shelf) {
    && shelf !in t.inventory.stock
    && match q
       case OfTransfer(dto) => shelf == Shelf(dto.product, dto.destination)
       case OfBatch(_, p) => exists i :: 0 <= i < |p.items| && shelf == Shelf(p.items[i].product, p.destination)
       case _ => false
  }

  /** A batch and another transfer about to create one stock row. */
  ghost predicate RowRace(t: Tables, reader: Request, writer: Request) {
    reader.OfBatch? && exists shelf :: Creates(t, reader, shelf) && Creates(t, writer, shelf)
  }

  // ------------------------------------------------------------------
  // A statement that its own locks guard is never overtaken.

  lemma {:induction false} ExclusiveWins(a: seq<Isolation.Step<Region>>, b: seq<Isolation.Step<Region>>, k: nat, l: nat)
    requires k < |a| && l < |b| && Locks(a[k]) && Locks(b[l]) && a[k].region == b[l].region
    requires ModeOf(a[k]) == Exclusive || ModeOf(b[l]) == Exclusive
    ensures Collide(a, b)
  {}

  lemma {:induction false} GuardedBy(a: seq<Isolation.Step<Region>>, b: seq<Isolation.Step<Region>>, k: nat, g: Region)
    requires k < |a| && Locks(a[k]) && ModeOf(a[k]) == Exclusive && a[k].region == g && Locked(b, g)
    ensures Collide(a, b)
  {
    var l :| 0 <= l < |b| && Locks(b[l]) && b[l].region == g;
    ExclusiveWins(a, b, k, l);
  }

  /** The region is the account of a customer who is charged by an exchange, or a row that a batch found missing. */
  ghost predicate Exposed(t: Tables, reader: Request, g: Region) {
    || (reader.OfExchange? && reader.customer.Some? && g == CustomerRow(reader.customer.value))
    || (reader.OfBatch? && g.StockRow? && Creates(t, reader, g.shelf))
  }

  lemma {:induction false} SaleIsGuarded(dto: SaleDto, k: nat, b: seq<Isolation.Step<Region>>)
    requires k < |SalePlan(dto)| && !SalePlan(dto)[k].Take? && Locked(b, SalePlan(dto)[k].region)
    ensures Collide(SalePlan(dto)[..k + 1], b)
  {
    var plan := SalePlan(dto);
    if plan[k].Need? {
      GuardedBy(plan[..k + 1], b, k, plan[k].region);
    } else {
      assert plan[0] == Take(CustomerRow(dto.customer.value), Exclusive) && plan[k].region == plan[0].region;
      GuardedBy(plan[..k + 1], b, 0, plan[k].region);
    }
  }

  lemma {:induction false} ExchangeReadings(dto: ExchangeDto, branch: Id, customer: Option<Id>, back: seq<Id>, k: nat)
    requires k < |Statements.ExchangePlan(dto, branch, customer, back)| && !Statements.ExchangePlan(dto, branch, customer, back)[k].Take?
    ensures var step := Statements.ExchangePlan(dto, branch, customer, back)[k];
            || step.Need?
            || (k == 1 && step == Look(OriginalRow(dto.sale)))
            || (customer.Some? && step == Look(CustomerRow(customer.value)) && k == |Statements.ExchangePlan(dto, branch, customer, back)| - 1)
    ensures Statements.ExchangePlan(dto, branch, customer, back)[0] == Take(OriginalRow(dto.sale), Exclusive)
  {}

  lemma {:induction false} ExchangeIsGuarded(dto: ExchangeDto, branch: Id, customer: Option<Id>, back: seq<Id>, k: nat, b: seq<Isolation.Step<Region>>)
    requires var plan := Statements.ExchangePlan(dto, branch, customer, back);
             k < |plan| && !plan[k].Take? && Locked(b, plan[k].region) && !(customer.Some? && plan[k].region == CustomerRow(customer.value))
    ensures Collide(Statements.ExchangePlan(dto, branch, customer, back)[..k + 1], b)
  {
    var plan := Statements.ExchangePlan(dto, branch, customer, back);
    ExchangeReadings(dto, branch, customer, back, k);
    if plan[k].Need? {
      GuardedBy(plan[..k + 1], b, k, plan[k].region);
    } else {
      GuardedBy(plan[..k + 1], b, 0, plan[k].region);
    }
  }

  lemma {:induction false} TransferIsGuarded(dto: TransferDto, k: nat, b: seq<Isolation.Step<Region>>)
    requires k < |TransferPlan(dto)| && !TransferPlan(dto)[k].Take? && Locked(b, TransferPlan(dto)[k].region)
    ensures Collide(TransferPlan(dto)[..k + 1], b)
  {
    GuardedBy(TransferPlan(dto)[..k + 1], b, k, TransferPlan(dto)[k].region);
  }

  lemma {:induction false} BatchIsGuarded(t: Tables, id: Id, p: BatchPayload, k: nat, b: seq<Isolation.Step<Region>>)
    requires k < |BatchPlan(p)| && !BatchPlan(p)[k].Take? && Locked(b, BatchPlan(p)[k].region)
    requires BatchPlan(p)[k].Find? ==> Missing(ValueOf(t, BatchPlan(p)[k].region))
    ensures Collide(BatchPlan(p)[..k + 1], b) || Exposed(t, OfBatch(id, p), BatchPlan(p)[k].region)
  {
    var plan, products := BatchPlan(p), MovedProducts(p.items);
    if plan[k].Need? {
      GuardedBy(plan[..k + 1], b, k, plan[k].region);
    } else {
      var n := |p.items|;
      var i := if p.source < p.destination then k - n else k;
      assert plan[k] == Finds(p.destination, products)[i];
      assert plan[k].region.shelf == Shelf(p.items[i].product, p.destination);
    }
  }

  lemma {:induction false} OnlyTheExposedIsOvertaken(t: Tables, reader: Request, k: nat, b: seq<Isolation.Step<Region>>)
    requires var plan := PlanOf(reader);
             && k < |plan| && !plan[k].Take? && Locked(b, plan[k].region) && !Collide(plan[..k + 1], b)
             && (plan[k].Find? ==> Missing(ValueOf(t, plan[k].region)))
    ensures Exposed(t, reader, PlanOf(reader)[k].region)
  {
    match reader
    case OfSale(dto) => SaleIsGuarded(dto, k, b);
    case OfExchange(dto, branch, customer, back) =>
      if !(customer.Some? && PlanOf(reader)[k].region == CustomerRow(customer.value)) {
        ExchangeIsGuarded(dto, branch, customer, back, k, b);
      }
    case OfTransfer(dto) => TransferIsGuarded(dto, k, b);
    case OfBatch(id, p) => BatchIsGuarded(t, id, p, k, b);
  }

  // ------------------------------------------------------------------
  // Who writes what is exposed.

  lemma {:induction false} ExchangeTakes(dto: ExchangeDto, branch: Id, customer: Option<Id>, back: seq<Id>) returns (n: nat)
    ensures var plan := Statements.ExchangePlan(dto, branch, customer, back);
            && n + 4 <= |plan| && plan[0] == Take(OriginalRow(dto.sale), Exclusive)
            && plan[n + 2] == TakeCounter(ReturnSeries(branch), dto.period)
            && (customer.Some? ==> n + 5 < |plan| && plan[n + 4] == Take(CustomerRow(customer.value), Shared)
                                   && plan[|plan| - 1] == Look(CustomerRow(customer.value)))
  {
    n := |LockOrder.Distinct(ProductsOf(dto.items))|;
  }

  lemma {:induction false} ExchangeRegions(dto: ExchangeDto, branch: Id, customer: Option<Id>, back: seq<Id>, k: nat)
    requires k < |Statements.ExchangePlan(dto, branch, customer, back)|
    ensures var step := Statements.ExchangePlan(dto, branch, customer, back)[k];
            && !step.Find?
            && match step.region
               case OriginalRow(sale) => sale == dto.sale
               case StockRow(shelf) => shelf.branch == branch
               case CounterRow(counter) => counter.series == ReturnSeries(branch) || counter.series == ExchangeInvoiceSeries(branch)
               case CustomerRow(c) => customer == Some(c) && (step.Look? || step == Take(CustomerRow(c), Shared))
  {}

  lemma {:induction false} SaleLocksCustomer(dto: SaleDto, c: Id)
    requires Locked(SalePlan(dto), CustomerRow(c))
    ensures SalePlan(dto)[0] == Take(CustomerRow(c), Exclusive)
  {}

  lemma {:induction false} WhoLocksCustomer(q: Request, c: Id)
    requires Locked(PlanOf(q), CustomerRow(c))
    ensures || (q.OfSale? && PlanOf(q)[0] == Take(CustomerRow(c), Exclusive))
            || (q.OfExchange? && q.customer == Some(c))
  {
    match q
    case OfSale(dto) => SaleLocksCustomer(dto, c);
    case OfExchange(dto, branch, customer, back) =>
      var k :| 0 <= k < |PlanOf(q)| && Locks(PlanOf(q)[k]) && PlanOf(q)[k].region == CustomerRow(c);
      ExchangeRegions(dto, branch, customer, back, k);
    case OfTransfer(dto) =>
    case OfBatch(_, p) =>
  }

  lemma {:induction false} SalesKeepOut(reader: Request, writer: Request)
    requires reader.OfExchange? && reader.customer.Some? && writer.OfSale? && PlanOf(writer)[..1] == [Take(CustomerRow(reader.customer.value), Exclusive)]
    ensures Collide(PlanOf(reader), PlanOf(writer))
  {
    var n := ExchangeTakes(reader.swap, reader.branch, reader.customer, reader.back);
    assert PlanOf(writer)[0] == PlanOf(writer)[..1][0];
    ExclusiveWins(PlanOf(reader), PlanOf(writer), n + 4, 0);
  }

  lemma {:induction false} SameSaleKeepsOut(reader: Request, writer: Request)
    requires reader.OfExchange? && writer.OfExchange? && reader.swap.sale == writer.swap.sale
    ensures Collide(PlanOf(reader), PlanOf(writer))
  {
    var n := ExchangeTakes(reader.swap, reader.branch, reader.customer, reader.back);
    var m := ExchangeTakes(writer.swap, writer.branch, writer.customer, writer.back);
    ExclusiveWins(PlanOf(reader), PlanOf(writer), 0, 0);
  }

  lemma {:induction false} SameCounterKeepsOut(reader: Request, writer: Request)
    requires reader.OfExchange? && writer.OfExchange? && reader.branch == writer.branch && reader.swap.period == writer.swap.period
    ensures Collide(PlanOf(reader), PlanOf(writer))
  {
    var n := ExchangeTakes(reader.swap, reader.branch, reader.customer, reader.back);
    var m := ExchangeTakes(writer.swap, writer.branch, writer.customer, writer.back);
    ExclusiveWins(PlanOf(reader), PlanOf(writer), n + 2, m + 2);
  }

  lemma {:induction false} AccountsRace(reader: Request, writer: Request)
    requires reader.OfExchange? && reader.customer.Some? && Locked(PlanOf(writer), CustomerRow(reader.customer.value))
    requires !Collide(PlanOf(reader), PlanOf(writer))
    ensures BalanceRace(reader, writer)
  {
    WhoLocksCustomer(writer, reader.customer.value);
    if writer.OfSale? {
      SalesKeepOut(reader, writer);
    } else if reader.swap.sale == writer.swap.sale {
      SameSaleKeepsOut(reader, writer);
    } else if reader.branch == writer.branch && reader.swap.period == writer.swap.period {
      SameCounterKeepsOut(reader, writer);
    }
  }

  lemma {:induction false} MoveAllCreates(inv: Inventory, source: Id, destination: Id, items: seq<Portion>, reference: Ref, shelf: Shelf) returns (i: nat)
    requires Covers(inv.stock, source, items) && shelf !in inv.stock && shelf in MoveAll(inv, source, destination, items, reference).stock
    ensures i < |items| && shelf == Shelf(items[i].product, destination)
  {
    if forall j | 0 <= j < |items| :: shelf != Shelf(items[j].product, destination) {
      MoveAllTouches(inv, source, destination, items, reference, shelf);
    }
    i :| 0 <= i < |items| && shelf == Shelf(items[i].product, destination);
  }

  /** Only transfers create stock rows, and only at their destination. */
  lemma {:induction false} WhoCreates(t: Tables, q: Request, shelf: Shelf)
    requires Atomic(t, q).Some? && shelf !in t.inventory.stock && shelf in Atomic(t, q).value.inventory.stock
    ensures Creates(t, q, shelf)
  {
    match q
    case OfSale(dto) => SaleTakesItsTotals(t, dto);
    case OfExchange(dto, _, _, _) => ExchangeMovesItsTotals(t, dto);
    case OfTransfer(dto) =>
    case OfBatch(id, p) => var i := MoveAllCreates(t.inventory, p.source, p.destination, p.items, BatchRef(Given(id)), shelf);
  }

  /** What is read unguarded is exposed, and the writer locks and changes it. */
  lemma {:induction false} ClashExposes(t: Tables, reader: Request, writer: Request) returns (k: nat)
    requires Runs.Invariant(t) && Clash(Shop(), t, reader, writer)
    ensures k < |PlanOf(reader)| && !PlanOf(reader)[k].Take? && Exposed(t, reader, PlanOf(reader)[k].region)
    ensures Locked(PlanOf(writer), PlanOf(reader)[k].region) && !Collide(PlanOf(reader)[..k + 1], PlanOf(writer))
    ensures Atomic(t, writer).Some? && ValueOf(Atomic(t, writer).value, PlanOf(reader)[k].region) != ValueOf(t, PlanOf(reader)[k].region)
  {
    k :| ReadsUnguarded(Shop(), t, reader, k, writer);
    AloneIsAtomic(t, writer);
    Footprint(t, writer);
    OnlyTheExposedIsOvertaken(t, reader, k, PlanOf(writer));
  }

  lemma {:induction false} ExposedAccountRaces(reader: Request, k: nat, writer: Request)
    requires reader.OfExchange? && reader.customer.Some? && k < |PlanOf(reader)|
    requires !PlanOf(reader)[k].Take? && PlanOf(reader)[k].region == CustomerRow(reader.customer.value)
    requires Locked(PlanOf(writer), CustomerRow(reader.customer.value)) && !Collide(PlanOf(reader)[..k + 1], PlanOf(writer))
    ensures BalanceRace(reader, writer)
  {
    ExchangeReadings(reader.swap, reader.branch, reader.customer, reader.back, k);
    assert PlanOf(reader)[..k + 1] == PlanOf(reader);
    AccountsRace(reader, writer);
  }

  lemma {:induction false} ExposedRowRaces(t: Tables, reader: Request, writer: Request, shelf: Shelf)
    requires reader.OfBatch? && Creates(t, reader, shelf)
    requires Atomic(t, writer).Some? && ValueOf(Atomic(t, writer).value, StockRow(shelf)) != ValueOf(t, StockRow(shelf))
    ensures RowRace(t, reader, writer)
  {
    WhoCreates(t, writer, shelf);
  }

  /** Two transactions can only overtake each other in one of the two races. */
  lemma {:induction false} ClashIsARace(t: Tables, reader: Request, writer: Request)
    requires Runs.Invariant(t) && Clash(Shop(), t, reader, writer)
    ensures BalanceRace(reader, writer) || RowRace(t, reader, writer)
  {
    var k := ClashExposes(t, reader, writer);
    ExposedIsARace(t, reader, k, PlanOf(reader)[k].region, writer);
  }

  lemma {:induction false} ExposedIsARace(t: Tables, reader: Request, k: nat, g: Region, writer: Request)
    requires k < |PlanOf(reader)| && !PlanOf(reader)[k].Take? && PlanOf(reader)[k].region == g && Exposed(t, reader, g)
    requires Locked(PlanOf(writer), g) && !Collide(PlanOf(reader)[..k + 1], PlanOf(writer))
    requires Atomic(t, writer).Some? && ValueOf(Atomic(t, writer).value, g) != ValueOf(t, g)
    ensures BalanceRace(reader, writer) || RowRace(t, reader, writer)
  {
    if reader.OfExchange? {
      ExposedAccountRaces(reader, k, writer);
    } else {
      ExposedRowRaces(t, reader, writer, g.shelf);
    }
  }
}
