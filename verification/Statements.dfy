/**
 * Sales, exchanges and transfers as the statements they issue, in order, and what each commits given
 * what its statements have read. Reads of tables that these transactions never write (branches,
 * products, credit limits, cash sessions, the columns of a sale and its lines) are left out of the
 * statements.
 */
module Statements {
  import opened Wrappers
  import opened Tables
  import opened StockLog
  import opened StockTransfer
  import opened CustomerLedger
  import opened Checkout
  import opened Bookkeeping
  import opened Sales
  import opened Returns
  import opened Exchange
  import opened ExchangeReplay
  import opened Isolation
  import LockOrder

  // For an exchange, the branch, customer and returned products are those of the original sale's rows.
  datatype Request =
    | OfSale(sale: SaleDto)
    | OfExchange(swap: ExchangeDto, branch: Id, customer: Option<Id>, back: seq<Id>)
    | OfTransfer(single: TransferDto)
    | OfBatch(id: Id, batch: BatchPayload)

  datatype Region = CustomerRow(customer: Id) | OriginalRow(sale: Id) | StockRow(shelf: Shelf) | CounterRow(counter: Counter)

  // The ledger entries of a customer, the return lines of a sale, the quantity of a stock row if there is one.
  datatype Reading = Entries(entries: seq<LedgerEntry>) | Rows(rows: seq<ReturnLine>) | Quantity(quantity: Option<int>) | Nothing

  type Seen = map<Region, Reading>

  function LineBelongs(lines: seq<SaleLine>, sale: Id): ReturnLine -> bool {
    (r: ReturnLine) => r.saleLine < |lines| && lines[r.saleLine].sale == sale
  }

  function ValueOf(t: Tables, g: Region): Reading {
    match g
    case CustomerRow(customer) => Entries(StatementEntries(t.ledger, customer))
    case OriginalRow(sale) => Rows(Select(t.books.returnLines, LineBelongs(t.books.lines, sale)))
    case StockRow(shelf) => Quantity(if shelf in t.inventory.stock then Some(t.inventory.stock[shelf]) else None)
    case CounterRow(_) => Nothing
  }

  function Missing(r: Reading): bool { r == Quantity(None) }

  // ------------------------------------------------------------------
  // The statements.

  function ProductsOf(items: seq<Item>): (r: seq<Id>)
    ensures |r| == |items| && forall i | 0 <= i < |r| :: r[i] == items[i].product
  {
    seq(|items|, i requires 0 <= i < |items| => items[i].product)
  }

  function MovedProducts(items: seq<Portion>): (r: seq<Id>)
    ensures |r| == |items| && forall i | 0 <= i < |r| :: r[i] == items[i].product
  {
    seq(|items|, i requires 0 <= i < |items| => items[i].product)
  }

  function Needs(branch: Id, products: seq<Id>): (r: seq<Step<Region>>)
    ensures |r| == |products| && forall i | 0 <= i < |r| :: r[i] == Need(StockRow(Shelf(products[i], branch)))
  {
    seq(|products|, i requires 0 <= i < |products| => Need(StockRow(Shelf(products[i], branch))))
  }

  function Finds(branch: Id, products: seq<Id>): (r: seq<Step<Region>>)
    ensures |r| == |products| && forall i | 0 <= i < |r| :: r[i] == Find(StockRow(Shelf(products[i], branch)))
  {
    seq(|products|, i requires 0 <= i < |products| => Find(StockRow(Shelf(products[i], branch))))
  }

  function Takes(branch: Id, products: seq<Id>): (r: seq<Step<Region>>)
    ensures |r| == |products| && forall i | 0 <= i < |r| :: r[i] == Take(StockRow(Shelf(products[i], branch)), Exclusive)
  {
    seq(|products|, i requires 0 <= i < |products| => Take(StockRow(Shelf(products[i], branch)), Exclusive))
  }

  function TakeCustomer(customer: Option<Id>, mode: Mode): seq<Step<Region>> {
    if customer.Some? then [Take(CustomerRow(customer.value), mode)] else []
  }

  function LookAtLedger(customer: Option<Id>): seq<Step<Region>> {
    if customer.Some? then [Look(CustomerRow(customer.value))] else []
  }

  function TakeCounter(series: Series, period: nat): Step<Region> { Take(CounterRow(Counter(series, period)), Exclusive) }

  function SalePlan(dto: SaleDto): seq<Step<Region>> {
    TakeCustomer(dto.customer, Exclusive)
    + Needs(dto.branch, LockOrder.Sorted(ProductsOf(dto.items)))
    + [TakeCounter(InvoiceSeries(dto.branch, dto.user), dto.period)]
    + LookAtLedger(dto.customer)
  }

  /** The customer row is locked by the foreign keys of the rows inserted for it. */
  function ExchangePlan(dto: ExchangeDto, branch: Id, customer: Option<Id>, back: seq<Id>): seq<Step<Region>> {
    [Take(OriginalRow(dto.sale), Exclusive), Look(OriginalRow(dto.sale))]
    + Needs(branch, LockOrder.Distinct(ProductsOf(dto.items)))
    + [TakeCounter(ReturnSeries(branch), dto.period), TakeCounter(ExchangeInvoiceSeries(branch), dto.period)]
    + TakeCustomer(customer, Shared)
    + Takes(branch, back)
    + LookAtLedger(customer)
  }

  /** What FOR UPDATE reads of the destination row is not used, so only the upsert is listed for it. */
  function TransferPlan(dto: TransferDto): seq<Step<Region>> {
    Needs(dto.source, [dto.product]) + Takes(dto.destination, [dto.product])
  }

  /** The rows of the lower branch are fetched first; then each product is moved. */
  function BatchFetches(p: BatchPayload): seq<Step<Region>> {
    var out, into := Needs(p.source, MovedProducts(p.items)), Finds(p.destination, MovedProducts(p.items));
    if p.source < p.destination then out + into else into + out
  }

  function BatchPlan(p: BatchPayload): seq<Step<Region>> {
    BatchFetches(p) + Takes(p.destination, MovedProducts(p.items))
  }

  function PlanOf(q: Request): seq<Step<Region>> {
    match q
    case OfSale(dto) => SalePlan(dto)
    case OfExchange(dto, branch, customer, back) => ExchangePlan(dto, branch, customer, back)
    case OfTransfer(dto) => TransferPlan(dto)
    case OfBatch(_, p) => if Proper(p) then BatchPlan(p) else []   // refused before BEGIN
  }

  // ------------------------------------------------------------------
  // What is committed.

  /** The stock rows that were read. */
  function StockRead(seen: Seen): map<Shelf, int> {
    map g | g in seen && g.StockRow? && seen[g].Quantity? && seen[g].quantity.Some? :: g.shelf := seen[g].quantity.value
  }

  function EntriesRead(seen: Seen, customer: Option<Id>): seq<LedgerEntry> {
    if customer.Some? && CustomerRow(customer.value) in seen && seen[CustomerRow(customer.value)].Entries?
    then seen[CustomerRow(customer.value)].entries else []
  }

  function RowsRead(seen: Seen, sale: Id): seq<ReturnLine> {
    if OriginalRow(sale) in seen && seen[OriginalRow(sale)].Rows? then seen[OriginalRow(sale)].rows else []
  }

  /** The checks see the stock rows and return lines that were read. */
  function AsRead(t: Tables, seen: Seen): Tables {
    t.(inventory := t.inventory.(stock := StockRead(seen)))
  }

  /** What was computed on the entries read joins the ledger there is. */
  function Posted(t: Tables, read: seq<LedgerEntry>, after: Tables): Tables {
    after.(ledger := t.ledger + (if |read| <= |after.ledger| then after.ledger[|read|..] else []))
  }

  function SaleAt(t: Tables, dto: SaleDto, seen: Seen): Option<Tables> {
    var read := EntriesRead(seen, dto.customer);
    match PrepareSale(AsRead(t, seen), dto)
    case Err(_) => None
    case Ok(b) =>
      match CommitSale(t.(ledger := read), dto, b)
      case Err(_) => None
      case Ok(after) => Some(Posted(t, read, after))
  }

  /** The plan is for the sale whose rows were resolved before. */
  predicate Resolved(p: Plan, branch: Id, customer: Option<Id>, back: seq<Id>) {
    p.branch == branch && p.customer == customer && forall i | 0 <= i < |p.back| :: p.back[i].product in back
  }

  function ExchangeView(t: Tables, dto: ExchangeDto, seen: Seen): Tables {
    AsRead(t, seen).(books := t.books.(returnLines := RowsRead(seen, dto.sale)))
  }

  function ExchangeAt(t: Tables, dto: ExchangeDto, branch: Id, customer: Option<Id>, back: seq<Id>, seen: Seen): Option<Tables> {
    var read := EntriesRead(seen, customer);
    match PrepareExchange(ExchangeView(t, dto, seen), dto)
    case Err(_) => None
    case Ok(p) =>
      if !Resolved(p, branch, customer, back) then None
      else
        match CommitExchange(t.(ledger := read), dto, p)
        case Err(_) => None
        case Ok(done) => Some(Posted(t, read, done.0))
  }

  /** Relative updates of both rows, logged with the given figures for what was there before. */
  function MoveRead(inv: Inventory, source: Id, destination: Id, item: Portion, reference: Ref, before: int, there: int): Inventory {
    var from, to := Shelf(item.product, source), Shelf(item.product, destination);
    var less := QuantityAt(inv.stock, from) - item.quantity;
    var stock := inv.stock[from := less];
    var more := QuantityAt(stock, to) + item.quantity;
    Inventory(stock[to := more],
              inv.moves + [Movement(from, TransferOut, item.quantity, before, less, reference)]
                        + [Movement(to, TransferIn, item.quantity, there, more, reference)])
  }

  /** A batch logs what it read before the first update. */
  function MoveAllRead(inv: Inventory, read: map<Shelf, int>, source: Id, destination: Id, items: seq<Portion>, reference: Ref): Inventory
    decreases |items|
  {
    if items == [] then inv
    else
      var from, to := Shelf(items[0].product, source), Shelf(items[0].product, destination);
      var next := MoveRead(inv, source, destination, items[0], reference, QuantityAt(read, from), QuantityAt(read, to));
      MoveAllRead(next, read, source, destination, items[1..], reference)
  }

  /** And reports it, beside what the updates returned. */
  function ResultsRead(stock: map<Shelf, int>, read: map<Shelf, int>, source: Id, destination: Id, items: seq<Portion>): (r: seq<BatchItemResult>)
    ensures |r| == |items|
  {
    seq(|items|, i requires 0 <= i < |items| =>
      var from, to := Shelf(items[i].product, source), Shelf(items[i].product, destination);
      BatchItemResult(items[i].product, items[i].quantity, QuantityAt(read, from), QuantityAt(stock, from) - items[i].quantity,
                      QuantityAt(read, to), QuantityAt(stock, to) + items[i].quantity))
  }

  /** A single transfer logs at the destination what its update returned, less what it added. */
  function TransferAt(t: Tables, dto: TransferDto, seen: Seen): Option<Tables> {
    var row, read := TransferRowOf(t, dto), StockRead(seen);
    if dto.quantity <= 0 || dto.source == dto.destination || (dto.transferId.Some? && FindTransfer(t.transfers, row.id).Some?)
       || CheckTransfer(AsRead(t, seen), dto).Err? then None
    else
      var from, to := Shelf(dto.product, dto.source), Shelf(dto.product, dto.destination);
      Some(t.(inventory := MoveRead(t.inventory, dto.source, dto.destination, Portion(dto.product, dto.quantity), TransferRef(row.id),
                                    QuantityAt(read, from), QuantityAt(t.inventory.stock, to)),
              transfers := t.transfers + [row]))
  }

  /** What validation lets through: two branches, and positive totals of distinct products. */
  predicate Proper(p: BatchPayload) {
    p.source != p.destination && Positive(p.items) && Ascending(p.items)
  }

  function BatchAt(t: Tables, id: Id, p: BatchPayload, seen: Seen): Option<Tables> {
    if !Proper(p) || CheckBatch(AsRead(t, seen), p).Err? then None
    else
      var read := StockRead(seen);
      var reply := BatchResult(Given(id), p.source, p.destination, |p.items|, SumQuantity(p.items),
                               ResultsRead(t.inventory.stock, read, p.source, p.destination, p.items));
      Some(t.(inventory := MoveAllRead(t.inventory, read, p.source, p.destination, p.items, BatchRef(Given(id))),
              transfers := AuditRows(t.transfers, p.source, p.destination, p.items),
              batches := t.batches[Given(id) := BatchRow(p, reply)]))
  }

  function BodyOf(t: Tables, q: Request, seen: Seen): Option<Tables> {
    match q
    case OfSale(dto) => SaleAt(t, dto, seen)
    case OfExchange(dto, branch, customer, back) => ExchangeAt(t, dto, branch, customer, back, seen)
    case OfTransfer(dto) => TransferAt(t, dto, seen)
    case OfBatch(id, p) => BatchAt(t, id, p, seen)
  }

  type ShopProgram = Program<Request, Region, Reading, Tables>

  function Shop(): ShopProgram { Program(PlanOf, ValueOf, Missing, BodyOf) }

  /** The same requests as single transactions; None when they throw. */
  function Atomic(t: Tables, q: Request): Option<Tables> {
    match q
    case OfSale(dto) => if SaleSpec(t, dto).0.Ok? then Some(SaleSpec(t, dto).1) else None
    case OfExchange(dto, branch, customer, back) =>
      if ExchangeSpec(t, dto).0.Ok? && Resolved(PrepareExchange(t, dto).value, branch, customer, back) then Some(ExchangeSpec(t, dto).1) else None
    case OfTransfer(dto) => if TransferSpec(t, dto).0.Ok? && TransferSpec(t, dto).1 != t then Some(TransferSpec(t, dto).1) else None
    case OfBatch(id, p) => if Proper(p) && CheckBatch(t, p).Ok? then Some(ApplyBatch(t, Given(id), p)) else None
  }
}
