/** What transfers, receipts, adjustments and imports do to the shelves and answer, told by their requests. */
module StockTerms {
  import opened Wrappers
  import opened Sums
  import opened Tables
  import opened StockLog
  import opened StockTransfer
  import opened ProductStock

  // ------------------------------------------------------------------
  // Single transfers.

  /** Both branches exist, are active and belong together. */
  predicate Connected(branches: map<Id, Branch>, source: Id, destination: Id) {
    && source in branches && branches[source].active && destination in branches && branches[destination].active
    && branches[source].organization == branches[destination].organization
  }

  predicate Live(products: map<Id, Product>, product: Id) { product in products && products[product].active }

  predicate Holds(stock: map<Shelf, int>, shelf: Shelf, units: int) { shelf in stock && units <= stock[shelf] }

  /** The request carries an id under which a transfer is already stored. */
  predicate IsStored(t: Tables, dto: TransferDto) {
    dto.transferId.Some? && FindTransfer(t.transfers, Given(dto.transferId.value)).Some?
  }

  /** An unknown branch is not found, an inactive one a bad request, source first; another organization is forbidden. */
  function RouteFault(branches: map<Id, Branch>, source: Id, destination: Id): Failure {
    if source !in branches then NotFound
    else if !branches[source].active then BadRequest
    else if destination !in branches then NotFound
    else if !branches[destination].active then BadRequest
    else Forbidden
  }

  lemma {:induction false} RouteIff(branches: map<Id, Branch>, source: Id, destination: Id)
    ensures CheckRoute(branches, source, destination).Ok? <==> Connected(branches, source, destination)
    ensures !Connected(branches, source, destination) ==> CheckRoute(branches, source, destination) == Err(RouteFault(branches, source, destination))
  {}

  /** A new transfer is accepted exactly when it moves something between two connected branches that the source holds. */
  lemma {:induction false} TransferIsAcceptedIff(t: Tables, dto: TransferDto)
    requires !IsStored(t, dto)
    ensures var (r, after) := TransferSpec(t, dto);
            && (r.Ok? <==>
                  && dto.quantity > 0 && dto.source != dto.destination && Connected(t.branches, dto.source, dto.destination)
                  && Live(t.products, dto.product) && Holds(t.inventory.stock, Shelf(dto.product, dto.source), dto.quantity))
            && (r.Err? ==>
                  && after == t
                  && r.failure == if dto.quantity <= 0 || dto.source == dto.destination then BadRequest
                                  else if !Connected(t.branches, dto.source, dto.destination) then RouteFault(t.branches, dto.source, dto.destination)
                                  else if dto.product !in t.products then NotFound else BadRequest)
  {
    RouteIff(t.branches, dto.source, dto.destination);
  }

  /**
   * The units leave one shelf and arrive on the other, nothing else moves; the log has an OUT and an
   * IN under the transfer's id, its row is stored, and both shelves are answered as they stand after it.
   */
  lemma {:induction false} TransferMovesItsUnits(t: Tables, dto: TransferDto)
    requires !IsStored(t, dto) && TransferSpec(t, dto).0.Ok?
    ensures var (r, after) := TransferSpec(t, dto);
            var from, to, q := Shelf(dto.product, dto.source), Shelf(dto.product, dto.destination), dto.quantity;
            var id := if dto.transferId.Some? then Given(dto.transferId.value) else Generated(|t.transfers|);
            var there, here := QuantityAt(t.inventory.stock, to), QuantityAt(t.inventory.stock, from);
            && after.inventory.stock == t.inventory.stock[from := here - q][to := there + q]
            && after.inventory.moves == t.inventory.moves + [Movement(from, TransferOut, q, here, here - q, TransferRef(id)),
                                                             Movement(to, TransferIn, q, there, there + q, TransferRef(id))]
            && after.transfers == t.transfers + [TransferRow(id, dto.product, dto.source, dto.destination, q)]
            && after == t.(inventory := after.inventory, transfers := after.transfers)
            && r.value == TransferResult(id, dto.source, dto.destination, dto.product, q, here - q, there + q)
  {}

  /** What is found under an id is a stored row with that id, the first of them. */
  lemma {:induction false} FoundUnderItsId(transfers: seq<TransferRow>, id: TransferId)
    ensures match FindTransfer(transfers, id)
            case Some(row) => row.id == id && row in transfers
            case None => forall k | 0 <= k < |transfers| :: transfers[k].id != id
  {
    if transfers != [] && transfers[0].id != id {
      FoundUnderItsId(transfers[1..], id);
    }
  }

  lemma {:induction false} FoundOnceStored(transfers: seq<TransferRow>, row: TransferRow)
    requires FindTransfer(transfers, row.id).None?
    ensures FindTransfer(transfers + [row], row.id) == Some(row)
  {
    if transfers == [] {
      assert transfers + [row] == [row];
    } else {
      assert (transfers + [row])[1..] == transfers[1..] + [row];
      FoundOnceStored(transfers[1..], row);
    }
  }

  /**
   * Repeating a stored transfer later changes nothing: with the same product, branches and quantity
   * it is answered with the stored row and what the two shelves hold by then, otherwise with 409.
   */
  lemma {:induction false} TransferReplayIsStable(t: Tables, first: TransferDto, later: Tables, again: TransferDto)
    requires first.transferId.Some? && again.transferId == first.transferId && !IsStored(t, first) && TransferSpec(t, first).0.Ok?
    requires FindTransfer(later.transfers, Given(first.transferId.value)) == FindTransfer(TransferSpec(t, first).1.transfers, Given(first.transferId.value))
    requires again.quantity > 0 && again.source != again.destination
    ensures TransferSpec(later, again).1 == later
    ensures var answer, stock := TransferSpec(later, again).0, later.inventory.stock;
            if again.product == first.product && again.source == first.source && again.destination == first.destination && again.quantity == first.quantity then
              answer == Ok(TransferResult(Given(first.transferId.value), first.source, first.destination, first.product, first.quantity,
                                          QuantityAt(stock, Shelf(first.product, first.source)), QuantityAt(stock, Shelf(first.product, first.destination))))
            else answer == Err(Conflict)
  {
    FoundOnceStored(t.transfers, TransferRowOf(t, first));
  }

  // ------------------------------------------------------------------
  // Batches.

  lemma {:induction false} MoveAllByTotals(inv: Inventory, source: Id, destination: Id, items: seq<Portion>, reference: Ref, s: Shelf)
    requires source != destination
    ensures QuantityAt(MoveAll(inv, source, destination, items, reference).stock, s)
         == QuantityAt(inv.stock, s) - (if s.branch == source then Wanted(items, s.product) else 0)
                                     + (if s.branch == destination then Wanted(items, s.product) else 0)
    decreases |items|
  {
    if items != [] {
      MoveAllByTotals(MoveOne(inv, source, destination, items[0], reference), source, destination, items[1..], reference, s);
    }
  }

  /** Every product named moves in full from one branch to the other, whatever lines name it, and nothing else does. */
  lemma {:induction false} BatchMovesItsTotals(t: Tables, dto: BatchDto, s: Shelf)
    requires BatchIdOf(t, dto) !in t.batches && BatchSpec(t, dto).0.Ok?
    ensures QuantityAt(BatchSpec(t, dto).1.inventory.stock, s)
         == QuantityAt(t.inventory.stock, s) - (if s.branch == dto.source then Wanted(dto.items, s.product) else 0)
                                             + (if s.branch == dto.destination then Wanted(dto.items, s.product) else 0)
  {
    var p := Normalize(dto.source, dto.destination, dto.items);
    NormalizedItems(dto.source, dto.destination, dto.items);
    MoveAllByTotals(t.inventory, p.source, p.destination, p.items, BatchRef(BatchIdOf(t, dto)), s);
  }

  lemma {:induction false} AuditRowsFollow(transfers: seq<TransferRow>, source: Id, destination: Id, items: seq<Portion>)
    ensures var rows := AuditRows(transfers, source, destination, items);
            && |rows| == |transfers| + |items| && transfers <= rows
            && forall i | 0 <= i < |items| ::
                 rows[|transfers| + i] == TransferRow(Generated(|transfers| + i), items[i].product, source, destination, items[i].quantity)
    decreases |items|
  {
    if items != [] {
      AuditRowsFollow(transfers + [TransferRow(Generated(|transfers|), items[0].product, source, destination, items[0].quantity)], source, destination, items[1..]);
      var rows := AuditRows(transfers, source, destination, items);
      assert rows[|transfers|] == TransferRow(Generated(|transfers|), items[0].product, source, destination, items[0].quantity);
      forall i | 0 < i < |items|
        ensures rows[|transfers| + i] == TransferRow(Generated(|transfers| + i), items[i].product, source, destination, items[i].quantity)
      {
        assert items[1..][i - 1] == items[i];
      }
    }
  }

  lemma {:induction false} SumQuantityIsSum(items: seq<Portion>)
    ensures SumQuantity(items) == Sum(items, (p: Portion) => p.quantity)
  {
    if items != [] {
      SumQuantityIsSum(items[1..]);
      SumCons(items[0], items[1..], (p: Portion) => p.quantity);
      assert items == [items[0]] + items[1..];
    }
  }

  /** The answer names the batch and its consolidated items with the stock before and after each; it is stored with them under the id, beside one audit row per item. */
  lemma {:induction false} BatchIsAnsweredAndStored(t: Tables, dto: BatchDto)
    requires BatchIdOf(t, dto) !in t.batches && BatchSpec(t, dto).0.Ok?
    ensures var (r, after) := BatchSpec(t, dto);
            var id := if dto.transferId.Some? then Given(dto.transferId.value) else Generated(|t.batches|);
            var items := Normalize(dto.source, dto.destination, dto.items).items;
            && r.value.id == id && r.value.source == dto.source && r.value.destination == dto.destination
            && r.value.totalItems == |items| == |r.value.items| && r.value.totalQuantity == Sum(items, (p: Portion) => p.quantity)
            && (forall i | 0 <= i < |items| ::
                  var here := QuantityAt(t.inventory.stock, Shelf(items[i].product, dto.source));
                  var there := QuantityAt(t.inventory.stock, Shelf(items[i].product, dto.destination));
                  r.value.items[i] == BatchItemResult(items[i].product, items[i].quantity, here, here - items[i].quantity, there, there + items[i].quantity))
            && after.batches == t.batches[id := BatchRow(BatchPayload(dto.source, dto.destination, items), r.value)]
            && |after.transfers| == |t.transfers| + |items|
            && after == t.(inventory := after.inventory, transfers := after.transfers, batches := after.batches)
  {
    var p := Normalize(dto.source, dto.destination, dto.items);
    NormalizedItems(dto.source, dto.destination, dto.items);
    ResultsReportTheStart(t.inventory, p.source, p.destination, p.items, BatchRef(BatchIdOf(t, dto)));
    SumQuantityIsSum(p.items);
    AuditRowsFollow(t.transfers, p.source, p.destination, p.items);
  }

  predicate AllLive(products: map<Id, Product>, items: seq<Portion>) {
    forall i | 0 <= i < |items| :: Live(products, items[i].product)
  }

  /** The first product that is not live decides. */
  function ProductFault(products: map<Id, Product>, items: seq<Portion>): Failure {
    if items == [] then BadRequest
    else if Live(products, items[0].product) then ProductFault(products, items[1..])
    else if items[0].product !in products then NotFound
    else BadRequest
  }

  lemma {:induction false} ProductsIff(products: map<Id, Product>, items: seq<Portion>)
    ensures CheckProducts(products, items).Ok? <==> AllLive(products, items)
    ensures !AllLive(products, items) ==> CheckProducts(products, items) == Err(ProductFault(products, items))
  {
    if items != [] {
      ProductsIff(products, items[1..]);
      assert forall i | 0 < i < |items| :: items[i] == items[1..][i - 1];
      assert forall i | 0 <= i < |items[1..]| :: items[1..][i] == items[i + 1];
    }
  }

  lemma {:induction false} NamedIsWanted(ps: seq<Portion>, product: Id)
    requires Positive(ps)
    ensures Wanted(ps, product) > 0 <==> exists i :: 0 <= i < |ps| && ps[i].product == product
  {
    WantedNonNegative(ps, product);
    if forall i | 0 <= i < |ps| :: ps[i].product != product {
      WantedAbsent(ps, product);
    }
  }

  lemma {:induction false} SortedWants(items: seq<Portion>, i: nat)
    requires Ascending(items) && i < |items|
    ensures Wanted(items, items[i].product) == items[i].quantity
  {
    if i == 0 {
      WantedAbsent(items[1..], items[0].product);
    } else {
      SortedWants(items[1..], i - 1);
    }
  }

  /** The consolidated items name the products the request names, each once with its total. */
  lemma {:induction false} ConsolidatedNames(source: Id, destination: Id, items: seq<Portion>)
    requires Positive(items)
    ensures var c := Normalize(source, destination, items).items;
            && (forall i | 0 <= i < |c| :: c[i].quantity == Wanted(items, c[i].product) && exists j :: 0 <= j < |items| && items[j].product == c[i].product)
            && (forall j | 0 <= j < |items| :: exists i :: 0 <= i < |c| && c[i].product == items[j].product)
  {
    var c := Normalize(source, destination, items).items;
    NormalizedItems(source, destination, items);
    forall i | 0 <= i < |c|
      ensures c[i].quantity == Wanted(items, c[i].product) && exists j :: 0 <= j < |items| && items[j].product == c[i].product
    {
      SortedWants(c, i);
      NamedIsWanted(items, c[i].product);
    }
    forall j | 0 <= j < |items| ensures exists i :: 0 <= i < |c| && c[i].product == items[j].product {
      NamedIsWanted(items, items[j].product);
      NamedIsWanted(c, items[j].product);
    }
  }

  /** The source holds the total of every product that is named. */
  predicate HoldsTotals(stock: map<Shelf, int>, source: Id, items: seq<Portion>) {
    forall i | 0 <= i < |items| :: Holds(stock, Shelf(items[i].product, source), Wanted(items, items[i].product))
  }

  lemma {:induction false} CoversTotals(stock: map<Shelf, int>, source: Id, destination: Id, items: seq<Portion>)
    requires Positive(items)
    ensures Covers(stock, source, Normalize(source, destination, items).items) <==> HoldsTotals(stock, source, items)
  {
    var c := Normalize(source, destination, items).items;
    ConsolidatedNames(source, destination, items);
    if Covers(stock, source, c) {
      forall j | 0 <= j < |items| ensures Holds(stock, Shelf(items[j].product, source), Wanted(items, items[j].product)) {
        var i :| 0 <= i < |c| && c[i].product == items[j].product;
      }
    }
  }

  lemma {:induction false} LiveAlike(products: map<Id, Product>, source: Id, destination: Id, items: seq<Portion>)
    requires Positive(items)
    ensures var c := Normalize(source, destination, items).items;
            AllLive(products, c) <==> AllLive(products, items)
  {
    var c := Normalize(source, destination, items).items;
    ConsolidatedNames(source, destination, items);
    if AllLive(products, c) {
      forall j | 0 <= j < |items| ensures Live(products, items[j].product) {
        var i :| 0 <= i < |c| && c[i].product == items[j].product;
      }
    }
  }

  /** A new batch is accepted exactly when it lists positive quantities of live products whose totals the source holds, between two connected branches. */
  lemma {:induction false} BatchIsAcceptedIff(t: Tables, dto: BatchDto)
    requires BatchIdOf(t, dto) !in t.batches
    ensures var (r, after) := BatchSpec(t, dto);
            && (r.Ok? <==>
                  && dto.source != dto.destination && dto.items != [] && Positive(dto.items) && Connected(t.branches, dto.source, dto.destination)
                  && AllLive(t.products, dto.items)
                  && HoldsTotals(t.inventory.stock, dto.source, dto.items))
            && (r.Err? ==>
                  && after == t
                  && r.failure == if dto.source == dto.destination || dto.items == [] || !Positive(dto.items) then BadRequest
                                  else if !Connected(t.branches, dto.source, dto.destination) then RouteFault(t.branches, dto.source, dto.destination)
                                  else if !AllLive(t.products, dto.items) then ProductFault(t.products, Normalize(dto.source, dto.destination, dto.items).items)
                                  else BadRequest)
  {
    RouteIff(t.branches, dto.source, dto.destination);
    if Positive(dto.items) {
      var c := Normalize(dto.source, dto.destination, dto.items).items;
      ProductsIff(t.products, c);
      LiveAlike(t.products, dto.source, dto.destination, dto.items);
      CoversTotals(t.inventory.stock, dto.source, dto.destination, dto.items);
    }
  }

  // ------------------------------------------------------------------
  // Receipts.

  /** The rounded quotient is the one nearest, and halves go up. */
  lemma {:induction false} HalvesGoUp(n: nat, d: nat)
    requires d > 0
    ensures 2 * (d * RoundedQuotient(n, d) - n) <= d < 2 * (d * (RoundedQuotient(n, d) + 1) - n)
  {
    var c := RoundedQuotient(n, d);
    assert 2 * n + d == (2 * d) * c + (2 * n + d) % (2 * d);
    assert (2 * d) * c == 2 * (d * c);
    assert d * (c + 1) == d * c + d;
  }

  /** A receipt is accepted exactly when it brings something at no negative price to a known product and branch. */
  lemma {:induction false} ReceiptIsAcceptedIff(t: Tables, dto: ReceiveDto)
    requires StockInvariant(t)
    ensures var (r, after) := ReceiveSpec(t, dto);
            && (r.Ok? <==>
                  && dto.quantity > 0 && dto.unitCost >= 0 && dto.product in t.products && dto.branch in t.branches
                  && (dto.newSalePrice.Some? ==> dto.newSalePrice.value >= 0))
            && (r.Err? ==>
                  && after == t
                  && r.failure == if dto.quantity <= 0 || dto.unitCost < 0 then BadRequest else if dto.product !in t.products then NotFound
                                  else if dto.newSalePrice.Some? && dto.newSalePrice.value < 0 then BadRequest else ForeignKeyViolation)
  {}

  /** It raises one shelf, logs it, and reprices one product: the average by value over all branches, rounded, the cost as paid, the sale price if sent. */
  lemma {:induction false} ReceiptIsBooked(t: Tables, dto: ReceiveDto)
    requires StockInvariant(t) && ReceiveSpec(t, dto).0.Ok?
    ensures var (r, after) := ReceiveSpec(t, dto);
            var shelf, old_ := Shelf(dto.product, dto.branch), t.products[dto.product];
            var q := QuantityAt(t.inventory.stock, shelf);
            && after.inventory.stock == t.inventory.stock[shelf := q + dto.quantity]
            && after.inventory.moves == t.inventory.moves + [Movement(shelf, In, dto.quantity, q, q + dto.quantity, NoRef)]
            && after == t.(inventory := after.inventory, products := after.products)
            && after.products == t.products[dto.product := after.products[dto.product]]
            && var p := after.products[dto.product];
               && p == old_.(averageCost := p.averageCost, purchasePrice := dto.unitCost,
                             salePrice := if dto.newSalePrice.Some? then dto.newSalePrice.value else old_.salePrice)
               && r.value == ReceiveResult(q + dto.quantity, p.averageCost, p.purchasePrice, p.salePrice)
  {}

  lemma {:induction false} ReceiptAverages(t: Tables, dto: ReceiveDto)
    requires StockInvariant(t) && ReceiveSpec(t, dto).0.Ok?
    ensures var held := Total(t.inventory.stock, dto.product);
            var units, value := held + dto.quantity, held * t.products[dto.product].averageCost + dto.quantity * dto.unitCost;
            var c := ReceiveSpec(t, dto).1.products[dto.product].averageCost;
            2 * (units * c - value) <= units < 2 * (units * (c + 1) - value)
  {
    FallbackUnreachable(t, dto);
    var held := Total(t.inventory.stock, dto.product);
    HalvesGoUp(held * t.products[dto.product].averageCost + dto.quantity * dto.unitCost, held + dto.quantity);
  }

  // ------------------------------------------------------------------
  // Adjustments.

  /** The shelf ends at the target, or at zero for a negative one; the log has the difference, and nothing when there is none. */
  lemma {:induction false} AdjustmentReachesItsTarget(t: Tables, product: Id, branch: Id, target: int)
    ensures var (r, after) := AdjustSpec(t, product, branch, target);
            var shelf := Shelf(product, branch);
            var q, goal := QuantityAt(t.inventory.stock, shelf), if target < 0 then 0 else target;
            && (r.Ok? <==> product in t.products && branch in t.branches)
            && (r.Err? ==> after == t && r.failure == ForeignKeyViolation)
            && (r.Ok? ==>
                  && r.value == goal && after == t.(inventory := after.inventory) && after.inventory.stock == t.inventory.stock[shelf := goal]
                  && after.inventory.moves == t.inventory.moves
                       + (if goal > q then [Movement(shelf, In, goal - q, q, goal, NoRef)]
                          else if goal < q then [Movement(shelf, Out, q - goal, q, goal, NoRef)]
                          else []))
  {
    assert t.inventory.moves + [] == t.inventory.moves;
  }

  /** The shelf ends at what it held plus the change, or at zero; the log has the change as it was asked for. */
  lemma {:induction false} ChangeIsAddedDownToZero(t: Tables, product: Id, branch: Id, delta: int)
    ensures var (r, after) := DeltaSpec(t, product, branch, delta);
            var shelf := Shelf(product, branch);
            var q := QuantityAt(t.inventory.stock, shelf);
            var goal := if q + delta < 0 then 0 else q + delta;
            && (r.Ok? <==> product in t.products && branch in t.branches)
            && (r.Err? ==> after == t && r.failure == ForeignKeyViolation)
            && (r.Ok? ==>
                  && r.value == goal && after == t.(inventory := after.inventory) && after.inventory.stock == t.inventory.stock[shelf := goal]
                  && after.inventory.moves == t.inventory.moves
                       + (if delta > 0 then [Movement(shelf, In, delta, q, goal, NoRef)]
                          else if delta < 0 then [Movement(shelf, Out, -delta, q, goal, NoRef)]
                          else []))
  {
    assert t.inventory.moves + [] == t.inventory.moves;
  }

  // ------------------------------------------------------------------
  // Opening stock.

  /** A new product is stored as it was sent; with a branch it starts there with its quantity, logged when positive. */
  lemma {:induction false} NewProductStartsWithItsQuantity(t: Tables, id: Id, product: Product, branch: Option<Id>, quantity: int)
    requires forall s | s in t.inventory.stock :: s.product in t.products
    ensures var (r, after) := CreateProductSpec(t, id, product, branch, quantity);
            && (r.Ok? <==>
                  && id !in t.products && product.salePrice >= 0 && product.purchasePrice >= 0 && product.averageCost >= 0
                  && (branch.Some? ==> branch.value in t.branches && quantity >= 0))
            && (r.Err? ==>
                  && after == t
                  && r.failure == if id in t.products then UniqueViolation
                                  else if product.salePrice < 0 || product.purchasePrice < 0 || product.averageCost < 0 then CheckViolation
                                  else if branch.value !in t.branches then ForeignKeyViolation else CheckViolation)
            && (r.Ok? ==>
                  && r.value == product && after.products == t.products[id := product]
                  && after == t.(products := after.products, inventory := after.inventory)
                  && after.inventory.stock == (if branch.Some? then t.inventory.stock[Shelf(id, branch.value) := quantity] else t.inventory.stock)
                  && after.inventory.moves == t.inventory.moves
                       + (if branch.Some? && quantity > 0 then [Movement(Shelf(id, branch.value), In, quantity, 0, quantity, NoRef)] else []))
  {
    assert t.inventory.moves + [] == t.inventory.moves;
  }

  predicate Importable(products: map<Id, Product>, items: seq<Portion>) {
    forall i | 0 <= i < |items| :: items[i].quantity > 0 && items[i].product in products
  }

  /** The first line that cannot be imported decides. */
  function ImportFault(products: map<Id, Product>, items: seq<Portion>): Failure {
    if items == [] then BadRequest
    else if items[0].quantity > 0 && items[0].product in products then ImportFault(products, items[1..])
    else if items[0].quantity > 0 then NotFound
    else BadRequest
  }

  lemma {:induction false} OpensAll(products: map<Id, Product>, inv: Inventory, branch: Id, items: seq<Portion>, s: Shelf)
    ensures var r := OpenAll(products, inv, branch, items);
            && (r.Ok? <==> Importable(products, items))
            && (r.Err? ==> r.failure == ImportFault(products, items))
            && (r.Ok? ==>
                  && QuantityAt(r.value.stock, s) == QuantityAt(inv.stock, s) + (if s.branch == branch then Wanted(items, s.product) else 0)
                  && LogsPortions(inv.moves, r.value.moves, branch, In, items, NoRef))
    decreases |items|
  {
    if items != [] && items[0].quantity > 0 && items[0].product in products {
      var shelf := Shelf(items[0].product, branch);
      var next := Post(inv, shelf, In, items[0].quantity, QuantityAt(inv.stock, shelf) + items[0].quantity, NoRef);
      OpensAll(products, next, branch, items[1..], s);
      assert forall i | 0 < i < |items| :: items[i] == items[1..][i - 1];
      assert forall i | 0 <= i < |items[1..]| :: items[1..][i] == items[i + 1];
      var r := OpenAll(products, inv, branch, items);
      if r.Ok? {
        LogsAnother(inv.moves, next.moves, r.value.moves, branch, In, items, NoRef);
      }
    }
  }

  /** An import goes to the branch it names, else to the main one, and adds every line, or nothing when one cannot be imported. */
  lemma {:induction false} ImportAddsEveryLine(t: Tables, branch: Option<Id>, main: Option<Id>, items: seq<Portion>, s: Shelf)
    ensures var (r, after) := OpeningSpec(t, branch, main, items);
            var to := if branch.Some? then branch else main;
            && (r.Ok? <==> items != [] && to.Some? && to.value in t.branches && Importable(t.products, items))
            && (r.Err? ==>
                  && after == t
                  && r.failure == if items == [] || to == None then BadRequest else if to.value !in t.branches then NotFound else ImportFault(t.products, items))
            && (r.Ok? ==>
                  && r.value == |items| && after == t.(inventory := after.inventory)
                  && QuantityAt(after.inventory.stock, s) == QuantityAt(t.inventory.stock, s) + (if s.branch == to.value then Wanted(items, s.product) else 0)
                  && LogsPortions(t.inventory.moves, after.inventory.moves, to.value, In, items, NoRef))
  {
    var to := if branch.Some? then branch else main;
    if to.Some? {
      OpensAll(t.products, t.inventory, to.value, items, s);
    }
  }
}
