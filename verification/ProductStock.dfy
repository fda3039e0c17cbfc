/** Receiving, adjusting and opening stock, and the weighted average cost. */
module ProductStock {
  import opened Wrappers
  import opened Tables
  import opened StockLog
  import opened StockTransfer

  // ------------------------------------------------------------------
  // Weighted average cost in whole rupees.

  /** Math.round(n / d) for a non-negative quotient: halves round up. */
  function RoundedQuotient(n: nat, d: nat): nat
    requires d > 0
  {
    (2 * n + d) / (2 * d)
  }

  function AverageCost(oldQuantity: nat, oldCost: nat, received: nat, unitCost: nat): nat {
    var denominator := oldQuantity + received;
    if denominator > 0 then RoundedQuotient(oldQuantity * oldCost + received * unitCost, denominator) else unitCost
  }

  /** Rounding is off by at most half of the divisor. */
  lemma {:induction false} RoundingError(n: nat, d: nat)
    requires d > 0
    ensures -(d as int) <= 2 * (d * RoundedQuotient(n, d) - n) <= d
  {
    var c := RoundedQuotient(n, d);
    assert 2 * n + d == (2 * d) * c + (2 * n + d) % (2 * d);
    assert (2 * d) * c == 2 * (d * c);
  }

  lemma {:induction false} NextProduct(d: nat, a: int, b: int)
    requires a < b
    ensures d * a + d <= d * b
  {
    assert d * (a + 1) == d * a + d;
    assert d * (b - (a + 1)) >= 0;
    assert d * (b - (a + 1)) == d * b - d * (a + 1);
  }

  /** A rounded quotient between two whole bounds stays between them. */
  lemma {:induction false} RoundingStaysWithin(n: nat, d: nat, lo: nat, hi: nat)
    requires d > 0 && d * lo <= n <= d * hi
    ensures lo <= RoundedQuotient(n, d) <= hi
  {
    RoundingError(n, d);
    ErrorKeepsBounds(n, d, RoundedQuotient(n, d), lo, hi);
  }

  lemma {:induction false} ErrorKeepsBounds(n: nat, d: nat, c: nat, lo: nat, hi: nat)
    requires d > 0 && d * lo <= n <= d * hi
    requires -(d as int) <= 2 * (d * c - n) <= d
    ensures lo <= c <= hi
  {
    if c < lo {
      NextProduct(d, c, lo);
    } else if c > hi {
      NextProduct(d, hi, c);
    }
  }

  lemma {:induction false} Scaled(k: nat, x: nat, y: nat)
    requires x <= y
    ensures k * x <= k * y
  {}

  lemma {:induction false} Distributes(a: nat, b: nat, x: nat)
    ensures (a + b) * x == a * x + b * x
  {}

  /** The new average lies between the old cost and the new unit cost, and values the stock to within half a rupee per unit. */
  lemma {:induction false} AverageCostIsSound(oldQuantity: nat, oldCost: nat, received: nat, unitCost: nat)
    requires received > 0
    ensures var c := AverageCost(oldQuantity, oldCost, received, unitCost);
            && Min(oldCost, unitCost) <= c <= Max(oldCost, unitCost)
            && (oldQuantity == 0 ==> c == unitCost)
            && var error := (oldQuantity + received) * c - (oldQuantity * oldCost + received * unitCost);
               -(oldQuantity + received) <= 2 * error <= oldQuantity + received
  {
    var d, n := oldQuantity + received, oldQuantity * oldCost + received * unitCost;
    var lo, hi := Min(oldCost, unitCost), Max(oldCost, unitCost);
    Scaled(oldQuantity, lo, oldCost);
    Scaled(oldQuantity, oldCost, hi);
    Scaled(received, lo, unitCost);
    Scaled(received, unitCost, hi);
    Distributes(oldQuantity, received, lo);
    Distributes(oldQuantity, received, hi);
    RoundingStaysWithin(n, d, lo, hi);
    RoundingError(n, d);
    if oldQuantity == 0 {
      RoundingStaysWithin(n, d, unitCost, unitCost);
    }
  }

  // ------------------------------------------------------------------
  // Transactions.

  /** Stock rows satisfy the log, and belong to products that exist. */
  ghost predicate StockInvariant(t: Tables) {
    && Faithful(t.inventory)
    && (forall s | s in t.inventory.stock :: s.product in t.products)
    && (forall p | p in t.products :: t.products[p].averageCost >= 0 && t.products[p].purchasePrice >= 0 && t.products[p].salePrice >= 0)
  }

  datatype ReceiveDto = ReceiveDto(product: Id, branch: Id, quantity: int, unitCost: Money, newSalePrice: Option<Money>)
  datatype ReceiveResult = ReceiveResult(quantity: int, averageCost: Money, purchasePrice: Money, salePrice: Money)

  ghost function ReceiveSpec(t: Tables, dto: ReceiveDto): (Result<ReceiveResult>, Tables)
    requires StockInvariant(t)
  {
    if dto.quantity <= 0 || dto.unitCost < 0 then (Err(BadRequest), t)
    else if dto.product !in t.products then (Err(NotFound), t)
    else if dto.newSalePrice.Some? && dto.newSalePrice.value < 0 then (Err(BadRequest), t)
    else if dto.branch !in t.branches then (Err(ForeignKeyViolation), t)
    else
      var product := t.products[dto.product];
      TotalNonNegative(t.inventory, dto.product);
      var cost := AverageCost(Total(t.inventory.stock, dto.product), product.averageCost, dto.quantity, dto.unitCost);
      var salePrice := if dto.newSalePrice.Some? then dto.newSalePrice.value else product.salePrice;
      var shelf := Shelf(dto.product, dto.branch);
      var quantity := QuantityAt(t.inventory.stock, shelf) + dto.quantity;
      (Ok(ReceiveResult(quantity, cost, dto.unitCost, salePrice)),
       t.(inventory := Post(t.inventory, shelf, In, dto.quantity, quantity, NoRef),
          products := t.products[dto.product := product.(averageCost := cost, purchasePrice := dto.unitCost, salePrice := salePrice)]))
  }

  lemma {:induction false} TotalOfNonNegatives(stock: map<Shelf, int>, product: Id)
    requires forall s | s in stock :: stock[s] >= 0
    ensures Total(stock, product) >= 0
    decreases |stock|
  {
    if stock != map[] {
      var s :| s in stock && Total(stock, product) == (if s.product == product then stock[s] else 0) + Total(stock - {s}, product);
      TotalOfNonNegatives(stock - {s}, product);
    }
  }

  lemma {:induction false} TotalNonNegative(inv: Inventory, product: Id)
    requires Faithful(inv)
    ensures Total(inv.stock, product) >= 0
  {
    TotalOfNonNegatives(inv.stock, product);
  }

  /** SELECT SUM(quantity) FROM stock WHERE product_id = product. */
  method SumStock(db: Database, product: Id) returns (total: int)
    ensures total == Total(db.inventory.stock, product)
  {
    var rest := db.inventory.stock;
    total := 0;
    while rest != map[]
      invariant total + Total(rest, product) == Total(db.inventory.stock, product)
      decreases |rest|
    {
      var s :| s in rest;
      TotalRemove(rest, s, product);
      total := total + (if s.product == product then rest[s] else 0);
      rest := rest - {s};
    }
  }

  method ReceiveStock(db: Database, dto: ReceiveDto) returns (r: Result<ReceiveResult>)
    requires StockInvariant(db.Contents())
    modifies db
    ensures (r, db.Contents()) == ReceiveSpec(old(db.Contents()), dto)
  {
    if dto.quantity <= 0 {
      return Err(BadRequest);
    }
    if dto.unitCost < 0 {
      return Err(BadRequest);
    }
    if dto.product !in db.products {
      return Err(NotFound);
    }
    var product := db.products[dto.product];
    var salePrice := product.salePrice;
    if dto.newSalePrice.Some? {
      if dto.newSalePrice.value < 0 {
        return Err(BadRequest);
      }
      salePrice := dto.newSalePrice.value;
    }
    if dto.branch !in db.branches {
      return Err(ForeignKeyViolation);
    }
    var shelf := Shelf(dto.product, dto.branch);
    var before := QuantityAt(db.inventory.stock, shelf);
    var oldQuantity := SumStock(db, dto.product);
    TotalNonNegative(db.inventory, dto.product);
    var cost := AverageCost(oldQuantity, product.averageCost, dto.quantity, dto.unitCost);
    db.products := db.products[dto.product := product.(averageCost := cost, purchasePrice := dto.unitCost, salePrice := salePrice)];
    var quantity := before + dto.quantity;
    db.inventory := db.inventory.(stock := db.inventory.stock[shelf := quantity]);
    db.inventory := db.inventory.(moves := db.inventory.moves + [Movement(shelf, In, dto.quantity, before, quantity, NoRef)]);
    return Ok(ReceiveResult(quantity, cost, dto.unitCost, salePrice));
  }

  // ---- adjusting ----------------------------------------------------

  /** Sets a shelf to a target, logging the difference when there is one. */
  function AdjustSpec(t: Tables, product: Id, branch: Id, target: int): (Result<int>, Tables) {
    var shelf, goal := Shelf(product, branch), Max(0, target);
    var diff := goal - QuantityAt(t.inventory.stock, shelf);
    if product !in t.products || branch !in t.branches then (Err(ForeignKeyViolation), t)
    else if diff == 0 then (Ok(goal), t.(inventory := t.inventory.(stock := t.inventory.stock[shelf := goal])))
    else if diff > 0 then (Ok(goal), t.(inventory := Post(t.inventory, shelf, In, diff, goal, NoRef)))
    else (Ok(goal), t.(inventory := Post(t.inventory, shelf, Out, -diff, goal, NoRef)))
  }

  method AdjustStock(db: Database, product: Id, branch: Id, target: int) returns (r: Result<int>)
    modifies db
    ensures (r, db.Contents()) == AdjustSpec(old(db.Contents()), product, branch, target)
  {
    var shelf, goal := Shelf(product, branch), Max(0, target);
    var before := QuantityAt(db.inventory.stock, shelf);
    var diff := goal - before;
    if product !in db.products || branch !in db.branches {
      return Err(ForeignKeyViolation);
    }
    db.inventory := db.inventory.(stock := db.inventory.stock[shelf := goal]);
    if diff != 0 {
      var kind, units := if diff > 0 then In else Out, if diff > 0 then diff else -diff;
      db.inventory := db.inventory.(moves := db.inventory.moves + [Movement(shelf, kind, units, before, goal, NoRef)]);
    }
    return Ok(goal);
  }

  /** Adds a signed delta, clamped at zero; the log keeps the unclamped quantity. */
  function DeltaSpec(t: Tables, product: Id, branch: Id, delta: int): (Result<int>, Tables) {
    var shelf := Shelf(product, branch);
    var resulting := Max(0, QuantityAt(t.inventory.stock, shelf) + delta);
    if product !in t.products || branch !in t.branches then (Err(ForeignKeyViolation), t)
    else if delta == 0 then (Ok(resulting), t.(inventory := t.inventory.(stock := t.inventory.stock[shelf := resulting])))
    else if delta > 0 then (Ok(resulting), t.(inventory := Post(t.inventory, shelf, In, delta, resulting, NoRef)))
    else (Ok(resulting), t.(inventory := Post(t.inventory, shelf, Out, -delta, resulting, NoRef)))
  }

  method DeltaStock(db: Database, product: Id, branch: Id, delta: int) returns (r: Result<int>)
    modifies db
    ensures (r, db.Contents()) == DeltaSpec(old(db.Contents()), product, branch, delta)
  {
    var shelf := Shelf(product, branch);
    var before := QuantityAt(db.inventory.stock, shelf);
    var resulting := Max(0, before + delta);
    if product !in db.products || branch !in db.branches {
      return Err(ForeignKeyViolation);
    }
    var written := if shelf in db.inventory.stock then Max(0, db.inventory.stock[shelf] + delta) else resulting;
    db.inventory := db.inventory.(stock := db.inventory.stock[shelf := written]);
    if delta != 0 {
      var kind, units := if delta > 0 then In else Out, if delta > 0 then delta else -delta;
      db.inventory := db.inventory.(moves := db.inventory.moves + [Movement(shelf, kind, units, before, resulting, NoRef)]);
    }
    return Ok(resulting);
  }

  // ---- opening stock ------------------------------------------------

  /** A new product, with a stock row at one branch and an opening movement when the quantity is positive. */
  function CreateProductSpec(t: Tables, id: Id, product: Product, branch: Option<Id>, quantity: int): (Result<Product>, Tables) {
    var created := t.(products := t.products[id := product]);
    if id in t.products then (Err(UniqueViolation), t)
    else if product.salePrice < 0 || product.purchasePrice < 0 || product.averageCost < 0 then (Err(CheckViolation), t)
    else if branch == None then (Ok(product), created)
    else
      var shelf := Shelf(id, branch.value);
      if branch.value !in t.branches then (Err(ForeignKeyViolation), t)
      else if shelf !in t.inventory.stock && quantity < 0 then (Err(CheckViolation), t)
      else
        var stock := if shelf in t.inventory.stock then t.inventory.stock else t.inventory.stock[shelf := quantity];
        var moves := if quantity > 0 then t.inventory.moves + [Movement(shelf, In, quantity, 0, quantity, NoRef)] else t.inventory.moves;
        (Ok(product), created.(inventory := Inventory(stock, moves)))
  }

  method CreateProductWithInitialStock(db: Database, id: Id, product: Product, branch: Option<Id>, quantity: int) returns (r: Result<Product>)
    modifies db
    ensures (r, db.Contents()) == CreateProductSpec(old(db.Contents()), id, product, branch, quantity)
  {
    var begin := db.Contents();
    if id in db.products {
      return Err(UniqueViolation);
    }
    if product.salePrice < 0 || product.purchasePrice < 0 || product.averageCost < 0 {
      return Err(CheckViolation);
    }
    db.products := db.products[id := product];
    if branch.Some? {
      var shelf := Shelf(id, branch.value);
      if branch.value !in db.branches {
        db.Rollback(begin);
        return Err(ForeignKeyViolation);
      }
      if shelf !in db.inventory.stock {
        if quantity < 0 {
          db.Rollback(begin);
          return Err(CheckViolation);
        }
        db.inventory := db.inventory.(stock := db.inventory.stock[shelf := quantity]);
      }
      if quantity > 0 {
        db.inventory := db.inventory.(moves := db.inventory.moves + [Movement(shelf, In, quantity, 0, quantity, NoRef)]);
      }
    }
    return Ok(product);
  }

  /** The loop of an opening-stock import over what the tables hold so far. */
  function OpenAll(products: map<Id, Product>, inv: Inventory, branch: Id, items: seq<Portion>): Result<Inventory>
    decreases |items|
  {
    if items == [] then Ok(inv)
    else if items[0].quantity <= 0 then Err(BadRequest)
    else if items[0].product !in products then Err(NotFound)
    else
      var shelf := Shelf(items[0].product, branch);
      var next := Post(inv, shelf, In, items[0].quantity, QuantityAt(inv.stock, shelf) + items[0].quantity, NoRef);
      OpenAll(products, next, branch, items[1..])
  }

  /** main is the active MAIN branch, used when the request names none. */
  function OpeningSpec(t: Tables, branch: Option<Id>, main: Option<Id>, items: seq<Portion>): (Result<nat>, Tables) {
    var target := if branch.Some? then branch else main;
    if items == [] then (Err(BadRequest), t)
    else if target.None? then (Err(BadRequest), t)
    else if target.value !in t.branches then (Err(NotFound), t)
    else
      match OpenAll(t.products, t.inventory, target.value, items)
      case Err(e) => (Err(e), t)
      case Ok(inv) => (Ok(|items|), t.(inventory := inv))
  }

  method ImportOpeningStock(db: Database, branch: Option<Id>, main: Option<Id>, items: seq<Portion>) returns (r: Result<nat>)
    modifies db
    ensures (r, db.Contents()) == OpeningSpec(old(db.Contents()), branch, main, items)
  {
    if items == [] {
      return Err(BadRequest);
    }
    var begin := db.Contents();
    var target := if branch.Some? then branch else main;
    if target.None? {
      return Err(BadRequest);
    }
    if target.value !in db.branches {
      return Err(NotFound);
    }
    for i := 0 to |items|
      invariant db.Contents() == begin.(inventory := db.inventory)
      invariant OpenAll(begin.products, db.inventory, target.value, items[i..])
             == OpenAll(begin.products, begin.inventory, target.value, items)
    {
      if items[i].quantity <= 0 {
        db.Rollback(begin);
        return Err(BadRequest);
      }
      if items[i].product !in db.products {
        db.Rollback(begin);
        return Err(NotFound);
      }
      var shelf := Shelf(items[i].product, target.value);
      var before := QuantityAt(db.inventory.stock, shelf);
      var resulting := before + items[i].quantity;
      db.inventory := db.inventory.(stock := db.inventory.stock[shelf := resulting]);
      db.inventory := db.inventory.(moves := db.inventory.moves + [Movement(shelf, In, items[i].quantity, before, resulting, NoRef)]);
    }
    return Ok(|items|);
  }

  // ------------------------------------------------------------------
  // What these transactions keep.

  lemma {:induction false} ReceiveKeepsStock(t: Tables, dto: ReceiveDto)
    requires StockInvariant(t)
    ensures StockInvariant(ReceiveSpec(t, dto).1)
  {
    if ReceiveSpec(t, dto).0.Ok? {
      var shelf := Shelf(dto.product, dto.branch);
      FaithfulIsNonNegative(t.inventory, shelf);
      InOrOutKeepsFaithful(t.inventory, shelf, In, dto.quantity, QuantityAt(t.inventory.stock, shelf) + dto.quantity, NoRef);
    }
  }

  lemma {:induction false} AdjustKeepsStock(t: Tables, product: Id, branch: Id, target: int)
    requires StockInvariant(t)
    ensures StockInvariant(AdjustSpec(t, product, branch, target).1)
  {
    var shelf, goal := Shelf(product, branch), Max(0, target);
    var diff := goal - QuantityAt(t.inventory.stock, shelf);
    if AdjustSpec(t, product, branch, target).0.Ok? {
      if diff == 0 {
        SameQuantityKeepsFaithful(t.inventory, shelf, goal);
      } else {
        PostKeepsFaithful(t.inventory, shelf, if diff > 0 then In else Out, if diff > 0 then diff else -diff, goal, NoRef);
      }
    }
  }

  /** Rewriting a shelf with the quantity it reads as, possibly creating its row. */
  lemma {:induction false} SameQuantityKeepsFaithful(inv: Inventory, shelf: Shelf, q: int)
    requires Faithful(inv) && q == QuantityAt(inv.stock, shelf)
    ensures Faithful(inv.(stock := inv.stock[shelf := q]))
  {
    if shelf in inv.stock {
      assert inv.stock[shelf := q] == inv.stock;
    } else {
      EmptyRowKeepsFaithful(inv, shelf);
    }
  }

  lemma {:induction false} DeltaKeepsStock(t: Tables, product: Id, branch: Id, delta: int)
    requires StockInvariant(t)
    ensures StockInvariant(DeltaSpec(t, product, branch, delta).1)
  {
    var shelf := Shelf(product, branch);
    FaithfulIsNonNegative(t.inventory, shelf);
    if DeltaSpec(t, product, branch, delta).0.Ok? {
      if delta == 0 {
        SameQuantityKeepsFaithful(t.inventory, shelf, QuantityAt(t.inventory.stock, shelf));
      } else {
        var resulting := Max(0, QuantityAt(t.inventory.stock, shelf) + delta);
        PostKeepsFaithful(t.inventory, shelf, if delta > 0 then In else Out, if delta > 0 then delta else -delta, resulting, NoRef);
      }
    }
  }

  lemma {:induction false} CreateKeepsStock(t: Tables, id: Id, product: Product, branch: Option<Id>, quantity: int)
    requires StockInvariant(t)
    ensures StockInvariant(CreateProductSpec(t, id, product, branch, quantity).1)
  {
    if CreateProductSpec(t, id, product, branch, quantity).0.Ok? && branch.Some? {
      var shelf := Shelf(id, branch.value);
      assert shelf !in t.inventory.stock;
      if quantity > 0 {
        InOrOutKeepsFaithful(t.inventory, shelf, In, quantity, quantity, NoRef);
      } else {
        EmptyRowKeepsFaithful(t.inventory, shelf);
      }
    }
  }

  lemma {:induction false} OpenAllKeepsFaithful(products: map<Id, Product>, inv: Inventory, branch: Id, items: seq<Portion>)
    requires Faithful(inv) && (forall s | s in inv.stock :: s.product in products) && OpenAll(products, inv, branch, items).Ok?
    ensures var after := OpenAll(products, inv, branch, items).value;
            Faithful(after) && forall s | s in after.stock :: s.product in products
    decreases |items|
  {
    if items != [] {
      var shelf := Shelf(items[0].product, branch);
      var resulting := QuantityAt(inv.stock, shelf) + items[0].quantity;
      FaithfulIsNonNegative(inv, shelf);
      InOrOutKeepsFaithful(inv, shelf, In, items[0].quantity, resulting, NoRef);
      OpenAllKeepsFaithful(products, Post(inv, shelf, In, items[0].quantity, resulting, NoRef), branch, items[1..]);
    }
  }

  lemma {:induction false} OpeningKeepsStock(t: Tables, branch: Option<Id>, main: Option<Id>, items: seq<Portion>)
    requires StockInvariant(t)
    ensures StockInvariant(OpeningSpec(t, branch, main, items).1)
  {
    if OpeningSpec(t, branch, main, items).0.Ok? {
      OpenAllKeepsFaithful(t.products, t.inventory, (if branch.Some? then branch else main).value, items);
    }
  }

  // ------------------------------------------------------------------
  // Valuation over whole runs.

  datatype CostEvent = Receive(dto: ReceiveDto) | MoveSingle(single: TransferDto) | MoveBatch(batch: BatchDto)

  ghost function CostStep(t: Tables, e: CostEvent): Tables
    requires StockInvariant(t)
    ensures StockInvariant(CostStep(t, e))
  {
    match e
    case Receive(dto) => ReceiveKeepsStock(t, dto); ReceiveSpec(t, dto).1
    case MoveSingle(dto) => TransferKeepsStock(t, dto); TransferSpec(t, dto).1
    case MoveBatch(dto) => BatchKeepsStock(t, dto); BatchSpec(t, dto).1
  }

  lemma {:induction false} TransferKeepsStock(t: Tables, dto: TransferDto)
    requires StockInvariant(t)
    ensures StockInvariant(TransferSpec(t, dto).1)
  {
    TransferKeepsFaithful(t, dto);
  }

  lemma {:induction false} MoveAllShelves(inv: Inventory, source: Id, destination: Id, items: seq<Portion>, reference: Ref, products: map<Id, Product>)
    requires CheckProducts(products, items).Ok? && forall s | s in inv.stock :: s.product in products
    ensures forall s | s in MoveAll(inv, source, destination, items, reference).stock :: s.product in products
    decreases |items|
  {
    if items != [] {
      MoveAllShelves(MoveOne(inv, source, destination, items[0], reference), source, destination, items[1..], reference, products);
    }
  }

  lemma {:induction false} BatchKeepsStock(t: Tables, dto: BatchDto)
    requires StockInvariant(t)
    ensures StockInvariant(BatchSpec(t, dto).1)
  {
    BatchKeepsFaithful(t, dto);
    var p := Normalize(dto.source, dto.destination, dto.items);
    if CheckBatch(t, p).Ok? {
      MoveAllShelves(t.inventory, p.source, p.destination, p.items, BatchRef(BatchIdOf(t, dto)), t.products);
    }
  }

  ghost function Valuation(t: Tables, product: Id): int {
    if product in t.products then Total(t.inventory.stock, product) * t.products[product].averageCost else 0
  }

  /** What an accepted receipt of the product adds at cost, and the total it leaves. */
  ghost function ReceivedValue(t: Tables, e: CostEvent, product: Id): int
    requires StockInvariant(t)
  {
    if e.Receive? && e.dto.product == product && ReceiveSpec(t, e.dto).0.Ok? then e.dto.quantity * e.dto.unitCost else 0
  }

  ghost function RunningTotal(t: Tables, e: CostEvent, product: Id): int
    requires StockInvariant(t)
  {
    if e.Receive? && e.dto.product == product && ReceiveSpec(t, e.dto).0.Ok? then Total(CostStep(t, e).inventory.stock, product) else 0
  }

  ghost function CostRun(t: Tables, events: seq<CostEvent>): Tables
    requires StockInvariant(t)
    decreases |events|
  {
    if events == [] then t else CostRun(CostStep(t, events[0]), events[1..])
  }

  ghost function ValueIn(t: Tables, events: seq<CostEvent>, product: Id): int
    requires StockInvariant(t)
    decreases |events|
  {
    if events == [] then 0 else ReceivedValue(t, events[0], product) + ValueIn(CostStep(t, events[0]), events[1..], product)
  }

  ghost function TotalsSum(t: Tables, events: seq<CostEvent>, product: Id): int
    requires StockInvariant(t)
    decreases |events|
  {
    if events == [] then 0 else RunningTotal(t, events[0], product) + TotalsSum(CostStep(t, events[0]), events[1..], product)
  }

  lemma {:induction false} ReceiveDrift(t: Tables, dto: ReceiveDto)
    requires StockInvariant(t) && ReceiveSpec(t, dto).0.Ok?
    ensures var after := ReceiveSpec(t, dto).1;
            var total := Total(after.inventory.stock, dto.product);
            && total == Total(t.inventory.stock, dto.product) + dto.quantity
            && -total <= 2 * (Valuation(after, dto.product) - Valuation(t, dto.product) - dto.quantity * dto.unitCost) <= total
  {
    var shelf := Shelf(dto.product, dto.branch);
    TotalUpdate(t.inventory.stock, shelf, QuantityAt(t.inventory.stock, shelf) + dto.quantity, dto.product);
    TotalNonNegative(t.inventory, dto.product);
    AverageCostIsSound(Total(t.inventory.stock, dto.product), t.products[dto.product].averageCost, dto.quantity, dto.unitCost);
  }

  lemma {:induction false} ReceiveElsewhere(t: Tables, dto: ReceiveDto, product: Id)
    requires StockInvariant(t) && dto.product != product
    ensures Valuation(ReceiveSpec(t, dto).1, product) == Valuation(t, product)
  {
    var shelf := Shelf(dto.product, dto.branch);
    TotalUpdate(t.inventory.stock, shelf, QuantityAt(t.inventory.stock, shelf) + dto.quantity, product);
  }

  /** One step: transfers leave the valuation alone, a receipt is off by at most half its new total. */
  lemma {:induction false} StepDrift(t: Tables, e: CostEvent, product: Id)
    requires StockInvariant(t)
    ensures var drift := Valuation(CostStep(t, e), product) - Valuation(t, product) - ReceivedValue(t, e, product);
            -RunningTotal(t, e, product) <= 2 * drift <= RunningTotal(t, e, product)
  {
    match e
    case MoveSingle(dto) => TransferConservesStock(t, dto, product);
    case MoveBatch(dto) => BatchConservesStock(t, dto, product);
    case Receive(dto) =>
      if dto.product != product {
        ReceiveElsewhere(t, dto, product);
      } else if ReceiveSpec(t, dto).0.Ok? {
        ReceiveDrift(t, dto);
      }
  }

  /**
   * Over any run of receipts and transfers, the valuation of a product drifts from what was
   * paid for it by at most half the sum of the totals standing after each of its receipts.
   */
  lemma {:induction false} ValuationDrift(t: Tables, events: seq<CostEvent>, product: Id)
    requires StockInvariant(t)
    ensures var drift := Valuation(CostRun(t, events), product) - Valuation(t, product) - ValueIn(t, events, product);
            -TotalsSum(t, events, product) <= 2 * drift <= TotalsSum(t, events, product)
    decreases |events|
  {
    if events != [] {
      StepDrift(t, events[0], product);
      ValuationDrift(CostStep(t, events[0]), events[1..], product);
    }
  }

  /** The division is never by zero, so the fallback to the unit cost is never what decides. */
  lemma {:induction false} FallbackUnreachable(t: Tables, dto: ReceiveDto)
    requires StockInvariant(t) && ReceiveSpec(t, dto).0.Ok?
    ensures var old_ := Total(t.inventory.stock, dto.product);
            && old_ >= 0 && old_ + dto.quantity > 0
            && ReceiveSpec(t, dto).0.value.averageCost
               == RoundedQuotient(old_ * t.products[dto.product].averageCost + dto.quantity * dto.unitCost, old_ + dto.quantity)
  {
    TotalNonNegative(t.inventory, dto.product);
  }
}
