/** Single and batch stock transfers between branches. */
module StockTransfer {
  import opened Wrappers
  import opened Tables
  import opened StockLog

  // ------------------------------------------------------------------
  // Consolidating and fingerprinting a batch.

  /** Map.set on an insertion-ordered JavaScript Map of totals. */
  function Upsert(entries: seq<Portion>, item: Portion): seq<Portion> {
    if entries == [] then [item]
    else if entries[0].product == item.product then [Portion(item.product, entries[0].quantity + item.quantity)] + entries[1..]
    else [entries[0]] + Upsert(entries[1..], item)
  }

  function Consolidate(entries: seq<Portion>, items: seq<Portion>): seq<Portion>
    decreases |items|
  {
    if items == [] then entries else Consolidate(Upsert(entries, items[0]), items[1..])
  }

  /** Array.sort by product id, which is the same total order everywhere. */
  function SortInsert(item: Portion, sorted: seq<Portion>): seq<Portion> {
    if sorted == [] || item.product <= sorted[0].product then [item] + sorted
    else [sorted[0]] + SortInsert(item, sorted[1..])
  }

  function SortByProduct(entries: seq<Portion>): seq<Portion> {
    if entries == [] then [] else SortInsert(entries[0], SortByProduct(entries[1..]))
  }

  function Normalize(source: Id, destination: Id, items: seq<Portion>): BatchPayload {
    BatchPayload(source, destination, SortByProduct(Consolidate([], items)))
  }

  predicate DistinctProducts(items: seq<Portion>) {
    forall i, j | 0 <= i < j < |items| :: items[i].product != items[j].product
  }

  predicate Ascending(items: seq<Portion>) {
    forall i, j | 0 <= i < j < |items| :: items[i].product < items[j].product
  }

  predicate Mentions(items: seq<Portion>, product: Id) {
    exists i :: 0 <= i < |items| && items[i].product == product
  }

  lemma {:induction false} UpsertKeeps(entries: seq<Portion>, item: Portion)
    requires DistinctProducts(entries) && Positive(entries) && item.quantity > 0
    ensures var r := Upsert(entries, item);
            && DistinctProducts(r) && Positive(r)
            && (forall p :: Wanted(r, p) == Wanted(entries, p) + (if item.product == p then item.quantity else 0))
            && (forall p :: Mentions(r, p) ==> Mentions(entries, p) || p == item.product)
  {
    var r := Upsert(entries, item);
    if entries == [] {
      assert r[1..] == [];
    } else if entries[0].product == item.product {
      assert r[1..] == entries[1..];
      assert forall i | 0 <= i < |r| :: r[i].product == entries[i].product;
    } else {
      var tail := entries[1..];
      UpsertKeeps(tail, item);
      assert r[1..] == Upsert(tail, item);
      forall i | 0 <= i < |r[1..]| ensures r[1..][i].product != r[0].product {
        assert Mentions(r[1..], r[1..][i].product);
        if Mentions(tail, r[1..][i].product) {
          var k :| 0 <= k < |tail| && tail[k].product == r[1..][i].product;
          assert entries[k + 1] == tail[k];
        }
      }
      DistinctCons(r[0], r[1..]);
      forall p | Mentions(r, p) ensures Mentions(entries, p) || p == item.product {
        var i :| 0 <= i < |r| && r[i].product == p;
        if i == 0 {
          assert entries[0].product == p;
        } else {
          assert Mentions(r[1..], p) by { assert r[1..][i - 1].product == p; }
          if Mentions(tail, p) {
            var k :| 0 <= k < |tail| && tail[k].product == p;
            assert entries[k + 1].product == p;
          }
        }
      }
    }
  }

  lemma {:induction false} DistinctCons(head: Portion, tail: seq<Portion>)
    requires DistinctProducts(tail) && forall i | 0 <= i < |tail| :: tail[i].product != head.product
    ensures DistinctProducts([head] + tail)
  {}

  lemma {:induction false} ConsolidateKeeps(entries: seq<Portion>, items: seq<Portion>)
    requires DistinctProducts(entries) && Positive(entries) && Positive(items)
    ensures var r := Consolidate(entries, items);
            && DistinctProducts(r) && Positive(r)
            && forall p :: Wanted(r, p) == Wanted(entries, p) + Wanted(items, p)
    decreases |items|
  {
    if items != [] {
      UpsertKeeps(entries, items[0]);
      ConsolidateKeeps(Upsert(entries, items[0]), items[1..]);
    }
  }

  lemma {:induction false} SortInsertMembers(item: Portion, sorted: seq<Portion>)
    ensures forall x :: x in SortInsert(item, sorted) <==> x == item || x in sorted
  {
    if sorted != [] && item.product > sorted[0].product {
      SortInsertMembers(item, sorted[1..]);
      assert sorted == [sorted[0]] + sorted[1..];
    }
  }

  lemma {:induction false} SortInsertAscending(item: Portion, sorted: seq<Portion>)
    requires Ascending(sorted) && forall x | x in sorted :: x.product != item.product
    ensures Ascending(SortInsert(item, sorted))
  {
    if sorted != [] && item.product > sorted[0].product {
      var tail := SortInsert(item, sorted[1..]);
      SortInsertAscending(item, sorted[1..]);
      SortInsertMembers(item, sorted[1..]);
      assert forall x | x in sorted[1..] :: sorted[0].product < x.product;
      forall i | 0 <= i < |tail| ensures sorted[0].product < tail[i].product {
        assert tail[i] in tail;
      }
    }
  }

  lemma {:induction false} SortInsertWanted(item: Portion, sorted: seq<Portion>, p: Id)
    ensures Wanted(SortInsert(item, sorted), p) == Wanted(sorted, p) + (if item.product == p then item.quantity else 0)
  {
    var r := SortInsert(item, sorted);
    if sorted == [] || item.product <= sorted[0].product {
      assert r[1..] == sorted;
    } else {
      SortInsertWanted(item, sorted[1..], p);
      assert r[1..] == SortInsert(item, sorted[1..]);
    }
  }

  lemma {:induction false} SortKeeps(entries: seq<Portion>)
    requires DistinctProducts(entries)
    ensures Ascending(SortByProduct(entries))
    ensures forall x :: x in SortByProduct(entries) <==> x in entries
    ensures forall p :: Wanted(SortByProduct(entries), p) == Wanted(entries, p)
  {
    if entries != [] {
      var tail := entries[1..];
      SortKeeps(tail);
      assert entries == [entries[0]] + tail;
      SortInsertMembers(entries[0], SortByProduct(tail));
      SortInsertAscending(entries[0], SortByProduct(tail));
      forall p { SortInsertWanted(entries[0], SortByProduct(tail), p); }
    }
  }

  /** Normalized items are sorted without repeats and carry each product's total. */
  lemma {:induction false} NormalizedItems(source: Id, destination: Id, items: seq<Portion>)
    requires Positive(items)
    ensures var r := Normalize(source, destination, items).items;
            Ascending(r) && Positive(r) && forall p :: Wanted(r, p) == Wanted(items, p)
  {
    ConsolidateKeeps([], items);
    var r := Normalize(source, destination, items).items;
    SortKeeps(Consolidate([], items));
    assert forall x | x in Consolidate([], items) :: x.quantity > 0;
    forall i | 0 <= i < |r| ensures r[i].quantity > 0 {
      assert r[i] in r;
    }
  }

  /** A sorted list of positive totals is determined by the totals. */
  lemma {:induction false} TotalsDetermineItems(a: seq<Portion>, b: seq<Portion>)
    requires Ascending(a) && Ascending(b) && Positive(a) && Positive(b)
    requires SameTotals(a, b)
    ensures a == b
  {
    if a == [] || b == [] {
      SomeTotalIsPositive(a);
      SomeTotalIsPositive(b);
    } else {
      HeadIsLeast(a, b);
      HeadIsLeast(b, a);
      assert a[0].product == b[0].product;
      WantedAbsent(a[1..], a[0].product);
      WantedAbsent(b[1..], b[0].product);
      assert a[0] == b[0];
      forall p ensures Wanted(a[1..], p) == Wanted(b[1..], p) {
        assert Wanted(a, p) == Wanted(b, p);
      }
      TotalsDetermineItems(a[1..], b[1..]);
      assert a == [a[0]] + a[1..] && b == [b[0]] + b[1..];
    }
  }

  lemma {:induction false} SomeTotalIsPositive(a: seq<Portion>)
    requires Positive(a)
    ensures a == [] || Wanted(a, a[0].product) > 0
  {
    if a != [] {
      WantedNonNegative(a, a[0].product);
    }
  }

  lemma {:induction false} HeadIsLeast(a: seq<Portion>, b: seq<Portion>)
    requires a != [] && b != [] && Ascending(b) && Positive(a)
    requires Wanted(a, a[0].product) == Wanted(b, a[0].product)
    ensures b[0].product <= a[0].product
  {
    SomeTotalIsPositive(a);
    WantedBelowHead(b, a[0].product);
  }

  lemma {:induction false} WantedBelowHead(b: seq<Portion>, product: Id)
    requires b != [] && Ascending(b) && Wanted(b, product) != 0
    ensures b[0].product <= product
  {
    if product < b[0].product {
      WantedAbsent(b, product);
    }
  }

  ghost predicate SameTotals(a: seq<Portion>, b: seq<Portion>) {
    forall p :: Wanted(a, p) == Wanted(b, p)
  }

  /**
   * Two batches have the same fingerprint exactly when their branches and their per-product totals
   * are equal: reordering lines, or splitting one line into several, changes nothing.
   */
  lemma {:induction false} SameFingerprintIffSameTotals(s1: Id, d1: Id, a: seq<Portion>, s2: Id, d2: Id, b: seq<Portion>)
    requires Positive(a) && Positive(b)
    ensures Normalize(s1, d1, a) == Normalize(s2, d2, b) <==> s1 == s2 && d1 == d2 && SameTotals(a, b)
  {
    NormalizedItems(s1, d1, a);
    NormalizedItems(s2, d2, b);
    var na, nb := Normalize(s1, d1, a).items, Normalize(s2, d2, b).items;
    assert SameTotals(na, a) && SameTotals(nb, b);
    if SameTotals(a, b) {
      TotalsDetermineItems(na, nb);
    }
    assert na == nb ==> SameTotals(na, nb);
  }

  // ------------------------------------------------------------------
  // Transactions.

  datatype TransferDto = TransferDto(transferId: Option<Id>, source: Id, destination: Id, product: Id, quantity: int)

  datatype TransferResult = TransferResult(id: TransferId, source: Id, destination: Id, product: Id, quantity: int,
                                           sourceAfter: int, destinationAfter: int)

  datatype BatchDto = BatchDto(transferId: Option<Id>, source: Id, destination: Id, items: seq<Portion>)

  /** Both branches exist, are active and belong to one organization. */
  function CheckRoute(branches: map<Id, Branch>, source: Id, destination: Id): Result<bool> {
    if source !in branches then Err(NotFound)
    else if !branches[source].active then Err(BadRequest)
    else if destination !in branches then Err(NotFound)
    else if !branches[destination].active then Err(BadRequest)
    else if branches[destination].organization != branches[source].organization then Err(Forbidden)
    else Ok(true)
  }

  /** Moves units of one product: an OUT at the source, then an IN at the destination. */
  function MoveOne(inv: Inventory, source: Id, destination: Id, item: Portion, reference: Ref): Inventory {
    var from, to := Shelf(item.product, source), Shelf(item.product, destination);
    var out := Post(inv, from, TransferOut, item.quantity, QuantityAt(inv.stock, from) - item.quantity, reference);
    Post(out, to, TransferIn, item.quantity, QuantityAt(out.stock, to) + item.quantity, reference)
  }

  function MoveAll(inv: Inventory, source: Id, destination: Id, items: seq<Portion>, reference: Ref): Inventory
    decreases |items|
  {
    if items == [] then inv
    else MoveAll(MoveOne(inv, source, destination, items[0], reference), source, destination, items[1..], reference)
  }

  /** The transfer row with a given id, if one was committed. */
  function FindTransfer(transfers: seq<TransferRow>, id: TransferId): Option<TransferRow> {
    if transfers == [] then None
    else if transfers[0].id == id then Some(transfers[0])
    else FindTransfer(transfers[1..], id)
  }

  function TransferReply(stock: map<Shelf, int>, row: TransferRow): TransferResult {
    TransferResult(row.id, row.source, row.destination, row.product, row.quantity,
                   QuantityAt(stock, Shelf(row.product, row.source)), QuantityAt(stock, Shelf(row.product, row.destination)))
  }

  function TransferRowOf(t: Tables, dto: TransferDto): TransferRow {
    var id := if dto.transferId.Some? then Given(dto.transferId.value) else Generated(|t.transfers|);
    TransferRow(id, dto.product, dto.source, dto.destination, dto.quantity)
  }

  /** What a single transfer is refused with, if anything. */
  function CheckTransfer(t: Tables, dto: TransferDto): Result<bool> {
    var from := Shelf(dto.product, dto.source);
    var _ :- CheckRoute(t.branches, dto.source, dto.destination);
    if dto.product !in t.products then Err(NotFound)
    else if !t.products[dto.product].active then Err(BadRequest)
    else if from !in t.inventory.stock || t.inventory.stock[from] < dto.quantity then Err(BadRequest)
    else Ok(true)
  }

  function TransferSpec(t: Tables, dto: TransferDto): (Result<TransferResult>, Tables) {
    var row := TransferRowOf(t, dto);
    if dto.quantity <= 0 || dto.source == dto.destination then (Err(BadRequest), t)
    else if dto.transferId.Some? && FindTransfer(t.transfers, row.id).Some? then
      var prior := FindTransfer(t.transfers, row.id).value;
      if prior != row then (Err(Conflict), t) else (Ok(TransferReply(t.inventory.stock, prior)), t)
    else
      match CheckTransfer(t, dto)
      case Err(e) => (Err(e), t)
      case Ok(_) =>
        var inv := MoveOne(t.inventory, dto.source, dto.destination, Portion(dto.product, dto.quantity), TransferRef(row.id));
        (Ok(TransferReply(inv.stock, row)), t.(inventory := inv, transfers := t.transfers + [row]))
  }

  method TransferStock(db: Database, dto: TransferDto) returns (r: Result<TransferResult>)
    modifies db
    ensures (r, db.Contents()) == TransferSpec(old(db.Contents()), dto)
  {
    if dto.quantity <= 0 || dto.source == dto.destination {
      return Err(BadRequest);
    }
    var id := if dto.transferId.Some? then Given(dto.transferId.value) else Generated(|db.transfers|);
    var row := TransferRow(id, dto.product, dto.source, dto.destination, dto.quantity);
    if dto.transferId.Some? {
      var existing := FindTransfer(db.transfers, id);
      if existing.Some? {
        if existing.value != row {
          return Err(Conflict);
        }
        return Ok(TransferReply(db.inventory.stock, existing.value));
      }
    }
    var route := CheckRoute(db.branches, dto.source, dto.destination);
    if route.Err? {
      return Err(route.failure);
    }
    if dto.product !in db.products {
      return Err(NotFound);
    }
    if !db.products[dto.product].active {
      return Err(BadRequest);
    }
    var from, to := Shelf(dto.product, dto.source), Shelf(dto.product, dto.destination);
    if from !in db.inventory.stock {
      return Err(BadRequest);
    }
    var sourceBefore := db.inventory.stock[from];
    if sourceBefore < dto.quantity {
      return Err(BadRequest);
    }
    db.inventory := db.inventory.(stock := db.inventory.stock[from := sourceBefore - dto.quantity]);
    var sourceAfter := db.inventory.stock[from];
    db.inventory := db.inventory.(stock := db.inventory.stock[to := QuantityAt(db.inventory.stock, to) + dto.quantity]);
    var destinationAfter := db.inventory.stock[to];
    db.inventory := db.inventory.(moves := db.inventory.moves
      + [Movement(from, TransferOut, dto.quantity, sourceBefore, sourceAfter, TransferRef(id))]
      + [Movement(to, TransferIn, dto.quantity, destinationAfter - dto.quantity, destinationAfter, TransferRef(id))]);
    db.transfers := db.transfers + [row];
    return Ok(TransferResult(id, dto.source, dto.destination, dto.product, dto.quantity, sourceAfter, destinationAfter));
  }

  // ---- batches ------------------------------------------------------

  /** Every product exists and is active; the first offender decides the error. */
  function CheckProducts(products: map<Id, Product>, items: seq<Portion>): Result<bool> {
    if items == [] then Ok(true)
    else if items[0].product !in products then Err(NotFound)
    else if !products[items[0].product].active then Err(BadRequest)
    else CheckProducts(products, items[1..])
  }

  predicate Covers(stock: map<Shelf, int>, source: Id, items: seq<Portion>) {
    forall i | 0 <= i < |items| ::
      Shelf(items[i].product, source) in stock && items[i].quantity <= stock[Shelf(items[i].product, source)]
  }

  function SumQuantity(items: seq<Portion>): int {
    if items == [] then 0 else items[0].quantity + SumQuantity(items[1..])
  }

  function ItemResult(stock: map<Shelf, int>, source: Id, destination: Id, item: Portion): BatchItemResult {
    var from, to := QuantityAt(stock, Shelf(item.product, source)), QuantityAt(stock, Shelf(item.product, destination));
    BatchItemResult(item.product, item.quantity, from, from - item.quantity, to, to + item.quantity)
  }

  /** What is reported for each item, read as its turn comes. */
  function ItemResults(inv: Inventory, source: Id, destination: Id, items: seq<Portion>, reference: Ref): seq<BatchItemResult>
    decreases |items|
  {
    if items == [] then []
    else
      [ItemResult(inv.stock, source, destination, items[0])]
      + ItemResults(MoveOne(inv, source, destination, items[0], reference), source, destination, items[1..], reference)
  }

  lemma {:induction false} ResultsCount(inv: Inventory, source: Id, destination: Id, items: seq<Portion>, reference: Ref)
    ensures |ItemResults(inv, source, destination, items, reference)| == |items|
    decreases |items|
  {
    if items != [] {
      ResultsCount(MoveOne(inv, source, destination, items[0], reference), source, destination, items[1..], reference);
    }
  }

  /** One audit row per item, under generated ids. */
  function AuditRows(transfers: seq<TransferRow>, source: Id, destination: Id, items: seq<Portion>): seq<TransferRow>
    decreases |items|
  {
    if items == [] then transfers
    else AuditRows(transfers + [TransferRow(Generated(|transfers|), items[0].product, source, destination, items[0].quantity)],
                   source, destination, items[1..])
  }

  function BatchReply(t: Tables, id: TransferId, p: BatchPayload): BatchResult {
    BatchResult(id, p.source, p.destination, |p.items|, SumQuantity(p.items), ItemResults(t.inventory, p.source, p.destination, p.items, BatchRef(id)))
  }

  function CheckBatch(t: Tables, p: BatchPayload): Result<bool> {
    var _ :- CheckRoute(t.branches, p.source, p.destination);
    var _ :- CheckProducts(t.products, p.items);
    if Covers(t.inventory.stock, p.source, p.items) then Ok(true) else Err(BadRequest)
  }

  /** The committed effects of a batch that passes its checks. */
  function ApplyBatch(t: Tables, id: TransferId, p: BatchPayload): Tables {
    t.(inventory := MoveAll(t.inventory, p.source, p.destination, p.items, BatchRef(id)),
       transfers := AuditRows(t.transfers, p.source, p.destination, p.items),
       batches := t.batches[id := BatchRow(p, BatchReply(t, id, p))])
  }

  function BatchIdOf(t: Tables, dto: BatchDto): TransferId {
    if dto.transferId.Some? then Given(dto.transferId.value) else Generated(|t.batches|)
  }

  function BatchSpec(t: Tables, dto: BatchDto): (Result<BatchResult>, Tables) {
    if dto.source == dto.destination || dto.items == [] || !Positive(dto.items) then (Err(BadRequest), t)
    else
      var p, id := Normalize(dto.source, dto.destination, dto.items), BatchIdOf(t, dto);
      if id in t.batches then
        (if t.batches[id].payload != p then (Err(Conflict), t) else (Ok(t.batches[id].response), t))
      else
        match CheckBatch(t, p)
        case Err(e) => (Err(e), t)
        case Ok(_) => (Ok(BatchReply(t, id, p)), ApplyBatch(t, id, p))
  }

  method ConsolidateItems(items: seq<Portion>) returns (r: Result<seq<Portion>>)
    ensures r == if Positive(items) then Ok(Consolidate([], items)) else Err(BadRequest)
  {
    var entries: seq<Portion> := [];
    for i := 0 to |items|
      invariant Positive(items[..i])
      invariant Consolidate(entries, items[i..]) == Consolidate([], items)
    {
      if items[i].quantity <= 0 {
        return Err(BadRequest);
      }
      entries := Upsert(entries, items[i]);
    }
    return Ok(entries);
  }

  /** A move of another product leaves the rows of this one alone. */
  lemma {:induction false} MoveOneTouchesOneProduct(inv: Inventory, source: Id, destination: Id, item: Portion, reference: Ref, s: Shelf)
    requires s.product != item.product
    ensures QuantityAt(MoveOne(inv, source, destination, item, reference).stock, s) == QuantityAt(inv.stock, s)
  {}

  method TransferStockBatch(db: Database, dto: BatchDto) returns (r: Result<BatchResult>)
    modifies db
    ensures (r, db.Contents()) == BatchSpec(old(db.Contents()), dto)
  {
    if dto.source == dto.destination || dto.items == [] {
      return Err(BadRequest);
    }
    var consolidated := ConsolidateItems(dto.items);
    if consolidated.Err? {
      return Err(BadRequest);
    }
    var items := SortByProduct(consolidated.value);
    NormalizedItems(dto.source, dto.destination, dto.items);
    var payload := BatchPayload(dto.source, dto.destination, items);
    var id := if dto.transferId.Some? then Given(dto.transferId.value) else Generated(|db.batches|);
    if id in db.batches {
      if db.batches[id].payload != payload {
        return Err(Conflict);
      }
      return Ok(db.batches[id].response);
    }
    var route := CheckRoute(db.branches, dto.source, dto.destination);
    if route.Err? {
      return Err(route.failure);
    }
    for i := 0 to |items|
      invariant CheckProducts(db.products, items[i..]) == CheckProducts(db.products, items)
    {
      if items[i].product !in db.products {
        return Err(NotFound);
      }
      if !db.products[items[i].product].active {
        return Err(BadRequest);
      }
    }
    for i := 0 to |items|
      invariant Covers(db.inventory.stock, dto.source, items[..i])
    {
      var from := Shelf(items[i].product, dto.source);
      if from !in db.inventory.stock || db.inventory.stock[from] < items[i].quantity {
        return Err(BadRequest);
      }
    }
    assert items[..|items|] == items;
    r := CommitBatch(db, id, payload);
  }

  /** After i items: what is left to do from here is what was left to do from the start. */
  ghost predicate BatchProgress(begin: Tables, inv: Inventory, transfers: seq<TransferRow>, results: seq<BatchItemResult>, total: int,
                                id: TransferId, p: BatchPayload, i: nat)
    requires i <= |p.items|
  {
    && MoveAll(inv, p.source, p.destination, p.items[i..], BatchRef(id))
       == MoveAll(begin.inventory, p.source, p.destination, p.items, BatchRef(id))
    && AuditRows(transfers, p.source, p.destination, p.items[i..]) == AuditRows(begin.transfers, p.source, p.destination, p.items)
    && results + ItemResults(inv, p.source, p.destination, p.items[i..], BatchRef(id))
       == ItemResults(begin.inventory, p.source, p.destination, p.items, BatchRef(id))
    && total + SumQuantity(p.items[i..]) == SumQuantity(p.items)
  }

  lemma {:induction false} BatchProgressStep(begin: Tables, inv: Inventory, transfers: seq<TransferRow>, results: seq<BatchItemResult>, total: int,
                                             id: TransferId, p: BatchPayload, i: nat)
    requires i < |p.items| && BatchProgress(begin, inv, transfers, results, total, id, p, i)
    ensures BatchProgress(begin, MoveOne(inv, p.source, p.destination, p.items[i], BatchRef(id)),
                          transfers + [TransferRow(Generated(|transfers|), p.items[i].product, p.source, p.destination, p.items[i].quantity)],
                          results + [ItemResult(inv.stock, p.source, p.destination, p.items[i])], total + p.items[i].quantity, id, p, i + 1)
  {
    var rest, result := p.items[i..], ItemResult(inv.stock, p.source, p.destination, p.items[i]);
    var next := MoveOne(inv, p.source, p.destination, p.items[i], BatchRef(id));
    assert rest[0] == p.items[i] && rest[1..] == p.items[i + 1..];
    var more := ItemResults(next, p.source, p.destination, p.items[i + 1..], BatchRef(id));
    assert results + ([result] + more) == (results + [result]) + more;
  }

  method CommitBatch(db: Database, id: TransferId, p: BatchPayload) returns (r: Result<BatchResult>)
    requires p.source != p.destination
    modifies db
    ensures db.Contents() == ApplyBatch(old(db.Contents()), id, p)
    ensures r == Ok(BatchReply(old(db.Contents()), id, p))
  {
    ghost var begin := db.Contents();
    var results: seq<BatchItemResult>, total := [], 0;
    for i := 0 to |p.items|
      invariant db.Contents() == begin.(inventory := db.inventory, transfers := db.transfers)
      invariant BatchProgress(begin, db.inventory, db.transfers, results, total, id, p, i)
    {
      BatchProgressStep(begin, db.inventory, db.transfers, results, total, id, p, i);
      var result := MoveItem(db, id, p, p.items[i]);
      results := results + [result];
      total := total + p.items[i].quantity;
    }
    assert p.items[|p.items|..] == [] && results + [] == results;
    ResultsCount(begin.inventory, p.source, p.destination, p.items, BatchRef(id));
    var reply := BatchResult(id, p.source, p.destination, |results|, total, results);
    db.batches := db.batches[id := BatchRow(p, reply)];
    return Ok(reply);
  }

  /** The statements of one loop iteration: two stock updates, two movements, one audit row. */
  method MoveItem(db: Database, id: TransferId, p: BatchPayload, item: Portion) returns (result: BatchItemResult)
    requires p.source != p.destination
    modifies db
    ensures result == ItemResult(old(db.inventory.stock), p.source, p.destination, item)
    ensures db.Contents() == old(db.Contents()).(
              inventory := MoveOne(old(db.inventory), p.source, p.destination, item, BatchRef(id)),
              transfers := old(db.transfers) + [TransferRow(Generated(|old(db.transfers)|), item.product, p.source, p.destination, item.quantity)])
  {
    var from, to := Shelf(item.product, p.source), Shelf(item.product, p.destination);
    var sourceBefore, destinationBefore := QuantityAt(db.inventory.stock, from), QuantityAt(db.inventory.stock, to);
    db.inventory := db.inventory.(stock := db.inventory.stock[from := sourceBefore - item.quantity]);
    db.inventory := db.inventory.(stock := db.inventory.stock[to := QuantityAt(db.inventory.stock, to) + item.quantity]);
    var sourceAfter, destinationAfter := db.inventory.stock[from], db.inventory.stock[to];
    db.inventory := db.inventory.(moves := db.inventory.moves
      + [Movement(from, TransferOut, item.quantity, sourceBefore, sourceAfter, BatchRef(id))]
      + [Movement(to, TransferIn, item.quantity, destinationBefore, destinationAfter, BatchRef(id))]);
    result := BatchItemResult(item.product, item.quantity, sourceBefore, sourceAfter, destinationBefore, destinationAfter);
    db.transfers := db.transfers + [TransferRow(Generated(|db.transfers|), item.product, p.source, p.destination, item.quantity)];
  }

  // ------------------------------------------------------------------
  // Conservation.

  /** Units of a product over all branches. */
  ghost function Total(stock: map<Shelf, int>, product: Id): int
    decreases |stock|
  {
    if stock == map[] then 0
    else
      var s :| s in stock;
      (if s.product == product then stock[s] else 0) + Total(stock - {s}, product)
  }

  lemma {:induction false} TotalRemove(stock: map<Shelf, int>, s: Shelf, product: Id)
    requires s in stock
    ensures Total(stock, product) == (if s.product == product then stock[s] else 0) + Total(stock - {s}, product)
    decreases |stock|
  {
    var first :| first in stock && Total(stock, product) == (if first.product == product then stock[first] else 0) + Total(stock - {first}, product);
    if first != s {
      TotalRemove(stock - {first}, s, product);
      TotalRemove(stock - {s}, first, product);
      assert stock - {first} - {s} == stock - {s} - {first};
    }
  }

  /** Writing one shelf changes its product's total by the change of that shelf. */
  lemma {:induction false} TotalUpdate(stock: map<Shelf, int>, s: Shelf, q: int, product: Id)
    ensures Total(stock[s := q], product)
         == Total(stock, product) + (if s.product == product then q - QuantityAt(stock, s) else 0)
  {
    var after := stock[s := q];
    TotalRemove(after, s, product);
    assert after - {s} == stock - {s};
    if s in stock {
      TotalRemove(stock, s, product);
    } else {
      assert stock - {s} == stock;
    }
  }

  lemma {:induction false} MoveOneConserves(inv: Inventory, source: Id, destination: Id, item: Portion, reference: Ref, product: Id)
    ensures Total(MoveOne(inv, source, destination, item, reference).stock, product) == Total(inv.stock, product)
  {
    var from, to := Shelf(item.product, source), Shelf(item.product, destination);
    var out := inv.stock[from := QuantityAt(inv.stock, from) - item.quantity];
    TotalUpdate(inv.stock, from, QuantityAt(inv.stock, from) - item.quantity, product);
    TotalUpdate(out, to, QuantityAt(out, to) + item.quantity, product);
  }

  lemma {:induction false} MoveAllConserves(inv: Inventory, source: Id, destination: Id, items: seq<Portion>, reference: Ref, product: Id)
    ensures Total(MoveAll(inv, source, destination, items, reference).stock, product) == Total(inv.stock, product)
    decreases |items|
  {
    if items != [] {
      MoveOneConserves(inv, source, destination, items[0], reference, product);
      MoveAllConserves(MoveOne(inv, source, destination, items[0], reference), source, destination, items[1..], reference, product);
    }
  }

  lemma {:induction false} ReceivingKeepsFaithful(inv: Inventory, to: Shelf, quantity: int, reference: Ref)
    requires Faithful(inv) && quantity > 0
    ensures Faithful(Post(inv, to, TransferIn, quantity, QuantityAt(inv.stock, to) + quantity, reference))
  {
    FaithfulIsNonNegative(inv, to);
    InOrOutKeepsFaithful(inv, to, TransferIn, quantity, QuantityAt(inv.stock, to) + quantity, reference);
  }

  lemma {:induction false} MoveOneKeepsFaithful(inv: Inventory, source: Id, destination: Id, item: Portion, reference: Ref)
    requires Faithful(inv) && item.quantity > 0 && QuantityAt(inv.stock, Shelf(item.product, source)) >= item.quantity
    ensures Faithful(MoveOne(inv, source, destination, item, reference))
  {
    var from, to := Shelf(item.product, source), Shelf(item.product, destination);
    var less := QuantityAt(inv.stock, from) - item.quantity;
    InOrOutKeepsFaithful(inv, from, TransferOut, item.quantity, less, reference);
    var out := Post(inv, from, TransferOut, item.quantity, less, reference);
    ReceivingKeepsFaithful(out, to, item.quantity, reference);
  }

  lemma {:induction false} MoveAllKeepsFaithful(inv: Inventory, source: Id, destination: Id, items: seq<Portion>, reference: Ref)
    requires Faithful(inv) && Positive(items) && Ascending(items) && Covers(inv.stock, source, items) && source != destination
    ensures Faithful(MoveAll(inv, source, destination, items, reference))
    decreases |items|
  {
    if items != [] {
      var next := MoveOne(inv, source, destination, items[0], reference);
      MoveOneKeepsFaithful(inv, source, destination, items[0], reference);
      forall i | 0 <= i < |items[1..]|
        ensures Shelf(items[1..][i].product, source) in next.stock && items[1..][i].quantity <= next.stock[Shelf(items[1..][i].product, source)]
      {
        assert items[1..][i] == items[i + 1];
        MoveOneTouchesOneProduct(inv, source, destination, items[0], reference, Shelf(items[i + 1].product, source));
      }
      MoveAllKeepsFaithful(next, source, destination, items[1..], reference);
    }
  }

  /** A single transfer never changes what a product's branches hold together. */
  lemma {:induction false} TransferConservesStock(t: Tables, dto: TransferDto, product: Id)
    ensures Total(TransferSpec(t, dto).1.inventory.stock, product) == Total(t.inventory.stock, product)
  {
    MoveOneConserves(t.inventory, dto.source, dto.destination, Portion(dto.product, dto.quantity), TransferRef(TransferRowOf(t, dto).id), product);
  }

  /** Neither does a batch, whatever lines it lists. */
  lemma {:induction false} BatchConservesStock(t: Tables, dto: BatchDto, product: Id)
    ensures Total(BatchSpec(t, dto).1.inventory.stock, product) == Total(t.inventory.stock, product)
  {
    var p := Normalize(dto.source, dto.destination, dto.items);
    MoveAllConserves(t.inventory, p.source, p.destination, p.items, BatchRef(BatchIdOf(t, dto)), product);
  }

  lemma {:induction false} TransferKeepsFaithful(t: Tables, dto: TransferDto)
    requires Faithful(t.inventory)
    ensures Faithful(TransferSpec(t, dto).1.inventory)
  {
    var (r, after) := TransferSpec(t, dto);
    if after != t {
      MoveOneKeepsFaithful(t.inventory, dto.source, dto.destination, Portion(dto.product, dto.quantity), TransferRef(TransferRowOf(t, dto).id));
    }
  }

  lemma {:induction false} BatchKeepsFaithful(t: Tables, dto: BatchDto)
    requires Faithful(t.inventory)
    ensures Faithful(BatchSpec(t, dto).1.inventory)
  {
    if dto.source != dto.destination && Positive(dto.items) {
      NormalizedItems(dto.source, dto.destination, dto.items);
      var p := Normalize(dto.source, dto.destination, dto.items);
      if CheckBatch(t, p).Ok? {
        MoveAllKeepsFaithful(t.inventory, p.source, p.destination, p.items, BatchRef(BatchIdOf(t, dto)));
      }
    }
  }

  /** The log entry pair of one moved item. */
  predicate IsPair(out: Movement, in_: Movement, source: Id, destination: Id, item: Portion, reference: Ref) {
    && out.kind == TransferOut && out.shelf == Shelf(item.product, source)
    && in_.kind == TransferIn && in_.shelf == Shelf(item.product, destination)
    && out.quantity == in_.quantity == item.quantity && out.reference == in_.reference == reference
    && out.resulting == out.previous - item.quantity && in_.resulting == in_.previous + item.quantity
  }

  /** Every moved item leaves exactly one matching OUT and IN entry, in order, under the one reference. */
  lemma {:induction false} MovesArePaired(inv: Inventory, source: Id, destination: Id, items: seq<Portion>, reference: Ref)
    ensures var after := MoveAll(inv, source, destination, items, reference).moves;
            && |after| == |inv.moves| + 2 * |items| && after[..|inv.moves|] == inv.moves
            && forall k | 0 <= k < |items| ::
                 IsPair(after[|inv.moves| + 2 * k], after[|inv.moves| + 2 * k + 1], source, destination, items[k], reference)
    decreases |items|
  {
    if items != [] {
      var next := MoveOne(inv, source, destination, items[0], reference);
      MovesArePaired(next, source, destination, items[1..], reference);
      var after := MoveAll(inv, source, destination, items, reference).moves;
      assert after[..|next.moves|] == next.moves;
      assert after[|inv.moves|] == next.moves[|inv.moves|] && after[|inv.moves| + 1] == next.moves[|inv.moves| + 1];
      assert after[..|inv.moves|] == next.moves[..|inv.moves|];
      forall k | 0 <= k < |items|
        ensures IsPair(after[|inv.moves| + 2 * k], after[|inv.moves| + 2 * k + 1], source, destination, items[k], reference)
      {
        if k > 0 {
          var j := k - 1;
          assert IsPair(after[|next.moves| + 2 * j], after[|next.moves| + 2 * j + 1], source, destination, items[1..][j], reference);
        }
      }
    }
  }

  /** The answer of a batch reports each item against the stock the batch started from. */
  lemma {:induction false} ResultsReportTheStart(inv: Inventory, source: Id, destination: Id, items: seq<Portion>, reference: Ref)
    requires Ascending(items)
    ensures var r := ItemResults(inv, source, destination, items, reference);
            |r| == |items| && forall k | 0 <= k < |items| :: r[k] == ItemResult(inv.stock, source, destination, items[k])
    decreases |items|
  {
    if items != [] {
      var next := MoveOne(inv, source, destination, items[0], reference);
      ResultsReportTheStart(next, source, destination, items[1..], reference);
      forall k | 0 < k < |items|
        ensures ItemResult(next.stock, source, destination, items[k]) == ItemResult(inv.stock, source, destination, items[k])
      {
        MoveOneTouchesOneProduct(inv, source, destination, items[0], reference, Shelf(items[k].product, source));
        MoveOneTouchesOneProduct(inv, source, destination, items[0], reference, Shelf(items[k].product, destination));
      }
    }
  }

  /** Replaying a stored batch is free of effects and repeats its stored answer, whatever happened since. */
  lemma {:induction false} BatchReplayIsStable(t: Tables, later: Tables, first: BatchDto, again: BatchDto)
    requires first.transferId.Some? && again.transferId == first.transferId
    requires BatchSpec(t, first).0.Ok?
    requires Given(first.transferId.value) in later.batches
    requires later.batches[Given(first.transferId.value)] == BatchSpec(t, first).1.batches[Given(first.transferId.value)]
    requires again.source != again.destination && again.items != [] && Positive(again.items)
    ensures BatchSpec(later, again).1 == later
    ensures BatchSpec(later, again).0
         == if first.source == again.source && first.destination == again.destination && SameTotals(first.items, again.items)
            then BatchSpec(t, first).0 else Err(Conflict)
  {
    SameFingerprintIffSameTotals(first.source, first.destination, first.items, again.source, again.destination, again.items);
  }
}
