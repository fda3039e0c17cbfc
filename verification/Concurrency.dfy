/**
 * Concurrent sales, exchanges and transfers: when the tables are what the committed requests make of
 * them one after another, and what the two idempotent protocols add.
 */
module Concurrency {
  import opened Wrappers
  import opened Tables
  import opened StockLog
  import opened StockTransfer
  import opened ProductStock
  import opened Checkout
  import opened Bookkeeping
  import opened Sales
  import opened Exchange
  import opened Frames
  import opened Runs
  import opened Isolation
  import opened Statements
  import opened Readings
  import opened Races
  import SaleProtocol
  import BatchProtocol

  type ShopEvent = Isolation.Event<Request>

  type ShopWorld = Isolation.World<Request, Region, Reading, Tables>

  // ------------------------------------------------------------------
  // One after another.

  /** The committed requests as single transactions, one after another. */
  function InTurn(start: Tables, requests: seq<Request>): Option<Tables> {
    if requests == [] then Some(start)
    else
      match InTurn(start, requests[..|requests| - 1])
      case None => None
      case Some(before) => Atomic(before, requests[|requests| - 1])
  }

  lemma {:induction false} SequentialIsInTurn(start: Tables, requests: seq<Request>)
    ensures Isolation.Sequential(Shop(), start, requests) == InTurn(start, requests)
  {
    if requests != [] {
      var n := |requests| - 1;
      SequentialIsInTurn(start, requests[..n]);
      if InTurn(start, requests[..n]).Some? {
        AloneIsAtomic(InTurn(start, requests[..n]).value, requests[n]);
      }
    }
  }

  predicate IsCheckout(q: Request) { q.OfSale? || q.OfExchange? }

  function Checkouts(requests: seq<Request>): nat {
    if requests == [] then 0
    else Checkouts(requests[..|requests| - 1]) + (if IsCheckout(requests[|requests| - 1]) then 1 else 0)
  }

  lemma {:induction false} AtomicAddsSales(t: Tables, q: Request)
    requires Atomic(t, q).Some?
    ensures |Atomic(t, q).value.books.sales| == |t.books.sales| + (if IsCheckout(q) then 1 else 0)
  {}

  lemma {:induction false} InTurnKeeps(start: Tables, requests: seq<Request>)
    requires Runs.Invariant(start) && InTurn(start, requests).Some?
    ensures var after := InTurn(start, requests).value;
            Kept(start, after) && |after.books.sales| == |start.books.sales| + Checkouts(requests)
  {
    if requests == [] {
      UntouchedIsKept(start);
    } else {
      var n := |requests| - 1;
      InTurnKeeps(start, requests[..n]);
      var before := InTurn(start, requests[..n]).value;
      AtomicAddsSales(before, requests[n]);
      AtomicKeeps(before, requests[n]);
      KeptIsTransitive(start, before, InTurn(start, requests).value);
    }
  }

  // ------------------------------------------------------------------
  // Interleaved statements.

  /** No two unfinished transactions are in one of the two races. */
  ghost predicate RaceFree(w: ShopWorld) {
    forall i, j | 0 <= i < |w.txns| && 0 <= j < |w.txns| && i != j && !w.txns[i].done && !w.txns[j].done ::
      !BalanceRace(w.txns[i].request, w.txns[j].request) && !RowRace(w.shop, w.txns[i].request, w.txns[j].request)
  }

  ghost predicate AlwaysRaceFree(start: Tables, events: seq<ShopEvent>) {
    forall n | 0 <= n <= |events| && Isolation.Run(Shop(), start, events[..n]).Some? :: RaceFree(Isolation.Run(Shop(), start, events[..n]).value)
  }

  lemma {:induction false} RaceFreeIsApart(w: ShopWorld)
    requires Runs.Invariant(w.shop) && RaceFree(w)
    ensures Apart(Shop(), w)
  {
    forall i, j | 0 <= i < |w.txns| && 0 <= j < |w.txns| && i != j && !w.txns[i].done && !w.txns[j].done
      ensures !Clash(Shop(), w.shop, w.txns[i].request, w.txns[j].request)
    {
      if Clash(Shop(), w.shop, w.txns[i].request, w.txns[j].request) {
        ClashIsARace(w.shop, w.txns[i].request, w.txns[j].request);
      }
    }
  }

  lemma {:induction false} RaceFreeIsSerial(start: Tables, events: seq<ShopEvent>)
    requires Runs.Invariant(start) && Isolation.Run(Shop(), start, events).Some? && AlwaysRaceFree(start, events)
    ensures var w := Isolation.Run(Shop(), start, events).value;
            Isolation.Sequential(Shop(), start, w.commits) == Some(w.shop)
  {
    ShopReadsOnce();
    ShopIsFramed();
    forall n | 0 <= n <= |events| && Isolation.Run(Shop(), start, events[..n]).Some? && Valid()(Isolation.Run(Shop(), start, events[..n]).value.shop)
      ensures Apart(Shop(), Isolation.Run(Shop(), start, events[..n]).value)
    {
      RaceFreeIsApart(Isolation.Run(Shop(), start, events[..n]).value);
    }
    ApartIsSerial(Shop(), Valid(), start, events);
  }

  /**
   * Sales, exchanges, single and batch transfers whose statements interleave in any way: if no two
   * of them are in one of the two races while unfinished, the tables are what the committed requests
   * make of them one after another. So the invariant holds, and there is one new sale per checkout.
   */
  lemma {:induction false} InterleavedAsInTurn(start: Tables, events: seq<ShopEvent>)
    requires Runs.Invariant(start) && Isolation.Run(Shop(), start, events).Some? && AlwaysRaceFree(start, events)
    ensures var w := Isolation.Run(Shop(), start, events).value;
            && InTurn(start, w.commits) == Some(w.shop) && Kept(start, w.shop)
            && |w.shop.books.sales| == |start.books.sales| + Checkouts(w.commits)
  {
    var w := Isolation.Run(Shop(), start, events).value;
    RaceFreeIsSerial(start, events);
    SequentialIsInTurn(start, w.commits);
    InTurnKeeps(start, w.commits);
  }

  /** A kind of request that is in no race with its own kind. */
  predicate Plain(q: Request) { q.OfSale? || q.OfTransfer? || (q.OfExchange? && q.customer.None?) }

  ghost predicate OnlyBegins(events: seq<ShopEvent>, allowed: Request -> bool) {
    forall k | 0 <= k < |events| && events[k].Begin? :: allowed(events[k].request)
  }

  lemma {:induction false} BegunAsAllowed(start: Tables, events: seq<ShopEvent>, allowed: Request -> bool)
    requires Isolation.Run(Shop(), start, events).Some? && OnlyBegins(events, allowed)
    ensures forall i | 0 <= i < |Isolation.Run(Shop(), start, events).value.txns| :: allowed(Isolation.Run(Shop(), start, events).value.txns[i].request)
  {
    if events != [] {
      BegunAsAllowed(start, events[..|events| - 1], allowed);
    }
  }

  /** Sales, walk-in exchanges and single transfers need no condition at all. */
  lemma {:induction false} PlainRequestsNeverRace(start: Tables, events: seq<ShopEvent>)
    requires Runs.Invariant(start) && Isolation.Run(Shop(), start, events).Some? && OnlyBegins(events, Plain)
    ensures var w := Isolation.Run(Shop(), start, events).value;
            InTurn(start, w.commits) == Some(w.shop) && Kept(start, w.shop)
  {
    forall n | 0 <= n <= |events| && Isolation.Run(Shop(), start, events[..n]).Some?
      ensures RaceFree(Isolation.Run(Shop(), start, events[..n]).value)
    {
      BegunAsAllowed(start, events[..n], Plain);
    }
    InterleavedAsInTurn(start, events);
  }

  // ------------------------------------------------------------------
  // Conservation needs no condition.

  predicate IsTransfer(q: Request) { q.OfTransfer? || q.OfBatch? }

  lemma {:induction false} MoveAllReadStock(inv: Inventory, same: Inventory, read: map<Shelf, int>, source: Id, destination: Id, items: seq<Portion>, reference: Ref)
    requires inv.stock == same.stock
    ensures MoveAllRead(inv, read, source, destination, items, reference).stock == MoveAll(same, source, destination, items, reference).stock
    decreases |items|
  {
    if items != [] {
      var from, to := Shelf(items[0].product, source), Shelf(items[0].product, destination);
      MoveAllReadStock(MoveRead(inv, source, destination, items[0], reference, QuantityAt(read, from), QuantityAt(read, to)),
                       MoveOne(same, source, destination, items[0], reference), read, source, destination, items[1..], reference);
    }
  }

  lemma {:induction false} BodyConserves(t: Tables, q: Request, seen: Seen, product: Id)
    requires IsTransfer(q) && BodyOf(t, q, seen).Some?
    ensures Total(BodyOf(t, q, seen).value.inventory.stock, product) == Total(t.inventory.stock, product)
  {
    match q
    case OfTransfer(dto) =>
      var item, ref := Portion(dto.product, dto.quantity), TransferRef(TransferRowOf(t, dto).id);
      MoveOneConserves(t.inventory, dto.source, dto.destination, item, ref, product);
      assert BodyOf(t, q, seen).value.inventory.stock == MoveOne(t.inventory, dto.source, dto.destination, item, ref).stock;
    case OfBatch(id, p) =>
      MoveAllConserves(t.inventory, p.source, p.destination, p.items, BatchRef(Given(id)), product);
      MoveAllReadStock(t.inventory, t.inventory, StockRead(seen), p.source, p.destination, p.items, BatchRef(Given(id)));
    case _ =>
  }

  /** However transfers interleave, races included, every product's total over all branches is unchanged. */
  lemma {:induction false} TransfersConserveInterleaved(start: Tables, events: seq<ShopEvent>, product: Id)
    requires Isolation.Run(Shop(), start, events).Some? && OnlyBegins(events, IsTransfer)
    ensures Total(Isolation.Run(Shop(), start, events).value.shop.inventory.stock, product) == Total(start.inventory.stock, product)
  {
    if events != [] {
      var n := |events| - 1;
      TransfersConserveInterleaved(start, events[..n], product);
      BegunAsAllowed(start, events[..n], IsTransfer);
      var w := Isolation.Run(Shop(), start, events[..n]).value;
      if events[n].Commit? {
        var t := w.txns[events[n].i];
        BodyConserves(w.shop, t.request, t.seen, product);
      }
    }
  }

  // ------------------------------------------------------------------
  // The protocols around the transactions.

  datatype Basket = CartOf(sale: SaleDto) | SwapOf(swap: ExchangeDto)

  /** The transaction of a checkout request: None when it throws. */
  function CheckoutBody(t: Tables, r: SaleProtocol.Request<Basket>, id: Id): Option<Tables> {
    match r.payload
    case CartOf(dto) => if SaleSpec(t, dto).0.Ok? then Some(SaleSpec(t, dto).1) else None
    case SwapOf(dto) => if ExchangeSpec(t, dto).0.Ok? then Some(ExchangeSpec(t, dto).1) else None
  }

  /** The protocol request whose transaction this is. */
  predicate IsFor(q: Request, basket: Basket) {
    match basket
    case CartOf(dto) => q == OfSale(dto)
    case SwapOf(dto) => q.OfExchange? && q.swap == dto
  }

  predicate SameCheckouts(requests: seq<Request>, commits: seq<SaleProtocol.CommitRecord<Basket>>) {
    |requests| == |commits| && forall c | 0 <= c < |commits| :: IsFor(requests[c], commits[c].request.payload)
  }

  lemma {:induction false} SameCheckoutsSameShop(start: Tables, requests: seq<Request>, commits: seq<SaleProtocol.CommitRecord<Basket>>)
    requires SameCheckouts(requests, commits) && InTurn(start, requests).Some?
    ensures SaleProtocol.Sequential(CheckoutBody, start, commits) == InTurn(start, requests) && Checkouts(requests) == |commits|
    decreases |commits|
  {
    if commits != [] {
      SameCheckoutsSameShop(start, requests[..|requests| - 1], commits[..|commits| - 1]);
    }
  }

  /**
   * The checkout protocol, and the statements of the transactions it lets through: when both commit
   * the same requests in the same order and the statements are free of races, the protocol's tables,
   * where a transaction takes effect at its commit, are the tables of the interleaved statements.
   */
  lemma {:induction false} CheckoutsInterleaved(hash: SaleProtocol.LockHash, start: Tables, protocol: seq<SaleProtocol.Event<Basket>>, events: seq<ShopEvent>)
    requires Runs.Invariant(start) && SaleProtocol.Run(CheckoutBody, hash, start, protocol).Some?
    requires Isolation.Run(Shop(), start, events).Some? && AlwaysRaceFree(start, events)
    requires SameCheckouts(Isolation.Run(Shop(), start, events).value.commits, SaleProtocol.Run(CheckoutBody, hash, start, protocol).value.commits)
    ensures var w, p := Isolation.Run(Shop(), start, events).value, SaleProtocol.Run(CheckoutBody, hash, start, protocol).value;
            w.shop == p.shop && Kept(start, p.shop) && |p.shop.books.sales| == |start.books.sales| + |p.commits|
  {
    var w, p := Isolation.Run(Shop(), start, events).value, SaleProtocol.Run(CheckoutBody, hash, start, protocol).value;
    InterleavedAsInTurn(start, events);
    SaleProtocol.ShopIsSequential(CheckoutBody, hash, start, protocol);
    SameCheckoutsSameShop(start, w.commits, p.commits);
  }

  function BatchBody(t: Tables, r: BatchProtocol.Request<BatchPayload>): Option<(Tables, BatchResult)> {
    if Proper(r.payload) && CheckBatch(t, r.payload).Ok? then
      Some((ApplyBatch(t, Given(r.batch), r.payload), BatchReply(t, Given(r.batch), r.payload)))
    else None
  }

  predicate SameBatches(requests: seq<Request>, commits: seq<BatchProtocol.CommitRecord<BatchPayload, BatchResult>>) {
    |requests| == |commits|
    && forall c | 0 <= c < |commits| :: requests[c] == OfBatch(commits[c].request.batch, commits[c].request.payload)
  }

  lemma {:induction false} InTurnCons(start: Tables, requests: seq<Request>)
    requires requests != [] && Atomic(start, requests[0]).Some?
    ensures InTurn(start, requests) == InTurn(Atomic(start, requests[0]).value, requests[1..])
  {
    var n := |requests| - 1;
    if n > 0 {
      InTurnCons(start, requests[..n]);
      assert requests[..n][1..] == requests[1..][..n - 1];
    } else {
      assert InTurn(start, requests[..0]) == Some(start);
    }
  }

  lemma {:induction false} SameBatchesSameShop(start: Tables, requests: seq<Request>, commits: seq<BatchProtocol.CommitRecord<BatchPayload, BatchResult>>, final: Tables)
    requires SameBatches(requests, commits) && BatchProtocol.Sequential(BatchBody, start, commits, final)
    ensures InTurn(start, requests) == Some(final)
    decreases |commits|
  {
    if commits != [] {
      var next := BatchBody(start, commits[0].request).value.0;
      InTurnCons(start, requests);
      SameBatchesSameShop(next, requests[1..], commits[1..], final);
    }
  }

  /** Likewise for the batch protocol; each stored answer is then the one of the batch run in its turn. */
  lemma {:induction false} BatchesInterleaved(start: Tables, protocol: seq<BatchProtocol.Event<BatchPayload>>, events: seq<ShopEvent>)
    requires Runs.Invariant(start) && BatchProtocol.Run(BatchBody, start, protocol).Some?
    requires Isolation.Run(Shop(), start, events).Some? && AlwaysRaceFree(start, events)
    requires SameBatches(Isolation.Run(Shop(), start, events).value.commits, BatchProtocol.Run(BatchBody, start, protocol).value.commits)
    ensures var w, p := Isolation.Run(Shop(), start, events).value, BatchProtocol.Run(BatchBody, start, protocol).value;
            w.shop == p.shop && Kept(start, p.shop)
  {
    var w, p := Isolation.Run(Shop(), start, events).value, BatchProtocol.Run(BatchBody, start, protocol).value;
    InterleavedAsInTurn(start, events);
    BatchProtocol.ShopIsSequential(BatchBody, start, protocol);
    SameBatchesSameShop(start, w.commits, p.commits, p.shop);
  }

  // ------------------------------------------------------------------
  // Single transfers run the same protocol on their own table: what is stored is the row.

  datatype Route = Route(source: Id, destination: Id, product: Id, quantity: int)

  function DtoOf(r: BatchProtocol.Request<Route>): TransferDto {
    TransferDto(Some(r.batch), r.payload.source, r.payload.destination, r.payload.product, r.payload.quantity)
  }

  function RowFor(r: BatchProtocol.Request<Route>): TransferRow {
    TransferRow(Given(r.batch), r.payload.product, r.payload.source, r.payload.destination, r.payload.quantity)
  }

  function SingleBody(t: Tables, r: BatchProtocol.Request<Route>): Option<(Tables, TransferRow)> {
    match Atomic(t, OfTransfer(DtoOf(r)))
    case None => None
    case Some(after) => Some((after, RowFor(r)))
  }

  type SingleCommit = BatchProtocol.CommitRecord<Route, TransferRow>

  predicate SameSingles(requests: seq<Request>, commits: seq<SingleCommit>) {
    |requests| == |commits| && forall c | 0 <= c < |commits| :: requests[c] == OfTransfer(DtoOf(commits[c].request))
  }

  lemma {:induction false} SameSinglesSameShop(start: Tables, requests: seq<Request>, commits: seq<SingleCommit>, final: Tables)
    requires SameSingles(requests, commits) && BatchProtocol.Sequential(SingleBody, start, commits, final)
    ensures InTurn(start, requests) == Some(final)
    decreases |commits|
  {
    if commits != [] {
      var next := SingleBody(start, commits[0].request).value.0;
      InTurnCons(start, requests);
      SameSinglesSameShop(next, requests[1..], commits[1..], final);
    }
  }

  /** The protocol's tables are those of the interleaved statements: single transfers are in no race among themselves. */
  lemma {:induction false} SinglesInterleaved(start: Tables, protocol: seq<BatchProtocol.Event<Route>>, events: seq<ShopEvent>)
    requires Runs.Invariant(start) && BatchProtocol.Run(SingleBody, start, protocol).Some?
    requires Isolation.Run(Shop(), start, events).Some? && OnlyBegins(events, Plain)
    requires SameSingles(Isolation.Run(Shop(), start, events).value.commits, BatchProtocol.Run(SingleBody, start, protocol).value.commits)
    ensures var w, p := Isolation.Run(Shop(), start, events).value, BatchProtocol.Run(SingleBody, start, protocol).value;
            w.shop == p.shop && Kept(start, p.shop)
  {
    var w, p := Isolation.Run(Shop(), start, events).value, BatchProtocol.Run(SingleBody, start, protocol).value;
    PlainRequestsNeverRace(start, events);
    BatchProtocol.ShopIsSequential(SingleBody, start, protocol);
    SameSinglesSameShop(start, w.commits, p.commits, p.shop);
  }

  function StoredRows(commits: seq<SingleCommit>): (r: seq<TransferRow>)
    ensures |r| == |commits| && forall c | 0 <= c < |r| :: r[c] == RowFor(commits[c].request)
  {
    seq(|commits|, c requires 0 <= c < |commits| => RowFor(commits[c].request))
  }

  lemma {:induction false} FirstSingle(start: Tables, commits: seq<SingleCommit>, final: Tables) returns (next: Tables)
    requires commits != [] && BatchProtocol.Sequential(SingleBody, start, commits, final)
    ensures next.transfers == start.transfers + [RowFor(commits[0].request)] && commits[0].result == RowFor(commits[0].request)
    ensures BatchProtocol.Sequential(SingleBody, next, commits[1..], final)
  {
    next := SingleBody(start, commits[0].request).value.0;
  }

  lemma {:induction false} RowsInOrder(before: seq<TransferRow>, commits: seq<SingleCommit>)
    requires commits != []
    ensures (before + [RowFor(commits[0].request)]) + StoredRows(commits[1..]) == before + StoredRows(commits)
  {}

  lemma {:induction false} SinglesAddRows(start: Tables, commits: seq<SingleCommit>, final: Tables)
    requires BatchProtocol.Sequential(SingleBody, start, commits, final)
    ensures final.transfers == start.transfers + StoredRows(commits)
    ensures forall c | 0 <= c < |commits| :: commits[c].result == RowFor(commits[c].request)
    decreases |commits|
  {
    if commits != [] {
      var next := FirstSingle(start, commits, final);
      SinglesAddRows(next, commits[1..], final);
      RowsInOrder(start.transfers, commits);
      forall c | 0 < c < |commits| ensures commits[c].result == RowFor(commits[c].request) {
        assert commits[c] == commits[1..][c - 1];
      }
    }
  }

  lemma {:induction false} FindAmong(before: seq<TransferRow>, more: seq<TransferRow>, c: nat)
    requires c < |more| && FindTransfer(before, more[c].id).None? && forall d | 0 <= d < c :: more[d].id != more[c].id
    ensures FindTransfer(before + more, more[c].id) == Some(more[c])
    decreases |before|, c
  {
    if before != [] {
      assert (before + more)[1..] == before[1..] + more;
      FindAmong(before[1..], more, c);
    } else {
      assert before + more == more;
      if c > 0 {
        assert [] + more[1..] == more[1..];
        FindAmong([], more[1..], c - 1);
      }
    }
  }

  /**
   * However calls for one transfer id race, retry and lose: a successful one carried the payload of
   * the one row stored under the id, which a single commit inserted.
   */
  lemma {:induction false} SingleTransferOnce(start: Tables, events: seq<BatchProtocol.Event<Route>>, i: nat)
    requires BatchProtocol.Run(SingleBody, start, events).Some?
    requires var w := BatchProtocol.Run(SingleBody, start, events).value;
             && i < |w.threads| && BatchProtocol.SuccessResult(w.threads[i].phase).Some?
             && FindTransfer(start.transfers, Given(w.threads[i].request.batch)).None?
    ensures var w := BatchProtocol.Run(SingleBody, start, events).value;
            var row := RowFor(w.threads[i].request);
            && BatchProtocol.SuccessResult(w.threads[i].phase) == Some(row)
            && FindTransfer(w.shop.transfers, row.id) == Some(row)
            && exists c :: 0 <= c < |w.commits| && w.commits[c].request == w.threads[i].request
                 && forall d | 0 <= d < |w.commits| && w.commits[d].request.batch == w.threads[i].request.batch :: d == c
  {
    var w := BatchProtocol.Run(SingleBody, start, events).value;
    BatchProtocol.ReachableInvariant(SingleBody, start, events);
    BatchProtocol.SuccessesAreOneBatch(SingleBody, start, events, i, i);
    BatchProtocol.ShopIsSequential(SingleBody, start, events);
    SinglesAddRows(start, w.commits, w.shop);
    var c :| 0 <= c < |w.commits| && w.commits[c].request == w.threads[i].request
      && w.commits[c].result == BatchProtocol.SuccessResult(w.threads[i].phase).value
      && forall d | 0 <= d < |w.commits| && w.commits[d].request.batch == w.threads[i].request.batch :: d == c;
    FindAmong(start.transfers, StoredRows(w.commits), c);
  }
}
