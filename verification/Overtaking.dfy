/** The two races, run: what an overtaken exchange and an overtaken batch leave behind. */
module Overtaking {
  import opened Wrappers
  import opened Tables
  import opened StockLog
  import opened StockTransfer
  import opened CashDesk
  import opened CustomerLedger
  import opened Checkout
  import opened Bookkeeping
  import opened Sales
  import opened Returns
  import opened Exchange
  import opened ExchangeLaws
  import opened ExchangeReplay
  import opened ProductStock
  import opened Frames
  import opened Runs
  import opened Isolation
  import opened Statements
  import opened Readings
  import opened Footprints
  import opened Races
  import opened Concurrency
  import LockOrder

  // ------------------------------------------------------------------
  // What an overtaken exchange posts.

  lemma {:induction false} CommittedExtends(t: Tables, read: seq<LedgerEntry>, dto: ExchangeDto, p: Plan)
    requires Consistent(p) && p.customer.Some? && CommitExchange(t.(ledger := read), dto, p).Ok?
    ensures Extends(t.ledger, Posted(t, read, CommitExchange(t.(ledger := read), dto, p).value.0).ledger, p.customer.value,
                    Posting(dto, p), Balance(read, p.customer.value))
  {
    SettlePosts(t.(ledger := read), dto, p, |t.books.sales|, |t.books.refunds|, ReturnNumber(t.books, p, dto.period));
  }

  /**
   * An exchange that commits on what it has read keeps the running index exactly when it posts
   * nothing or the balance it has read is still the customer's.
   */
  lemma {:induction false} StaleBalanceIff(t: Tables, dto: ExchangeDto, branch: Id, customer: Id, back: seq<Id>, seen: Seen)
    requires RunningIndex(t.ledger) && ExchangeAt(t, dto, branch, Some(customer), back, seen).Some?
    ensures RunningIndex(ExchangeAt(t, dto, branch, Some(customer), back, seen).value.ledger) <==>
              Posting(dto, PrepareExchange(ExchangeView(t, dto, seen), dto).value) == 0
              || Balance(EntriesRead(seen, Some(customer)), customer) == Balance(t.ledger, customer)
  {
    var p, read := PrepareExchange(ExchangeView(t, dto, seen), dto).value, EntriesRead(seen, Some(customer));
    PlanIsConsistent(ExchangeView(t, dto, seen), dto);
    CommittedExtends(t, read, dto, p);
    ExtendedIndex(t.ledger, ExchangeAt(t, dto, branch, Some(customer), back, seen).value.ledger, customer, Posting(dto, p), Balance(read, customer));
  }

  // ------------------------------------------------------------------
  // An exchange beside another that it does not wait for.

  /** Goods of an exchange, returned or taken. */
  ghost predicate Handles(q: Request, shelf: Shelf) {
    q.OfExchange? && shelf.branch == q.branch && (shelf.product in ProductsOf(q.swap.items) || shelf.product in q.back)
  }

  ghost predicate ShareNoGoods(a: Request, b: Request) {
    forall shelf | Handles(a, shelf) :: !Handles(b, shelf)
  }

  lemma {:induction false} ExchangeHandles(q: Request, k: nat)
    requires q.OfExchange? && k < |PlanOf(q)| && PlanOf(q)[k].region.StockRow?
    ensures Handles(q, PlanOf(q)[k].region.shelf)
  {
    var products, back := LockOrder.Distinct(ProductsOf(q.swap.items)), q.back;
    var n := |products| + 4 + |TakeCustomer(q.customer, Shared)|;
    if k < 2 + |products| {
      assert products[k - 2] in ProductsOf(q.swap.items);
    } else {
      assert PlanOf(q)[k] == Takes(q.branch, back)[k - n];
      assert back[k - n] in back;
    }
  }

  /** In the balance race, exchanges of different goods do not keep each other waiting; those of different branches always are. */
  lemma {:induction false} RacersDoNotCollide(a: Request, b: Request)
    requires BalanceRace(a, b) && ShareNoGoods(a, b)
    ensures !Collide(PlanOf(a), PlanOf(b))
  {
    forall k, l | 0 <= k < |PlanOf(a)| && 0 <= l < |PlanOf(b)| && Locks(PlanOf(a)[k]) && Locks(PlanOf(b)[l]) && PlanOf(a)[k].region == PlanOf(b)[l].region
      ensures ModeOf(PlanOf(a)[k]) == Shared && ModeOf(PlanOf(b)[l]) == Shared
    {
      ExchangeRegions(a.swap, a.branch, a.customer, a.back, k);
      ExchangeRegions(b.swap, b.branch, b.customer, b.back, l);
      if PlanOf(a)[k].region.StockRow? {
        ExchangeHandles(a, k);
        ExchangeHandles(b, l);
      }
    }
  }

  lemma {:induction false} NeighboursPass(t: Tables, a: Request, b: Request)
    requires a.OfExchange? && b.OfExchange? && !Collide(PlanOf(a), PlanOf(b))
    ensures PassBy(Shop(), t, PlanOf(a), PlanOf(b))
  {
    forall k, l | 0 <= k < |PlanOf(a)| && 0 <= l < |PlanOf(b)|
      && LocksAt(Shop(), t, PlanOf(a)[k]) && LocksAt(Shop(), t, PlanOf(b)[l]) && PlanOf(a)[k].region == PlanOf(b)[l].region
      ensures ModeOf(PlanOf(a)[k]) == Shared && ModeOf(PlanOf(b)[l]) == Shared
    {
      ExchangeRegions(a.swap, a.branch, a.customer, a.back, k);
      ExchangeRegions(b.swap, b.branch, b.customer, b.back, l);
    }
  }

  /** Apart from the account, what one reads the other does not lock. */
  lemma {:induction false} NeighboursReadApart(a: Request, b: Request, g: Region)
    requires a.OfExchange? && b.OfExchange? && !Collide(PlanOf(a), PlanOf(b))
    requires g in Regions(PlanOf(a)) && !g.CustomerRow?
    ensures !Locked(PlanOf(b), g)
  {
    var k :| 0 <= k < |PlanOf(a)| && !PlanOf(a)[k].Take? && PlanOf(a)[k].region == g;
    ExchangeReadings(a.swap, a.branch, a.customer, a.back, k);
    if Locked(PlanOf(b), g) {
      GuardedBy(PlanOf(a), PlanOf(b), if PlanOf(a)[k].Need? then k else 0, g);
    }
  }

  lemma {:induction false} ExchangeNeedsMet(t: Tables, q: Request)
    requires q.OfExchange? && Atomic(t, q).Some?
    ensures NeedsMet(Shop(), t, PlanOf(q))
  {
    var plan, products := PlanOf(q), LockOrder.Distinct(ProductsOf(q.swap.items));
    var lines := PrepareExchange(t, q.swap).value.lines;
    PreparedLinesAreSane(t.products, q.swap.items, true);
    forall k | 0 <= k < |plan| && plan[k].Need? ensures !Missing(ValueOf(t, plan[k].region)) {
      NeededIsInCart(q.swap, q.branch, q.customer, q.back, k);
      var i :| 0 <= i < |q.swap.items| && plan[k].region == StockRow(Shelf(q.swap.items[i].product, q.branch));
      assert Portions(lines)[i].product == q.swap.items[i].product;
    }
  }

  lemma {:induction false} NeededIsInCart(dto: ExchangeDto, branch: Id, customer: Option<Id>, back: seq<Id>, k: nat)
    requires k < |Statements.ExchangePlan(dto, branch, customer, back)| && Statements.ExchangePlan(dto, branch, customer, back)[k].Need?
    ensures exists i :: 0 <= i < |dto.items| && Statements.ExchangePlan(dto, branch, customer, back)[k].region == StockRow(Shelf(dto.items[i].product, branch))
  {
    var products := LockOrder.Distinct(ProductsOf(dto.items));
    assert 2 <= k < 2 + |products|;
    assert products[k - 2] in ProductsOf(dto.items);
    var i :| 0 <= i < |ProductsOf(dto.items)| && ProductsOf(dto.items)[i] == products[k - 2];
    assert dto.items[i].product == products[k - 2];
  }

  /** Readings of rows, not of accounts, that agree give one view. */
  lemma {:induction false} SameView(t: Tables, dto: ExchangeDto, a: Seen, b: Seen)
    requires a.Keys == b.Keys && forall g | g in a && !g.CustomerRow? :: a[g] == b[g]
    ensures ExchangeView(t, dto, a) == ExchangeView(t, dto, b)
  {
    assert StockRead(a) == StockRead(b);
  }

  lemma {:induction false} ReturnsOnGrownBooks(b: Books, grown: Books, sale: Id, items: seq<ReturnItem>)
    requires b.lines <= grown.lines && grown.returnLines == b.returnLines && PrepareReturns(b, sale, items).Ok?
    ensures PrepareReturns(grown, sale, items) == PrepareReturns(b, sale, items)
  {
    if items != [] {
      ReturnsOnGrownBooks(b, grown, sale, items[1..]);
    }
  }

  lemma {:induction false} PlanOnGrownBooks(t: Tables, after: Tables, dto: ExchangeDto, seen: Seen)
    requires Grows(t, after) && after.products == t.products && PrepareExchange(ExchangeView(t, dto, seen), dto).Ok?
    ensures PrepareExchange(ExchangeView(after, dto, seen), dto) == PrepareExchange(ExchangeView(t, dto, seen), dto)
  {
    ReturnsOnGrownBooks(ExchangeView(t, dto, seen).books, ExchangeView(after, dto, seen).books, dto.sale, dto.goods);
  }

  /** Such a writer leaves the reader's readings true, except for the account. */
  lemma {:induction false} ReadingsSurvive(t: Tables, reader: Request, writer: Request)
    requires RowsBelong(t.books) && reader.OfExchange? && writer.OfExchange? && !Collide(PlanOf(reader), PlanOf(writer))
    requires Atomic(t, writer).Some?
    ensures var before, now := Snapshot(Shop(), t, reader), Snapshot(Shop(), Atomic(t, writer).value, reader);
            before.Keys == now.Keys && forall g | g in before && !g.CustomerRow? :: before[g] == now[g]
  {
    Footprint(t, writer);
    forall g | g in Regions(PlanOf(reader)) && !g.CustomerRow?
      ensures ValueOf(t, g) == ValueOf(Atomic(t, writer).value, g)
    {
      NeighboursReadApart(reader, writer, g);
    }
  }

  lemma {:induction false} SnapshotAgrees(t: Tables, q: Request)
    requires q.OfExchange? && (q.swap.sale < |t.books.sales| ==> t.books.sales[q.swap.sale].branch == q.branch)
    ensures PrepareExchange(ExchangeView(t, q.swap, Snapshot(Shop(), t, q)), q.swap) == PrepareExchange(t, q.swap)
  {
    var seen := Snapshot(Shop(), t, q);
    SnapshotIsTrue(t, q);
    ExchangeSees(t, q.swap, q.branch, q.customer, q.back);
    ExchangeChecksAgree(t, q.swap, q.branch, seen);
  }

  lemma {:induction false} AcceptedIsResolved(t: Tables, q: Request)
    requires q.OfExchange? && Atomic(t, q).Some?
    ensures q.swap.sale < |t.books.sales| && t.books.sales[q.swap.sale].branch == q.branch && PrepareExchange(t, q.swap).Ok?
  {}

  lemma {:induction false} PlanCarriesOver(t: Tables, after: Tables, dto: ExchangeDto, before: Seen, now: Seen)
    requires Grows(t, after) && after.products == t.products && PrepareExchange(t, dto).Ok?
    requires before.Keys == now.Keys && forall g | g in before && !g.CustomerRow? :: before[g] == now[g]
    requires PrepareExchange(ExchangeView(t, dto, before), dto) == PrepareExchange(t, dto)
    requires PrepareExchange(ExchangeView(after, dto, now), dto) == PrepareExchange(after, dto)
    ensures PrepareExchange(ExchangeView(after, dto, before), dto) == PrepareExchange(t, dto) == PrepareExchange(after, dto)
  {
    PlanOnGrownBooks(t, after, dto, before);
    SameView(after, dto, before, now);
  }

  lemma {:induction false} WriterGrows(t: Tables, writer: Request)
    requires writer.OfExchange? && Atomic(t, writer).Some?
    ensures var after := Atomic(t, writer).value;
            Grows(t, after) && after.products == t.products && after.inventory.stock.Keys == t.inventory.stock.Keys
            && after.till.sessions == t.till.sessions && after.ledger == ExchangeSpec(t, writer.swap).1.ledger
  {
    ExchangeGrows(t, writer.swap);
    ExchangeMovesItsTotals(t, writer.swap);
  }

  /** After it, an accepted exchange is planned as before. */
  lemma {:induction false} PlanSurvives(t: Tables, after: Tables, reader: Request, writer: Request)
    requires RowsBelong(t.books) && reader.OfExchange? && writer.OfExchange? && !Collide(PlanOf(reader), PlanOf(writer))
    requires Atomic(t, reader).Some? && Atomic(t, writer) == Some(after)
    ensures var seen := Snapshot(Shop(), t, reader);
            PrepareExchange(ExchangeView(after, reader.swap, seen), reader.swap) == PrepareExchange(t, reader.swap) == PrepareExchange(after, reader.swap)
  {
    var before, now := Snapshot(Shop(), t, reader), Snapshot(Shop(), after, reader);
    AcceptedIsResolved(t, reader);
    SnapshotAgrees(t, reader);
    WriterGrows(t, writer);
    ReadingsSurvive(t, reader, writer);
    assert after.books.sales[reader.swap.sale] == t.books.sales[reader.swap.sale];
    SnapshotAgrees(after, reader);
    PlanCarriesOver(t, after, reader.swap, before, now);
  }

  lemma {:induction false} CommitIgnoresBalance(t: Tables, dto: ExchangeDto, p: Plan, read: seq<LedgerEntry>)
    requires CommitExchange(t, dto, p).Ok?
    ensures CommitExchange(t.(ledger := read), dto, p).Ok?
  {
    SettleOkOnAnyLedger(t, dto, p, read);
  }

  lemma {:induction false} SettleOkOnAnyLedger(t: Tables, dto: ExchangeDto, p: Plan, read: seq<LedgerEntry>)
    ensures forall sale, ret, number :: Settle(t.(ledger := read), dto, p, sale, ret, number).Ok? <==> Settle(t, dto, p, sale, ret, number).Ok?
  {}

  /** It would also be accepted after the other. */
  lemma {:induction false} AcceptedAfterwards(t: Tables, after: Tables, dto: ExchangeDto)
    requires ExchangeSpec(t, dto).0.Ok? && PrepareExchange(after, dto) == PrepareExchange(t, dto)
    requires after.inventory.stock.Keys == t.inventory.stock.Keys && after.till.sessions == t.till.sessions
    ensures CommitExchange(after, dto, PrepareExchange(t, dto).value).Ok?
  {
    ExchangeCommitsIff(t, dto);
    ExchangeCommitsIff(after, dto);
  }

  /** Its statements having run before the other's commit, it still commits. */
  lemma {:induction false} OvertakenCommits(t: Tables, after: Tables, reader: Request, writer: Request)
    requires RowsBelong(t.books) && reader.OfExchange? && writer.OfExchange? && !Collide(PlanOf(reader), PlanOf(writer))
    requires Atomic(t, reader).Some? && Atomic(t, writer) == Some(after)
    ensures BodyOf(after, reader, Snapshot(Shop(), t, reader)).Some?
    ensures PrepareExchange(ExchangeView(after, reader.swap, Snapshot(Shop(), t, reader)), reader.swap) == PrepareExchange(t, reader.swap)
  {
    var seen := Snapshot(Shop(), t, reader);
    PlanSurvives(t, after, reader, writer);
    WriterGrows(t, writer);
    AcceptedAfterwards(t, after, reader.swap);
    CommitIgnoresBalance(after, reader.swap, PrepareExchange(t, reader.swap).value, EntriesRead(seen, reader.customer));
  }

  lemma {:induction false} AllReadThenOvertaken(t: Tables, after: Tables, reader: Request, writer: Request) returns (events: seq<ShopEvent>, w: ShopWorld)
    requires PassBy(Shop(), t, PlanOf(reader), PlanOf(writer)) && Alone(Shop(), t, writer) == Some(after)
    requires NeedsMet(Shop(), t, PlanOf(reader)) && NeedsMet(Shop(), t, PlanOf(writer))
    requires BodyOf(after, reader, Snapshot(Shop(), t, reader)).Some?
    ensures Isolation.Run(Shop(), t, events) == Some(w) && w.commits == [writer, reader]
    ensures BodyOf(after, reader, Snapshot(Shop(), t, reader)) == Some(w.shop)
  {
    var plan := PlanOf(reader);
    assert plan[..|plan|] == plan;
    events, w := WriterOvertakesReadings(Shop(), t, after, reader, |plan|, writer);
  }

  lemma {:induction false} ExchangesOvertake(t: Tables, after: Tables, reader: Request, writer: Request) returns (events: seq<ShopEvent>, w: ShopWorld)
    requires RowsBelong(t.books) && reader.OfExchange? && writer.OfExchange? && !Collide(PlanOf(reader), PlanOf(writer))
    requires Atomic(t, reader).Some? && Atomic(t, writer) == Some(after)
    ensures Isolation.Run(Shop(), t, events) == Some(w) && w.commits == [writer, reader]
    ensures BodyOf(after, reader, Snapshot(Shop(), t, reader)) == Some(w.shop)
  {
    NeighboursPass(t, reader, writer);
    ExchangeNeedsMet(t, reader);
    ExchangeNeedsMet(t, writer);
    AloneIsAtomic(t, writer);
    OvertakenCommits(t, after, reader, writer);
    events, w := AllReadThenOvertaken(t, after, reader, writer);
  }

  lemma {:induction false} SnapshotBalance(t: Tables, reader: Request, customer: Id)
    requires reader.OfExchange? && reader.customer == Some(customer)
    ensures Balance(EntriesRead(Snapshot(Shop(), t, reader), reader.customer), customer) == Balance(t.ledger, customer)
  {
    SnapshotIsTrue(t, reader);
    ExchangeSees(t, reader.swap, reader.branch, reader.customer, reader.back);
    LedgerIsSeen(t, Snapshot(Shop(), t, reader), reader.customer);
    EntriesCount(t.ledger, customer);
  }

  /** The request as an exchange that the tables accept and that changes its customer's balance. */
  predicate PostsTo(t: Tables, q: Request, customer: Id) {
    q.OfExchange? && q.customer == Some(customer) && Atomic(t, q).Some? && Posting(q.swap, PrepareExchange(t, q.swap).value) != 0
  }

  /**
   * Whenever two exchanges of different goods are in the balance race, are each acceptable and each
   * post to the account, their statements can interleave so that both commit and the second entry
   * carries a balance that is not the customer's.
   */
  lemma {:induction false} BalanceRaceBreaksIndex(t: Tables, reader: Request, writer: Request, customer: Id) returns (events: seq<ShopEvent>, w: ShopWorld)
    requires RowsBelong(t.books) && RunningIndex(t.ledger) && PostsTo(t, reader, customer) && PostsTo(t, writer, customer)
    requires BalanceRace(reader, writer) && ShareNoGoods(reader, writer)
    ensures Isolation.Run(Shop(), t, events) == Some(w) && w.commits == [writer, reader]
    ensures !RunningIndex(w.shop.ledger)
  {
    var after, seen := Atomic(t, writer).value, Snapshot(Shop(), t, reader);
    RacersDoNotCollide(reader, writer);
    events, w := ExchangesOvertake(t, after, reader, writer);
    OvertakenCommits(t, after, reader, writer);
    ExchangePosting(t, writer.swap, customer);
    ExchangeKeepsLedger(t, writer.swap);
    SnapshotBalance(t, reader, customer);
    StaleBalanceIff(after, reader.swap, reader.branch, customer, reader.back, seen);
  }

  // ------------------------------------------------------------------
  // What an overtaken batch logs.

  lemma {:induction false} ChainedPrefix(moves: seq<Movement>, n: nat)
    requires Chained(moves) && n <= |moves|
    ensures Chained(moves[..n])
  {
    if n < |moves| {
      ChainedPrefix(moves[..|moves| - 1], n);
      assert moves[..|moves| - 1][..n] == moves[..n];
    } else {
      assert moves[..n] == moves;
    }
  }

  lemma {:induction false} MoveAllReadExtends(inv: Inventory, read: map<Shelf, int>, source: Id, destination: Id, items: seq<Portion>, reference: Ref)
    ensures inv.moves <= MoveAllRead(inv, read, source, destination, items, reference).moves
    decreases |items|
  {
    if items != [] {
      var from, to := Shelf(items[0].product, source), Shelf(items[0].product, destination);
      MoveAllReadExtends(MoveRead(inv, source, destination, items[0], reference, QuantityAt(read, from), QuantityAt(read, to)),
                         read, source, destination, items[1..], reference);
    }
  }

  lemma {:induction false} StaleMoveBreaks(inv: Inventory, source: Id, destination: Id, item: Portion, reference: Ref, before: int, there: int)
    requires Faithful(inv) && source != destination && there != QuantityAt(inv.stock, Shelf(item.product, destination))
    ensures !Chained(MoveRead(inv, source, destination, item, reference, before, there).moves)
  {
    var from, to := Shelf(item.product, source), Shelf(item.product, destination);
    var after := MoveRead(inv, source, destination, item, reference, before, there).moves;
    var mid := inv.moves + [after[|inv.moves|]];
    assert after[..|after| - 1] == mid && mid[..|inv.moves|] == inv.moves;
    assert LastResult(mid, to) == LastResult(inv.moves, to);
  }

  ghost predicate SourcesAgree(read: map<Shelf, int>, stock: map<Shelf, int>, source: Id, items: seq<Portion>) {
    forall i | 0 <= i < |items| :: QuantityAt(read, Shelf(items[i].product, source)) == QuantityAt(stock, Shelf(items[i].product, source))
  }

  ghost predicate DestinationsAgree(read: map<Shelf, int>, stock: map<Shelf, int>, destination: Id, items: seq<Portion>) {
    forall i | 0 <= i < |items| :: QuantityAt(read, Shelf(items[i].product, destination)) == QuantityAt(stock, Shelf(items[i].product, destination))
  }

  lemma {:induction false} CoversAfterMove(inv: Inventory, source: Id, destination: Id, items: seq<Portion>, reference: Ref)
    requires items != [] && Ascending(items) && Covers(inv.stock, source, items)
    ensures Covers(MoveOne(inv, source, destination, items[0], reference).stock, source, items[1..])
  {
    var next := MoveOne(inv, source, destination, items[0], reference);
    forall i | 0 < i < |items|
      ensures Shelf(items[i].product, source) in next.stock && items[i].quantity <= next.stock[Shelf(items[i].product, source)]
    {
      MoveOneTouchesOneProduct(inv, source, destination, items[0], reference, Shelf(items[i].product, source));
    }
  }

  lemma {:induction false} AgreementAfterMove(inv: Inventory, read: map<Shelf, int>, source: Id, destination: Id, items: seq<Portion>, reference: Ref)
    requires items != [] && Ascending(items)
    ensures var next := MoveOne(inv, source, destination, items[0], reference).stock;
            && (SourcesAgree(read, inv.stock, source, items) ==> SourcesAgree(read, next, source, items[1..]))
            && (QuantityAt(read, Shelf(items[0].product, destination)) == QuantityAt(inv.stock, Shelf(items[0].product, destination)) ==>
                  (DestinationsAgree(read, inv.stock, destination, items) <==> DestinationsAgree(read, next, destination, items[1..])))
  {
    var next := MoveOne(inv, source, destination, items[0], reference).stock;
    forall i | 0 < i < |items|
      ensures QuantityAt(next, Shelf(items[i].product, source)) == QuantityAt(inv.stock, Shelf(items[i].product, source))
      ensures QuantityAt(next, Shelf(items[i].product, destination)) == QuantityAt(inv.stock, Shelf(items[i].product, destination))
    {
      MoveOneTouchesOneProduct(inv, source, destination, items[0], reference, Shelf(items[i].product, source));
      MoveOneTouchesOneProduct(inv, source, destination, items[0], reference, Shelf(items[i].product, destination));
    }
    assert forall i | 0 < i < |items| :: items[1..][i - 1] == items[i];
  }

  /** A batch that commits on what it has read keeps the log a chain exactly when every destination still holds what was read. */
  lemma {:induction false} StaleRowsIff(inv: Inventory, read: map<Shelf, int>, source: Id, destination: Id, items: seq<Portion>, reference: Ref)
    requires Faithful(inv) && Positive(items) && Ascending(items) && source != destination
    requires Covers(inv.stock, source, items) && SourcesAgree(read, inv.stock, source, items)
    ensures Chained(MoveAllRead(inv, read, source, destination, items, reference).moves) <==> DestinationsAgree(read, inv.stock, destination, items)
    decreases |items|
  {
    if items != [] {
      var from, to := Shelf(items[0].product, source), Shelf(items[0].product, destination);
      var next := MoveRead(inv, source, destination, items[0], reference, QuantityAt(read, from), QuantityAt(read, to));
      if QuantityAt(read, to) == QuantityAt(inv.stock, to) {
        MoveReadIsMove(inv, source, destination, items[0], reference);
        MoveOneKeepsFaithful(inv, source, destination, items[0], reference);
        CoversAfterMove(inv, source, destination, items, reference);
        AgreementAfterMove(inv, read, source, destination, items, reference);
        StaleRowsIff(next, read, source, destination, items[1..], reference);
      } else {
        StaleMoveBreaks(inv, source, destination, items[0], reference, QuantityAt(read, from), QuantityAt(read, to));
        MoveAllReadExtends(next, read, source, destination, items[1..], reference);
        var all := MoveAllRead(next, read, source, destination, items[1..], reference).moves;
        assert all[..|next.moves|] == next.moves;
        if Chained(all) {
          ChainedPrefix(all, |next.moves|);
        }
      }
    }
  }

  // ------------------------------------------------------------------
  // A batch beside a transfer that creates the same row.

  ghost predicate Touches(q: Request, shelf: Shelf) {
    exists k :: 0 <= k < |PlanOf(q)| && PlanOf(q)[k].region == StockRow(shelf)
  }

  /** The two share no row that exists. */
  ghost predicate ShareNoRow(t: Tables, a: Request, b: Request) {
    forall shelf | shelf in t.inventory.stock && Touches(a, shelf) :: !Touches(b, shelf)
  }

  lemma {:induction false} TransferRegions(q: Request, k: nat)
    requires IsTransfer(q) && k < |PlanOf(q)|
    ensures PlanOf(q)[k].region.StockRow? && Touches(q, PlanOf(q)[k].region.shelf)
    ensures PlanOf(q)[k].Need? ==> if q.OfTransfer? then PlanOf(q)[k].region.shelf == Shelf(q.single.product, q.single.source)
                                   else exists i :: 0 <= i < |q.batch.items| && PlanOf(q)[k].region.shelf == Shelf(q.batch.items[i].product, q.batch.source)
  {
    if q.OfBatch? {
      var p := q.batch;
      var plan, products, n := BatchPlan(p), MovedProducts(p.items), |p.items|;
      if plan[k].Need? {
        var i := if p.source < p.destination then k else k - n;
        assert plan[k] == Needs(p.source, products)[i];
      }
    }
  }

  lemma {:induction false} TransferNeedsMet(t: Tables, q: Request)
    requires IsTransfer(q) && Atomic(t, q).Some?
    ensures NeedsMet(Shop(), t, PlanOf(q))
  {
    forall k | 0 <= k < |PlanOf(q)| && PlanOf(q)[k].Need? ensures !Missing(ValueOf(t, PlanOf(q)[k].region)) {
      TransferRegions(q, k);
    }
  }

  /** Rows fetched that exist are not among the other's, and rows that do not exist lock nothing. */
  lemma {:induction false} ApartStepsPass(t: Tables, a: seq<Isolation.Step<Region>>, b: seq<Isolation.Step<Region>>)
    requires forall k | 0 <= k < |a| :: (a[k].Need? || a[k].Find?) && a[k].region.StockRow?
    requires forall k | 0 <= k < |a| && a[k].Need? :: a[k].region.shelf in t.inventory.stock
    requires forall k, l | 0 <= k < |a| && 0 <= l < |b| && a[k].region.shelf in t.inventory.stock :: b[l].region != a[k].region
    ensures PassBy(Shop(), t, a, b)
  {
    forall k | 0 <= k < |a| && LocksAt(Shop(), t, a[k]) ensures a[k].region.shelf in t.inventory.stock {
      assert ValueOf(t, a[k].region) == Quantity(None) <==> a[k].region.shelf !in t.inventory.stock;
    }
  }

  lemma {:induction false} FetchedStep(id: Id, p: BatchPayload, k: nat)
    requires Proper(p) && k < |BatchFetches(p)|
    ensures var step := BatchFetches(p)[k];
            && (step.Need? || step.Find?) && step.region.StockRow? && PlanOf(OfBatch(id, p))[k] == step
            && Touches(OfBatch(id, p), step.region.shelf)
  {
    assert PlanOf(OfBatch(id, p))[k] == BatchFetches(p)[k];
  }

  lemma {:induction false} FetchesPass(t: Tables, reader: Request, writer: Request)
    requires reader.OfBatch? && Proper(reader.batch) && IsTransfer(writer) && ShareNoRow(t, reader, writer) && NeedsMet(Shop(), t, PlanOf(reader))
    ensures PassBy(Shop(), t, PlanOf(reader)[..|BatchFetches(reader.batch)|], PlanOf(writer))
  {
    var fetches, b := BatchFetches(reader.batch), PlanOf(writer);
    forall k | 0 <= k < |fetches|
      ensures (fetches[k].Need? || fetches[k].Find?) && fetches[k].region.StockRow?
      ensures fetches[k].Need? ==> fetches[k].region.shelf in t.inventory.stock
      ensures fetches[k].region.shelf in t.inventory.stock ==> forall l | 0 <= l < |b| :: b[l].region != fetches[k].region
    {
      FetchedStep(reader.id, reader.batch, k);
      if l :| 0 <= l < |b| && b[l].region == fetches[k].region {
        assert Touches(writer, fetches[k].region.shelf);
      }
    }
    assert PlanOf(reader)[..|fetches|] == fetches;
    ApartStepsPass(t, fetches, b);
  }

  /** The batch passes its checks on what it read, whatever has been committed since. */
  lemma {:induction false} BatchStillCommits(t: Tables, after: Tables, id: Id, p: BatchPayload)
    requires Proper(p) && CheckBatch(t, p).Ok? && after.branches == t.branches && after.products == t.products
    ensures BatchAt(after, id, p, Snapshot(Shop(), t, OfBatch(id, p))).Some?
  {
    var seen := Snapshot(Shop(), t, OfBatch(id, p));
    SnapshotIsTrue(t, OfBatch(id, p));
    BatchReadAgrees(t, id, p);
    CoversAsRead(t, seen, p.source, p.items);
    BatchChecksAgree(t, p, seen);
  }

  lemma {:induction false} TakesComeLast(id: Id, p: BatchPayload)
    requires Proper(p)
    ensures |BatchFetches(p)| <= |PlanOf(OfBatch(id, p))|
    ensures forall k | |BatchFetches(p)| <= k < |PlanOf(OfBatch(id, p))| :: PlanOf(OfBatch(id, p))[k].Take?
  {
    assert PlanOf(OfBatch(id, p)) == BatchFetches(p) + Takes(p.destination, MovedProducts(p.items));
  }

  /** Both have the rows they need, and the batch's fetches keep nobody waiting. */
  lemma {:induction false} BothAreReady(t: Tables, id: Id, p: BatchPayload, writer: Request)
    requires Proper(p) && CheckBatch(t, p).Ok? && IsTransfer(writer) && Atomic(t, writer).Some? && ShareNoRow(t, OfBatch(id, p), writer)
    ensures NeedsMet(Shop(), t, PlanOf(OfBatch(id, p))) && NeedsMet(Shop(), t, PlanOf(writer))
    ensures |BatchFetches(p)| <= |PlanOf(OfBatch(id, p))| && PassBy(Shop(), t, PlanOf(OfBatch(id, p))[..|BatchFetches(p)|], PlanOf(writer))
  {
    TransferNeedsMet(t, OfBatch(id, p));
    TransferNeedsMet(t, writer);
    TakesComeLast(id, p);
    FetchesPass(t, OfBatch(id, p), writer);
  }

  lemma {:induction false} BatchesOvertake(t: Tables, after: Tables, id: Id, p: BatchPayload, writer: Request) returns (events: seq<ShopEvent>, w: ShopWorld)
    requires Proper(p) && CheckBatch(t, p).Ok? && IsTransfer(writer) && Atomic(t, writer) == Some(after) && ShareNoRow(t, OfBatch(id, p), writer)
    ensures Isolation.Run(Shop(), t, events) == Some(w) && w.commits == [writer, OfBatch(id, p)]
    ensures BatchAt(after, id, p, Snapshot(Shop(), t, OfBatch(id, p))) == Some(w.shop)
  {
    BothAreReady(t, id, p, writer);
    AloneIsAtomic(t, writer);
    KeepsCatalogue(t, after, writer);
    BatchStillCommits(t, after, id, p);
    TakesComeLast(id, p);
    events, w := FetchedThenOvertaken(t, after, OfBatch(id, p), |BatchFetches(p)|, writer);
  }

  lemma {:induction false} KeepsCatalogue(t: Tables, after: Tables, writer: Request)
    requires IsTransfer(writer) && Atomic(t, writer) == Some(after)
    ensures after.branches == t.branches && after.products == t.products
  {}

  lemma {:induction false} FetchedThenOvertaken(t: Tables, after: Tables, reader: Request, n: nat, writer: Request) returns (events: seq<ShopEvent>, w: ShopWorld)
    requires n <= |PlanOf(reader)| && PassBy(Shop(), t, PlanOf(reader)[..n], PlanOf(writer)) && Alone(Shop(), t, writer) == Some(after)
    requires NeedsMet(Shop(), t, PlanOf(reader)) && NeedsMet(Shop(), t, PlanOf(writer))
    requires forall k | n <= k < |PlanOf(reader)| :: PlanOf(reader)[k].Take?
    requires BodyOf(after, reader, Snapshot(Shop(), t, reader)).Some?
    ensures Isolation.Run(Shop(), t, events) == Some(w) && w.commits == [writer, reader]
    ensures BodyOf(after, reader, Snapshot(Shop(), t, reader)) == Some(w.shop)
  {
    events, w := WriterOvertakesReadings(Shop(), t, after, reader, n, writer);
  }

  lemma {:induction false} MoveAllArrives(inv: Inventory, source: Id, destination: Id, items: seq<Portion>, reference: Ref, i: nat)
    requires i < |items| && Ascending(items) && source != destination
    ensures var to := Shelf(items[i].product, destination);
            QuantityAt(MoveAll(inv, source, destination, items, reference).stock, to) == QuantityAt(inv.stock, to) + items[i].quantity
    decreases |items|
  {
    var next, to := MoveOne(inv, source, destination, items[0], reference), Shelf(items[i].product, destination);
    if i == 0 {
      MoveAllTouches(next, source, destination, items[1..], reference, to);
    } else {
      MoveOneTouchesOneProduct(inv, source, destination, items[0], reference, to);
      MoveAllArrives(next, source, destination, items[1..], reference, i - 1);
    }
  }

  /** The created row holds something. */
  lemma {:induction false} CreatedIsPositive(t: Tables, q: Request, shelf: Shelf)
    requires IsTransfer(q) && Atomic(t, q).Some? && Creates(t, q, shelf)
    ensures QuantityAt(Atomic(t, q).value.inventory.stock, shelf) > 0
  {
    match q
    case OfTransfer(dto) =>
    case OfBatch(id, p) =>
      var i :| 0 <= i < |p.items| && shelf == Shelf(p.items[i].product, p.destination);
      MoveAllArrives(t.inventory, p.source, p.destination, p.items, BatchRef(Given(id)), i);
    case _ =>
  }

  lemma {:induction false} SourceIsTouched(id: Id, p: BatchPayload, i: nat)
    requires Proper(p) && i < |p.items|
    ensures Touches(OfBatch(id, p), Shelf(p.items[i].product, p.source))
  {
    var first, second := FetchedIn(p, i);
    assert PlanOf(OfBatch(id, p))[first].region == StockRow(Shelf(p.items[i].product, p.source));
  }

  lemma {:induction false} UntouchedStays(t: Tables, writer: Request, shelf: Shelf)
    requires RowsBelong(t.books) && Atomic(t, writer).Some? && !Touches(writer, shelf)
    ensures ValueOf(Atomic(t, writer).value, StockRow(shelf)) == ValueOf(t, StockRow(shelf))
  {
    Footprint(t, writer);
  }

  lemma {:induction false} SourceStays(t: Tables, after: Tables, id: Id, p: BatchPayload, writer: Request, i: nat)
    requires RowsBelong(t.books) && Proper(p) && Covers(t.inventory.stock, p.source, p.items) && i < |p.items|
    requires Atomic(t, writer) == Some(after) && ShareNoRow(t, OfBatch(id, p), writer)
    ensures var from := Shelf(p.items[i].product, p.source); from in after.inventory.stock && after.inventory.stock[from] == t.inventory.stock[from]
  {
    SourceIsTouched(id, p, i);
    UntouchedStays(t, writer, Shelf(p.items[i].product, p.source));
  }

  lemma {:induction false} SourcesStay(t: Tables, after: Tables, id: Id, p: BatchPayload, writer: Request)
    requires RowsBelong(t.books) && Proper(p) && Covers(t.inventory.stock, p.source, p.items)
    requires Atomic(t, writer) == Some(after) && ShareNoRow(t, OfBatch(id, p), writer)
    ensures var read := StockRead(Snapshot(Shop(), t, OfBatch(id, p)));
            Covers(after.inventory.stock, p.source, p.items) && SourcesAgree(read, after.inventory.stock, p.source, p.items)
  {
    BatchReadAgrees(t, id, p);
    forall i | 0 <= i < |p.items| { SourceStays(t, after, id, p, writer, i); }
  }

  lemma {:induction false} TransfersKeepFaithful(t: Tables, q: Request)
    requires IsTransfer(q) && Faithful(t.inventory) && Atomic(t, q).Some?
    ensures Faithful(Atomic(t, q).value.inventory)
    ensures Atomic(t, q).value.branches == t.branches && Atomic(t, q).value.products == t.products
  {
    match q
    case OfTransfer(dto) => TransferKeepsFaithful(t, dto);
    case OfBatch(id, p) => MoveAllKeepsFaithful(t.inventory, p.source, p.destination, p.items, BatchRef(Given(id)));
    case _ =>
  }

  lemma {:induction false} ReadAsMissing(t: Tables, id: Id, p: BatchPayload, shelf: Shelf) returns (i: nat)
    requires Proper(p) && Creates(t, OfBatch(id, p), shelf)
    ensures i < |p.items| && shelf == Shelf(p.items[i].product, p.destination)
    ensures QuantityAt(StockRead(Snapshot(Shop(), t, OfBatch(id, p))), shelf) == 0
  {
    i :| 0 <= i < |p.items| && shelf == Shelf(p.items[i].product, p.destination);
    BatchReadAgrees(t, id, p);
  }

  /**
   * Whenever a batch and another transfer, each acceptable, would create the same stock row and share
   * no row that exists, their statements can interleave so that both commit and the batch logs an
   * empty destination that is no longer empty.
   */
  lemma {:induction false} RowRaceBreaksChain(t: Tables, id: Id, p: BatchPayload, writer: Request, shelf: Shelf) returns (events: seq<ShopEvent>, w: ShopWorld)
    requires RowsBelong(t.books) && Faithful(t.inventory) && Atomic(t, OfBatch(id, p)).Some? && Atomic(t, writer).Some? && IsTransfer(writer)
    requires Creates(t, OfBatch(id, p), shelf) && Creates(t, writer, shelf) && ShareNoRow(t, OfBatch(id, p), writer)
    ensures Isolation.Run(Shop(), t, events) == Some(w) && w.commits == [writer, OfBatch(id, p)]
    ensures !Chained(w.shop.inventory.moves)
  {
    var after := Atomic(t, writer).value;
    BatchIsAcceptable(t, id, p);
    events, w := BatchesOvertake(t, after, id, p, writer);
    TransfersKeepFaithful(t, writer);
    SourcesStay(t, after, id, p, writer);
    CreatedIsPositive(t, writer, shelf);
    StaleBatchBreaks(t, after, id, p, shelf, w.shop);
  }

  lemma {:induction false} BatchIsAcceptable(t: Tables, id: Id, p: BatchPayload)
    requires Atomic(t, OfBatch(id, p)).Some?
    ensures Proper(p) && CheckBatch(t, p).Ok? && Covers(t.inventory.stock, p.source, p.items)
  {}

  lemma {:induction false} StaleBatchBreaks(t: Tables, after: Tables, id: Id, p: BatchPayload, shelf: Shelf, result: Tables)
    requires Faithful(after.inventory) && Proper(p) && Creates(t, OfBatch(id, p), shelf) && QuantityAt(after.inventory.stock, shelf) > 0
    requires Covers(after.inventory.stock, p.source, p.items)
    requires SourcesAgree(StockRead(Snapshot(Shop(), t, OfBatch(id, p))), after.inventory.stock, p.source, p.items)
    requires BatchAt(after, id, p, Snapshot(Shop(), t, OfBatch(id, p))) == Some(result)
    ensures !Chained(result.inventory.moves)
  {
    var read := StockRead(Snapshot(Shop(), t, OfBatch(id, p)));
    var i := ReadAsMissing(t, id, p, shelf);
    StaleRowsIff(after.inventory, read, p.source, p.destination, p.items, BatchRef(Given(id)));
  }
}
