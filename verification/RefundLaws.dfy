/** What comes back in a return, and how its value leaves, told by the request and the rows of the sale. */
module RefundLaws {
  import opened Wrappers
  import opened Sums
  import opened Tables
  import opened StockLog
  import opened CashDesk
  import opened CustomerLedger
  import opened Checkout
  import opened Bookkeeping
  import opened Returns
  import opened TillLaws
  import opened SaleLaws

  // ------------------------------------------------------------------
  // The goods.

  /** An item may come back: a positive quantity of a line of the sale, within what is left of it. */
  predicate MayComeBack(b: Books, sale: Id, item: ReturnItem) {
    && item.quantity > 0 && item.line < |b.lines| && b.lines[item.line].sale == sale
    && item.quantity + Returned(b.returnLines, item.line) <= b.lines[item.line].quantity
  }

  /** The price a line was sold for, before discounts, times what comes back of it. */
  function ListRefund(b: Books): ReturnItem -> Money {
    (item: ReturnItem) => if item.line < |b.lines| then b.lines[item.line].unitPrice * item.quantity else 0
  }

  function GoodsOf(b: Books, items: seq<ReturnItem>): (ps: seq<Portion>)
    ensures |ps| == |items|
    ensures forall i | 0 <= i < |ps| && items[i].line < |b.lines| :: ps[i] == Portion(b.lines[items[i].line].product, items[i].quantity)
  {
    seq(|items|, i requires 0 <= i < |items| => Portion(if items[i].line < |b.lines| then b.lines[items[i].line].product else 0, items[i].quantity))
  }

  /** The stored row of an item that came back. */
  function RowOf(b: Books, ret: Id, item: ReturnItem): ReturnLine
    requires item.line < |b.lines|
  {
    var line := b.lines[item.line];
    ReturnLine(ret, item.line, line.product, line.unitPrice, item.quantity, line.unitPrice * item.quantity)
  }

  predicate AllMayComeBack(b: Books, sale: Id, items: seq<ReturnItem>) {
    forall i | 0 <= i < |items| :: MayComeBack(b, sale, items[i])
  }

  /** The first item that may not come back decides: a positive quantity of no line of the sale is not found, anything else a bad request. */
  function ReturnFault(b: Books, sale: Id, items: seq<ReturnItem>): Failure {
    if items == [] then BadRequest
    else if MayComeBack(b, sale, items[0]) then ReturnFault(b, sale, items[1..])
    else if items[0].quantity > 0 && (items[0].line < |b.lines| ==> b.lines[items[0].line].sale != sale) then NotFound
    else BadRequest
  }

  lemma {:induction false} ComesBackIff(b: Books, sale: Id, items: seq<ReturnItem>)
    ensures PrepareReturns(b, sale, items).Ok? <==> AllMayComeBack(b, sale, items)
    ensures !AllMayComeBack(b, sale, items) ==> PrepareReturns(b, sale, items) == Err(ReturnFault(b, sale, items))
  {
    if items != [] {
      ComesBackIff(b, sale, items[1..]);
      assert forall i | 0 < i < |items| :: items[i] == items[1..][i - 1];
      assert forall i | 0 <= i < |items[1..]| :: items[1..][i] == items[i + 1];
    }
  }

  lemma {:induction false} PreparedGoods(b: Books, sale: Id, items: seq<ReturnItem>, ret: Id)
    requires PrepareReturns(b, sale, items).Ok?
    ensures var ps := PrepareReturns(b, sale, items).value;
            && |ps| == |items| && Back(ps) == GoodsOf(b, items)
            && (forall i | 0 <= i < |items| :: items[i].line < |b.lines| && ReturnRows(ret, ps)[i] == RowOf(b, ret, items[i]))
  {
    var ps := PrepareReturns(b, sale, items).value;
    PreparedReturnsAreSane(b, sale, items);
    forall i | 0 <= i < |items| ensures items[i].line < |b.lines| && ReturnRows(ret, ps)[i] == RowOf(b, ret, items[i]) {
      PreparedAt(b, sale, items, i);
    }
    assert forall i | 0 <= i < |items| :: Back(ps)[i] == GoodsOf(b, items)[i];
  }

  lemma {:induction false} PreparedValue(b: Books, sale: Id, items: seq<ReturnItem>)
    requires PrepareReturns(b, sale, items).Ok?
    ensures ReturnTotal(PrepareReturns(b, sale, items).value) == Sum(items, ListRefund(b))
  {
    if items != [] {
      PreparedValue(b, sale, items[1..]);
      SumCons(items[0], items[1..], ListRefund(b));
      assert items == [items[0]] + items[1..];
      var ps := PrepareReturns(b, sale, items).value;
      assert ps[1..] == PrepareReturns(b, sale, items[1..]).value;
    }
  }

  // ------------------------------------------------------------------
  // Returns.

  lemma {:induction false} ReturnWrites(t: Tables, dto: ReturnDto)
    requires ReturnSpec(t, dto).0.Ok?
    ensures var (r, after) := ReturnSpec(t, dto);
            var ps := PrepareReturns(t.books, dto.sale, dto.items).value;
            && after.books == AddReturn(t.books, ReturnRow(t.books, dto, ReturnTotal(ps)), ReturnRows(|t.books.refunds|, ps))
            && after == t.(books := after.books, inventory := after.inventory, ledger := after.ledger, till := after.till)
            && r.value.ret == |t.books.refunds| && r.value.total == ReturnTotal(ps)
  {}

  /** The header of a return carries the sale's branch and customer, the worth of what came back, and the next number of the branch. */
  lemma {:induction false} ReturnHasItsHeader(t: Tables, dto: ReturnDto)
    requires ReturnSpec(t, dto).0.Ok?
    ensures var (r, after) := ReturnSpec(t, dto);
            var b, sale := t.books, t.books.sales[dto.sale];
            var c := Counter(ReturnSeries(sale.branch), dto.period);
            var value := if c in b.counters then b.counters[c] else 1;
            && r.value.ret == |b.refunds| && r.value.total == Sum(dto.items, ListRefund(b))
            && after.books.refunds == b.refunds + [SalesReturn(Number(c, value), dto.sale, sale.branch, sale.customer, r.value.total,
                                                               if dto.refund == Credit then RefundCredit else RefundCash, dto.notes)]
            && after.books == b.(refunds := after.books.refunds, returnLines := after.books.returnLines, counters := b.counters[c := value + 1])
            && after == t.(books := after.books, inventory := after.inventory, ledger := after.ledger, till := after.till)
  {
    ReturnWrites(t, dto);
    PreparedValue(t.books, dto.sale, dto.items);
  }

  /** Under it there is one row per item, at the price it was sold for. */
  lemma {:induction false} ReturnHasItsRows(t: Tables, dto: ReturnDto)
    requires ReturnSpec(t, dto).0.Ok?
    ensures var n, rows, ret := |t.books.returnLines|, ReturnSpec(t, dto).1.books.returnLines, |t.books.refunds|;
            && |rows| == n + |dto.items| && t.books.returnLines <= rows
            && forall i | 0 <= i < |dto.items| :: dto.items[i].line < |t.books.lines| && rows[n + i] == RowOf(t.books, ret, dto.items[i])
  {
    var n, ret, ps := |t.books.returnLines|, |t.books.refunds|, PrepareReturns(t.books, dto.sale, dto.items).value;
    ReturnWrites(t, dto);
    PreparedGoods(t.books, dto.sale, dto.items, ret);
    RowsFollow(t.books.returnLines, ReturnRows(ret, ps));
  }

  lemma {:induction false} RowsFollow<T>(before: seq<T>, own: seq<T>)
    ensures before <= before + own && forall i | 0 <= i < |own| :: (before + own)[|before| + i] == own[i]
  {}

  /** One CASH movement out of the branch, in its open session if there is one. */
  ghost predicate PaidOutOfTill(before: Till, after: Till, branch: Id, amount: Money, reference: Ref) {
    && |after.moves| == |before.moves| + 1
    && var m := after.moves[|before.moves|];
       && after == before.(moves := before.moves + [m]) && JoinsBranch(before, m.session, branch)
       && m == CashMove(m.session, branch, ReturnRefund, Outward, amount, Cash, reference)
  }

  /**
   * CREDIT lowers the account of the sale's customer by the total and touches no till, and refunds a
   * walk-in nothing; any other method pays the total out of the till and touches no account.
   */
  lemma {:induction false} ReturnRefundsAsAsked(t: Tables, dto: ReturnDto)
    requires ReturnSpec(t, dto).0.Ok?
    ensures var (r, after) := ReturnSpec(t, dto);
            var customer, total := t.books.sales[dto.sale].customer, r.value.total;
            if dto.refund == Credit then
              && after.till == t.till && r.value.cashRefunded == None
              && if customer.Some? then
                   && after.ledger == t.ledger + [LedgerEntry(customer.value, ReturnRef(r.value.ret), ReturnEntry, 0, total, Balance(t.ledger, customer.value) - total)]
                   && r.value.balanceAfter == Some(Balance(t.ledger, customer.value) - total)
                 else after.ledger == t.ledger && r.value.balanceAfter == None
            else
              && after.ledger == t.ledger && r.value.balanceAfter == None && r.value.cashRefunded == Some(total)
              && PaidOutOfTill(t.till, after.till, t.books.sales[dto.sale].branch, total, ReturnRef(r.value.ret))
  {
    OpenSessionIsOpen(t.till.sessions, t.books.sales[dto.sale].branch);
  }

  /** A cash refund lowers what the branch's open session is expected to hold by exactly its total. */
  lemma {:induction false} CashRefundLowersTheClosing(t: Tables, dto: ReturnDto, id: Id, actual: Money)
    requires ReturnSpec(t, dto).0.Ok? && dto.refund != Credit && AtMostOneOpen(t.till.sessions)
    requires id < |t.till.sessions| && t.till.sessions[id].status.Open? && t.till.sessions[id].branch == t.books.sales[dto.sale].branch
    ensures var (r, after) := ReturnSpec(t, dto);
            && CloseSpec(after, id, actual).0.Ok?
            && CloseSpec(after, id, actual).0.value.expected == CloseSpec(t, id, actual).0.value.expected - r.value.total
  {
    ReturnRefundsAsAsked(t, dto);
    var after := ReturnSpec(t, dto).1;
    var m := after.till.moves[|t.till.moves|];
    assert m.session == Some(id);
    MovementMovesTheClosing(t, m, id, actual);
  }

  /** Every shelf of the sale's branch rises by what came back of its product, and the log says so item by item. */
  lemma {:induction false} ReturnRestocks(t: Tables, dto: ReturnDto)
    requires ReturnSpec(t, dto).0.Ok?
    ensures var after, branch := ReturnSpec(t, dto).1, t.books.sales[dto.sale].branch;
            && IsRestored(t.inventory.stock, after.inventory.stock, branch, GoodsOf(t.books, dto.items))
            && LogsPortions(t.inventory.moves, after.inventory.moves, branch, In, GoodsOf(t.books, dto.items), ReturnRef(|t.books.refunds|))
  {
    PreparedGoods(t.books, dto.sale, dto.items, |t.books.refunds|);
    ReturnRestoresItsTotals(t, dto);
    RestorationsAreLogged(t.inventory, t.books.sales[dto.sale].branch, GoodsOf(t.books, dto.items), ReturnRef(|t.books.refunds|), BadRequest);
  }

  predicate RowsExist(stock: map<Shelf, int>, branch: Id, ps: seq<Portion>) {
    forall i | 0 <= i < |ps| :: Shelf(ps[i].product, branch) in stock
  }

  lemma {:induction false} RestoresWhenRowsExist(inv: Inventory, branch: Id, ps: seq<Portion>, reference: Ref, missing: Failure)
    ensures RestoreAll(inv, branch, ps, reference, missing).Ok? <==> RowsExist(inv.stock, branch, ps)
    ensures var r := RestoreAll(inv, branch, ps, reference, missing); r.Err? ==> r.failure == missing
    decreases |ps|
  {
    if ps != [] {
      var first := Restore(inv, branch, ps[0], reference, missing);
      if first.Ok? {
        RestoresWhenRowsExist(first.value, branch, ps[1..], reference, missing);
        assert forall i | 0 < i < |ps| :: ps[i] == ps[1..][i - 1];
      }
    }
  }

  /** A return is accepted exactly when each of its items may come back, together they are worth something and their shelves exist. */
  lemma {:induction false} ReturnIsAcceptedIff(t: Tables, dto: ReturnDto)
    ensures var (r, after) := ReturnSpec(t, dto);
            && (r.Ok? <==>
                  && dto.items != [] && dto.sale < |t.books.sales|
                  && AllMayComeBack(t.books, dto.sale, dto.items)
                  && Sum(dto.items, ListRefund(t.books)) > 0
                  && RowsExist(t.inventory.stock, t.books.sales[dto.sale].branch, GoodsOf(t.books, dto.items)))
            && (r.Err? ==>
                  && after == t
                  && r.failure == if dto.items == [] then BadRequest else if dto.sale >= |t.books.sales| then NotFound
                                  else if !AllMayComeBack(t.books, dto.sale, dto.items) then ReturnFault(t.books, dto.sale, dto.items)
                                  else if Sum(dto.items, ListRefund(t.books)) <= 0 then CheckViolation else BadRequest)
  {
    ComesBackIff(t.books, dto.sale, dto.items);
    if dto.sale < |t.books.sales| && PrepareReturns(t.books, dto.sale, dto.items).Ok? {
      PreparedGoods(t.books, dto.sale, dto.items, |t.books.refunds|);
      PreparedValue(t.books, dto.sale, dto.items);
      RestoresWhenRowsExist(t.inventory, t.books.sales[dto.sale].branch, GoodsOf(t.books, dto.items), ReturnRef(|t.books.refunds|), BadRequest);
    }
  }

  /** The report of a sale has one entry per line of it, saying what was sold, what came back, what may still come back, and the price. */
  lemma {:induction false} ReportSaysWhatIsLeft(b: Books, sale: Id, line: Id)
    requires line < |b.lines|
    ensures b.lines[line].sale == sale <==> exists info :: info in ReturnableLines(b, sale, |b.lines|) && info.line == line
    ensures forall info | info in ReturnableLines(b, sale, |b.lines|) && info.line == line ::
              var back := Returned(b.returnLines, line);
              info == Returnable(line, b.lines[line].product, b.lines[line].quantity, back, Max(b.lines[line].quantity - back, 0), b.lines[line].unitPrice)
  {
    ReportedLines(b, sale, |b.lines|, ReturnableOf(b, line));
    forall info | info in ReturnableLines(b, sale, |b.lines|) && info.line == line {
      ReportedLines(b, sale, |b.lines|, info);
    }
  }
}
