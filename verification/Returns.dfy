/** Returning goods of a sale: what may come back, the stock it restores, the money it refunds. */
module Returns {
  import opened Wrappers
  import opened Sums
  import opened Tables
  import opened StockLog
  import opened CashDesk
  import opened CustomerLedger
  import opened Checkout
  import opened Bookkeeping
  import opened ProductStock

  datatype ReturnItem = ReturnItem(line: Id, quantity: int)
  datatype ReturnDto = ReturnDto(sale: Id, items: seq<ReturnItem>, refund: Method, period: nat, notes: Notes)
  datatype ReturnReply = ReturnReply(ret: Id, total: Money, balanceAfter: Option<Money>, cashRefunded: Option<Money>)

  datatype PreparedReturn = PreparedReturn(line: Id, product: Id, unitPrice: Money, quantity: int)

  // ------------------------------------------------------------------
  // Which lines may come back. The check looks at stored returns only.

  function PrepareReturn(b: Books, sale: Id, item: ReturnItem): Result<PreparedReturn> {
    if item.quantity <= 0 then Err(BadRequest)
    else if item.line >= |b.lines| || b.lines[item.line].sale != sale then Err(NotFound)
    else if item.quantity > b.lines[item.line].quantity - Returned(b.returnLines, item.line) then Err(BadRequest)
    else Ok(PreparedReturn(item.line, b.lines[item.line].product, b.lines[item.line].unitPrice, item.quantity))
  }

  function PrepareReturns(b: Books, sale: Id, items: seq<ReturnItem>): Result<seq<PreparedReturn>> {
    if items == [] then Ok([])
    else
      var first :- PrepareReturn(b, sale, items[0]);
      var rest :- PrepareReturns(b, sale, items[1..]);
      Ok([first] + rest)
  }

  function ReturnTotal(ps: seq<PreparedReturn>): Money {
    if ps == [] then 0 else ps[0].unitPrice * ps[0].quantity + ReturnTotal(ps[1..])
  }

  function Back(ps: seq<PreparedReturn>): (back: seq<Portion>)
    ensures |back| == |ps|
    ensures forall i | 0 <= i < |ps| :: back[i] == Portion(ps[i].product, ps[i].quantity)
  {
    seq(|ps|, i requires 0 <= i < |ps| => Portion(ps[i].product, ps[i].quantity))
  }

  function ReturnRows(ret: Id, ps: seq<PreparedReturn>): (rows: seq<ReturnLine>)
    ensures |rows| == |ps|
    ensures forall i | 0 <= i < |ps| ::
              rows[i] == ReturnLine(ret, ps[i].line, ps[i].product, ps[i].unitPrice, ps[i].quantity, ps[i].unitPrice * ps[i].quantity)
  {
    seq(|ps|, i requires 0 <= i < |ps| =>
      ReturnLine(ret, ps[i].line, ps[i].product, ps[i].unitPrice, ps[i].quantity, ps[i].unitPrice * ps[i].quantity))
  }

  function PrependReturns(ps: seq<PreparedReturn>, rest: Result<seq<PreparedReturn>>): Result<seq<PreparedReturn>> {
    match rest
    case Err(e) => Err(e)
    case Ok(more) => Ok(ps + more)
  }

  lemma {:induction false} PrependReturnSteps(ps: seq<PreparedReturn>, p: PreparedReturn, rest: Result<seq<PreparedReturn>>)
    ensures PrependReturns(ps + [p], rest) == PrependReturns(ps, PrependReturns([p], rest))
  {
    if rest.Ok? {
      assert (ps + [p]) + rest.value == ps + ([p] + rest.value);
    }
  }

  lemma {:induction false} ReturnTotalSnoc(ps: seq<PreparedReturn>, p: PreparedReturn)
    ensures ReturnTotal(ps + [p]) == ReturnTotal(ps) + p.unitPrice * p.quantity
  {
    if ps == [] {
      assert ps + [p] == [p] && [p][1..] == [];
    } else {
      assert (ps + [p])[1..] == ps[1..] + [p];
      ReturnTotalSnoc(ps[1..], p);
    }
  }

  /** The validation loop, which also accumulates the refund. */
  method CheckReturns(db: Database, sale: Id, items: seq<ReturnItem>) returns (r: Result<seq<PreparedReturn>>, total: Money)
    ensures r == PrepareReturns(db.books, sale, items)
    ensures r.Ok? ==> total == ReturnTotal(r.value)
  {
    var ps: seq<PreparedReturn> := [];
    total := 0;
    ghost var all := PrepareReturns(db.books, sale, items);
    assert all.Ok? ==> [] + all.value == all.value;
    for i := 0 to |items|
      invariant PrependReturns(ps, PrepareReturns(db.books, sale, items[i..])) == all
      invariant total == ReturnTotal(ps)
    {
      var p := PrepareReturn(db.books, sale, items[i]);
      if p.Err? {
        return Err(p.failure), total;
      }
      PrependReturnSteps(ps, p.value, PrepareReturns(db.books, sale, items[i..][1..]));
      ReturnTotalSnoc(ps, p.value);
      total := total + p.value.unitPrice * p.value.quantity;
      ps := ps + [p.value];
    }
    assert ps + [] == ps;
    return Ok(ps), total;
  }

  /** The loop over accepted lines: a return row, a stock update and a movement each. */
  method InsertReturns(db: Database, ret: Id, branch: Id, ps: seq<PreparedReturn>, missing: Failure) returns (r: Result<bool>)
    modifies db
    ensures r.Ok? <==> RestoreAll(old(db.inventory), branch, Back(ps), ReturnRef(ret), missing).Ok?
    ensures r.Err? ==> r.failure == RestoreAll(old(db.inventory), branch, Back(ps), ReturnRef(ret), missing).failure
    ensures r.Ok? ==> db.Contents() == old(db.Contents()).(
                        inventory := RestoreAll(old(db.inventory), branch, Back(ps), ReturnRef(ret), missing).value,
                        books := old(db.books).(returnLines := old(db.books.returnLines) + ReturnRows(ret, ps)))
  {
    ghost var before := db.Contents();
    for i := 0 to |ps|
      invariant RestoreAll(db.inventory, branch, Back(ps)[i..], ReturnRef(ret), missing)
             == RestoreAll(before.inventory, branch, Back(ps), ReturnRef(ret), missing)
      invariant db.Contents() == before.(inventory := db.inventory, books := before.books.(returnLines := before.books.returnLines + ReturnRows(ret, ps)[..i]))
    {
      var p := ps[i];
      var row := ReturnLine(ret, p.line, p.product, p.unitPrice, p.quantity, p.unitPrice * p.quantity);
      assert ReturnRows(ret, ps)[..i + 1] == ReturnRows(ret, ps)[..i] + [row];
      assert Back(ps)[i..][1..] == Back(ps)[i + 1..];
      db.books := db.books.(returnLines := db.books.returnLines + [row]);
      var shelf := Shelf(p.product, branch);
      if shelf !in db.inventory.stock {
        return Err(missing);
      }
      var previous := db.inventory.stock[shelf];
      db.inventory := db.inventory.(stock := db.inventory.stock[shelf := previous + p.quantity]);
      db.inventory := db.inventory.(moves := db.inventory.moves
        + [Movement(shelf, In, p.quantity, previous, previous + p.quantity, ReturnRef(ret))]);
    }
    return Ok(true);
  }

  // ------------------------------------------------------------------
  // The return transaction.

  function NormalizeRefund(m: Method): RefundMethod { if m.Credit? then RefundCredit else RefundCash }

  function ReturnRow(b: Books, dto: ReturnDto, total: Money): SalesReturn
    requires dto.sale < |b.sales|
  {
    var sale := b.sales[dto.sale];
    SalesReturn(FreshNumber(b, Counter(ReturnSeries(sale.branch), dto.period)), dto.sale, sale.branch, sale.customer, total,
                NormalizeRefund(dto.refund), dto.notes)
  }

  /** CREDIT goes to the sale's customer, if it has one; CASH leaves the till, in the open session if there is one. */
  function Refund(t: Tables, header: SalesReturn, ret: Id): Tables {
    match header.refund
    case RefundCredit =>
      if header.customer.None? then t
      else t.(ledger := Append(t.ledger, header.customer.value, ReturnRef(ret), ReturnEntry, 0, header.total))
    case RefundCash =>
      t.(till := Record(t.till, CashMove(OpenSessionAt(t.till.sessions, header.branch), header.branch, ReturnRefund, Outward, header.total, Cash, ReturnRef(ret))))
    case RefundExchange => t
  }

  /** The tables once the goods and the return's rows are in, before the refund. */
  function ReturnWritten(t: Tables, dto: ReturnDto, ps: seq<PreparedReturn>): Tables
    requires dto.sale < |t.books.sales|
    requires RestoreAll(t.inventory, t.books.sales[dto.sale].branch, Back(ps), ReturnRef(|t.books.refunds|), BadRequest).Ok?
  {
    t.(inventory := RestoreAll(t.inventory, t.books.sales[dto.sale].branch, Back(ps), ReturnRef(|t.books.refunds|), BadRequest).value,
       books := AddReturn(t.books, ReturnRow(t.books, dto, ReturnTotal(ps)), ReturnRows(|t.books.refunds|, ps)))
  }

  function ReturnSpec(t: Tables, dto: ReturnDto): (Result<ReturnReply>, Tables) {
    if dto.items == [] then (Err(BadRequest), t)
    else if dto.sale >= |t.books.sales| then (Err(NotFound), t)
    else
      match PrepareReturns(t.books, dto.sale, dto.items)
      case Err(e) => (Err(e), t)
      case Ok(ps) =>
        var total, ret := ReturnTotal(ps), |t.books.refunds|;
        var header := ReturnRow(t.books, dto, total);
        if total <= 0 then (Err(CheckViolation), t)
        else
          match RestoreAll(t.inventory, header.branch, Back(ps), ReturnRef(ret), BadRequest)
          case Err(e) => (Err(e), t)
          case Ok(inv) =>
            var credited := header.refund.RefundCredit? && header.customer.Some?;
            (Ok(ReturnReply(ret, total,
                            if credited then Some(Balance(t.ledger, header.customer.value) - total) else None,
                            if header.refund.RefundCash? then Some(total) else None)),
             Refund(ReturnWritten(t, dto, ps), header, ret))
  }

  /** Step 6: the customer's credit or the cash paid out. */
  method PayRefund(db: Database, header: SalesReturn, ret: Id) returns (balanceAfter: Option<Money>, cashRefunded: Option<Money>)
    requires !header.refund.RefundExchange?
    modifies db
    ensures db.Contents() == Refund(old(db.Contents()), header, ret)
    ensures balanceAfter == if header.refund.RefundCredit? && header.customer.Some?
                            then Some(Balance(old(db.ledger), header.customer.value) - header.total) else None
    ensures cashRefunded == if header.refund.RefundCash? then Some(header.total) else None
  {
    balanceAfter, cashRefunded := None, None;
    if header.refund.RefundCredit? && header.customer.Some? {
      var after := Balance(db.ledger, header.customer.value) - header.total;
      balanceAfter := Some(after);
      db.ledger := db.ledger + [LedgerEntry(header.customer.value, ReturnRef(ret), ReturnEntry, 0, header.total, after)];
    } else if header.refund.RefundCash? {
      cashRefunded := Some(header.total);
      var session := OpenSessionAt(db.till.sessions, header.branch);
      db.till := db.till.(moves := db.till.moves
        + [CashMove(session, header.branch, ReturnRefund, Outward, header.total, Cash, ReturnRef(ret))]);
    }
  }

  method CreateSalesReturn(db: Database, dto: ReturnDto) returns (r: Result<ReturnReply>)
    modifies db
    ensures (r, db.Contents()) == ReturnSpec(old(db.Contents()), dto)
  {
    if dto.items == [] {
      return Err(BadRequest);
    }
    var begin := db.Contents();
    if dto.sale >= |db.books.sales| {
      return Err(NotFound);
    }
    var sale := db.books.sales[dto.sale];
    var prepared, total := CheckReturns(db, dto.sale, dto.items);
    if prepared.Err? {
      return Err(prepared.failure);
    }
    var counter := Counter(ReturnSeries(sale.branch), dto.period);
    var number := Number(counter, NextValue(db.books.counters, counter));
    db.books := db.books.(counters := Bump(db.books.counters, counter));
    var ret := |db.books.refunds|;
    var refund := NormalizeRefund(dto.refund);
    if total <= 0 {
      db.Rollback(begin);
      return Err(CheckViolation);
    }
    var header := SalesReturn(number, dto.sale, sale.branch, sale.customer, total, refund, dto.notes);
    db.books := db.books.(refunds := db.books.refunds + [header]);
    var inserted := InsertReturns(db, ret, sale.branch, prepared.value, BadRequest);
    if inserted.Err? {
      db.Rollback(begin);
      return Err(inserted.failure);
    }
    assert db.books == AddReturn(begin.books, header, ReturnRows(ret, prepared.value));
    var balanceAfter, cashRefunded := PayRefund(db, header, ret);
    return Ok(ReturnReply(ret, total, balanceAfter, cashRefunded));
  }

  // ------------------------------------------------------------------
  // Returned never exceeds sold.

  /** Units of one line asked for by the whole request. */
  function Requested(items: seq<ReturnItem>, line: Id): int {
    if items == [] then 0
    else (if items[0].line == line then items[0].quantity else 0) + Requested(items[1..], line)
  }

  predicate DistinctLines(items: seq<ReturnItem>) {
    forall i, j | 0 <= i < j < |items| :: items[i].line != items[j].line
  }

  /** A request that, taken as a whole, stays within what each of its lines has left. */
  predicate FitsAsAWhole(b: Books, items: seq<ReturnItem>) {
    forall i | 0 <= i < |items| && items[i].line < |b.lines| ::
      Requested(items, items[i].line) <= b.lines[items[i].line].quantity - Returned(b.returnLines, items[i].line)
  }

  lemma {:induction false} PreparedAt(b: Books, sale: Id, items: seq<ReturnItem>, i: nat)
    requires PrepareReturns(b, sale, items).Ok?
    ensures |PrepareReturns(b, sale, items).value| == |items|
    ensures i < |items| ==> PrepareReturn(b, sale, items[i]) == Ok(PrepareReturns(b, sale, items).value[i])
  {
    if items != [] {
      PreparedAt(b, sale, items[1..], if i > 0 then i - 1 else 0);
    }
  }

  lemma {:induction false} PreparedReturnsAreSane(b: Books, sale: Id, items: seq<ReturnItem>)
    requires PrepareReturns(b, sale, items).Ok?
    ensures var ps := PrepareReturns(b, sale, items).value;
            && |ps| == |items| && Positive(Back(ps))
            && forall i | 0 <= i < |ps| ::
                 && ps[i].quantity > 0 && ps[i].line < |b.lines| && b.lines[ps[i].line].sale == sale
                 && ps[i].product == b.lines[ps[i].line].product && ps[i].unitPrice == b.lines[ps[i].line].unitPrice
  {
    PreparedAt(b, sale, items, 0);
    forall i | 0 <= i < |items| { PreparedAt(b, sale, items, i); }
  }

  lemma {:induction false} RowsCons(ret: Id, ps: seq<PreparedReturn>)
    requires ps != []
    ensures ReturnRows(ret, ps) == [ReturnRows(ret, ps)[0]] + ReturnRows(ret, ps[1..])
  {}

  lemma {:induction false} RowsAddUp(b: Books, sale: Id, items: seq<ReturnItem>, ret: Id, line: Id)
    requires PrepareReturns(b, sale, items).Ok?
    ensures Returned(ReturnRows(ret, PrepareReturns(b, sale, items).value), line) == Requested(items, line)
  {
    if items != [] {
      var ps := PrepareReturns(b, sale, items).value;
      RowsCons(ret, ps);
      SumCons(ReturnRows(ret, ps)[0], ReturnRows(ret, ps[1..]), UnitsOf(line));
      RowsAddUp(b, sale, items[1..], ret, line);
    }
  }

  lemma {:induction false} RefundForRows(ret: Id, ps: seq<PreparedReturn>)
    ensures RefundFor(ReturnRows(ret, ps), ret) == ReturnTotal(ps)
    decreases |ps|
  {
    if ps != [] {
      RowsCons(ret, ps);
      SumCons(ReturnRows(ret, ps)[0], ReturnRows(ret, ps[1..]), AmountIn(ret));
      RefundForRows(ret, ps[1..]);
    }
  }

  lemma {:induction false} RequestedAbsent(items: seq<ReturnItem>, line: Id)
    requires forall i | 0 <= i < |items| :: items[i].line != line
    ensures Requested(items, line) == 0
  {
    if items != [] {
      RequestedAbsent(items[1..], line);
    }
  }

  lemma {:induction false} DistinctRequestsOnce(items: seq<ReturnItem>, i: nat)
    requires DistinctLines(items) && i < |items|
    ensures Requested(items, items[i].line) == items[i].quantity
  {
    if i == 0 {
      RequestedAbsent(items[1..], items[0].line);
    } else {
      DistinctRequestsOnce(items[1..], i - 1);
    }
  }

  /** Recording accepted lines over-returns nothing exactly when the request fits as a whole. */
  lemma {:induction false} RowsKeepReturnedIff(b: Books, sale: Id, items: seq<ReturnItem>, header: SalesReturn)
    requires NothingOverReturned(b) && PrepareReturns(b, sale, items).Ok?
    ensures NothingOverReturned(AddReturn(b, header, ReturnRows(|b.refunds|, PrepareReturns(b, sale, items).value))) <==> FitsAsAWhole(b, items)
  {
    var rows := ReturnRows(|b.refunds|, PrepareReturns(b, sale, items).value);
    var after := AddReturn(b, header, rows);
    forall line: Id ensures Returned(after.returnLines, line) == Returned(b.returnLines, line) + Requested(items, line) {
      RowsAddUp(b, sale, items, |b.refunds|, line);
      SumAppend(b.returnLines, rows, UnitsOf(line));
    }
    if FitsAsAWhole(b, items) {
      forall line | 0 <= line < |b.lines| ensures Returned(after.returnLines, line) <= after.lines[line].quantity {
        if !exists i :: 0 <= i < |items| && items[i].line == line {
          RequestedAbsent(items, line);
        }
      }
    }
    if NothingOverReturned(after) {
      forall i | 0 <= i < |items| && items[i].line < |b.lines|
        ensures Requested(items, items[i].line) <= b.lines[items[i].line].quantity - Returned(b.returnLines, items[i].line)
      {
        assert Returned(after.returnLines, items[i].line) <= after.lines[items[i].line].quantity;
      }
    }
  }

  /** An accepted return keeps returned within sold exactly when its lines fit as a whole. */
  lemma {:induction false} ReturnedWithinSoldIff(t: Tables, dto: ReturnDto)
    requires NothingOverReturned(t.books) && ReturnSpec(t, dto).0.Ok?
    ensures NothingOverReturned(ReturnSpec(t, dto).1.books) <==> FitsAsAWhole(t.books, dto.items)
  {
    var ps := PrepareReturns(t.books, dto.sale, dto.items).value;
    RowsKeepReturnedIff(t.books, dto.sale, dto.items, ReturnRow(t.books, dto, ReturnTotal(ps)));
  }

  /** Naming each line at most once is enough. */
  lemma {:induction false} DistinctLinesFit(b: Books, sale: Id, items: seq<ReturnItem>)
    requires DistinctLines(items) && PrepareReturns(b, sale, items).Ok?
    ensures FitsAsAWhole(b, items)
  {
    forall i | 0 <= i < |items| && items[i].line < |b.lines|
      ensures Requested(items, items[i].line) <= b.lines[items[i].line].quantity - Returned(b.returnLines, items[i].line)
    {
      DistinctRequestsOnce(items, i);
      PreparedAt(b, sale, items, i);
    }
  }

  /** One unit sold, two lines of one unit each in the request: both are accepted and two units are back. */
  lemma {:induction false} RepeatedLineIsReturnedTwice(t: Tables, dto: ReturnDto, branch: Id, number: Number)
    requires t.books == Books([Sale(number, branch, None, 5, 0, 5, 5, 0, Paid, NoNotes)], [SaleLine(0, 7, 5, 3, 1, 0, 5)], [], [], [], map[])
    requires Shelf(7, branch) in t.inventory.stock
    requires dto == ReturnDto(0, [ReturnItem(0, 1), ReturnItem(0, 1)], Cash, 0, NoNotes)
    ensures NothingOverReturned(t.books) && ReturnSpec(t, dto).0.Ok?
    ensures Returned(ReturnSpec(t, dto).1.books.returnLines, 0) == 2 && t.books.lines[0].quantity == 1
  {
    var one, item := PreparedReturn(0, 7, 5, 1), ReturnItem(0, 1);
    assert PrepareReturn(t.books, 0, item) == Ok(one);
    OneThenTwo(t.books, item, one);
    var back := Back([one, one]);
    assert back == [Portion(7, 1), Portion(7, 1)] && back[1..] == [Portion(7, 1)] && back[1..][1..] == [];
    var mid := Restore(t.inventory, branch, back[0], ReturnRef(0), BadRequest);
    assert RestoreAll(mid.value, branch, back[1..], ReturnRef(0), BadRequest).Ok?;
    assert [one, one][1..] == [one];
    assert [one][1..] == [] && ReturnTotal([one]) == 5;
    assert ReturnTotal([one, one]) == 5 + ReturnTotal([one, one][1..]);
    RowsAddUp(t.books, 0, dto.items, 0, 0);
    assert dto.items[1..] == [item] && Requested([item], 0) == 1 + Requested([item][1..], 0) && Requested(dto.items, 0) == 2;
    assert [] + ReturnRows(0, [one, one]) == ReturnRows(0, [one, one]);
  }

  lemma {:induction false} OneThenTwo(b: Books, item: ReturnItem, p: PreparedReturn)
    requires PrepareReturn(b, 0, item) == Ok(p)
    ensures PrepareReturns(b, 0, [item, item]) == Ok([p, p])
  {
    assert [item][1..] == [] && [p] + [] == [p];
    assert PrepareReturns(b, 0, [item]) == Ok([p]);
    assert [item, item][1..] == [item] && [p] + [p] == [p, p];
  }

  // ------------------------------------------------------------------
  // What may still be returned.

  datatype Returnable = Returnable(line: Id, product: Id, original: int, returned: int, remaining: int, unitPrice: Money)

  function ReturnableOf(b: Books, line: Id): Returnable
    requires line < |b.lines|
  {
    var l, returned := b.lines[line], Returned(b.returnLines, line);
    Returnable(line, l.product, l.quantity, returned, Max(l.quantity - returned, 0), l.unitPrice)
  }

  function ReturnableLines(b: Books, sale: Id, upTo: nat): seq<Returnable>
    requires upTo <= |b.lines|
  {
    if upTo == 0 then []
    else ReturnableLines(b, sale, upTo - 1) + (if b.lines[upTo - 1].sale == sale then [ReturnableOf(b, upTo - 1)] else [])
  }

  method GetSaleReturnableInfo(db: Database, sale: Id) returns (r: Result<seq<Returnable>>)
    ensures sale >= |db.books.sales| ==> r == Err(NotFound)
    ensures sale < |db.books.sales| ==> r == Ok(ReturnableLines(db.books, sale, |db.books.lines|))
  {
    if sale >= |db.books.sales| {
      return Err(NotFound);
    }
    var lines: seq<Returnable> := [];
    for k := 0 to |db.books.lines|
      invariant lines == ReturnableLines(db.books, sale, k)
    {
      if db.books.lines[k].sale == sale {
        var original, returned := db.books.lines[k].quantity, Returned(db.books.returnLines, k);
        lines := lines + [Returnable(k, db.books.lines[k].product, original, returned, Max(original - returned, 0), db.books.lines[k].unitPrice)];
      }
    }
    return Ok(lines);
  }

  lemma {:induction false} ReportedLines(b: Books, sale: Id, upTo: nat, info: Returnable)
    requires upTo <= |b.lines|
    ensures info in ReturnableLines(b, sale, upTo) <==> info.line < upTo && b.lines[info.line].sale == sale && info == ReturnableOf(b, info.line)
  {
    if upTo > 0 {
      ReportedLines(b, sale, upTo - 1, info);
    }
  }

  /**
   * The report says sold minus returned, its clamp at zero never active, and a single return
   * request is accepted for exactly the quantities up to what is reported.
   */
  lemma {:induction false} ReportIsWhatIsAccepted(b: Books, sale: Id, info: Returnable, quantity: int)
    requires NothingOverReturned(b) && info in ReturnableLines(b, sale, |b.lines|)
    ensures info.remaining == info.original - info.returned
    ensures PrepareReturn(b, sale, ReturnItem(info.line, quantity)).Ok? <==> 0 < quantity <= info.remaining
  {
    ReportedLines(b, sale, |b.lines|, info);
  }

  // ------------------------------------------------------------------
  // Money and stock.

  /** The refund leaves as credit, as cash, or not at all: it is lost exactly for CREDIT on a walk-in sale. */
  lemma {:induction false} RefundIsExact(t: Tables, dto: ReturnDto)
    requires ReturnSpec(t, dto).0.Ok?
    ensures var (r, after) := ReturnSpec(t, dto);
            var sale := t.books.sales[dto.sale];
            var credited := if sale.customer.Some? then Balance(t.ledger, sale.customer.value) - Balance(after.ledger, sale.customer.value) else 0;
            var paidOut := if |after.till.moves| > |t.till.moves| then after.till.moves[|t.till.moves|].amount else 0;
            && r.value.total > 0
            && (credited + paidOut == r.value.total <==> !(dto.refund.Credit? && sale.customer.None?))
            && (dto.refund.Credit? && sale.customer.None? ==> after.ledger == t.ledger && after.till == t.till)
            && (r.value.cashRefunded == if dto.refund.Credit? then None else Some(paidOut))
            && (r.value.balanceAfter == if credited > 0 then Some(Balance(after.ledger, sale.customer.value)) else None)
  {
    var sale := t.books.sales[dto.sale];
    if sale.customer.Some? {
      var total := ReturnTotal(PrepareReturns(t.books, dto.sale, dto.items).value);
      var l := Append(t.ledger, sale.customer.value, ReturnRef(|t.books.refunds|), ReturnEntry, 0, total);
      assert l[..|t.ledger|] == t.ledger;
    }
  }

  /** A return puts exactly its lines back at the branch of the sale. */
  lemma {:induction false} ReturnRestoresItsTotals(t: Tables, dto: ReturnDto)
    requires ReturnSpec(t, dto).0.Ok?
    ensures IsRestored(t.inventory.stock, ReturnSpec(t, dto).1.inventory.stock, t.books.sales[dto.sale].branch,
                       Back(PrepareReturns(t.books, dto.sale, dto.items).value))
  {
    var back := Back(PrepareReturns(t.books, dto.sale, dto.items).value);
    RestoreAllAdds(t.inventory, t.books.sales[dto.sale].branch, back, ReturnRef(|t.books.refunds|), BadRequest);
  }

  /** Putting accepted lines back keeps the log faithful and touches existing rows only. */
  lemma {:induction false} RestoringKeepsFaithful(inv: Inventory, branch: Id, b: Books, sale: Id, items: seq<ReturnItem>, reference: Ref, missing: Failure)
    requires Faithful(inv) && PrepareReturns(b, sale, items).Ok?
    requires RestoreAll(inv, branch, Back(PrepareReturns(b, sale, items).value), reference, missing).Ok?
    ensures var after := RestoreAll(inv, branch, Back(PrepareReturns(b, sale, items).value), reference, missing).value;
            Faithful(after) && after.stock.Keys == inv.stock.Keys
  {
    var back := Back(PrepareReturns(b, sale, items).value);
    PreparedReturnsAreSane(b, sale, items);
    RestoreAllKeepsFaithful(inv, branch, back, reference, missing);
    RestoreAllAdds(inv, branch, back, reference, missing);
  }

  lemma {:induction false} ReturnKeepsStock(t: Tables, dto: ReturnDto)
    requires StockInvariant(t)
    ensures StockInvariant(ReturnSpec(t, dto).1)
  {
    if ReturnSpec(t, dto).0.Ok? {
      RestoringKeepsFaithful(t.inventory, t.books.sales[dto.sale].branch, t.books, dto.sale, dto.items, ReturnRef(|t.books.refunds|), BadRequest);
    }
  }

  /** Cash may leave outside any session: the branch's open session takes it when there is one. */
  lemma {:induction false} PayOutKeepsTill(till: Till, expenses: seq<Expense>, m: CashMove)
    requires TillInvariant(till) && ExpensesNet(expenses, till.moves)
    requires m.amount > 0 && m.session == OpenSessionAt(till.sessions, m.branch) && !m.kind.ExpenseMove?
    ensures TillInvariant(Record(till, m)) && ClosedStayFinal(till, Record(till, m)) && ExpensesNet(expenses, Record(till, m).moves)
  {
    OpenSessionIsOpen(till.sessions, m.branch);
    RecordKeepsTill(till, m);
    OtherMovesKeepNetIff(expenses, till.moves, m);
  }

  lemma {:induction false} RefundKeepsTill(t: Tables, header: SalesReturn, ret: Id)
    requires TillInvariant(t.till) && ExpensesNet(t.expenses, t.till.moves) && header.total > 0
    ensures var after := Refund(t, header, ret);
            TillInvariant(after.till) && ClosedStayFinal(t.till, after.till) && ExpensesNet(t.expenses, after.till.moves)
            && after.expenses == t.expenses
  {
    if header.refund.RefundCash? {
      var m := CashMove(OpenSessionAt(t.till.sessions, header.branch), header.branch, ReturnRefund, Outward, header.total, Cash, ReturnRef(ret));
      PayOutKeepsTill(t.till, t.expenses, m);
    }
  }

  lemma {:induction false} ReturnKeepsTill(t: Tables, dto: ReturnDto)
    requires TillInvariant(t.till) && ExpensesNet(t.expenses, t.till.moves)
    ensures var after := ReturnSpec(t, dto).1;
            TillInvariant(after.till) && ClosedStayFinal(t.till, after.till) && ExpensesNet(after.expenses, after.till.moves)
  {
    if ReturnSpec(t, dto).0.Ok? {
      var ps := PrepareReturns(t.books, dto.sale, dto.items).value;
      RefundKeepsTill(ReturnWritten(t, dto, ps), ReturnRow(t.books, dto, ReturnTotal(ps)), |t.books.refunds|);
    }
  }

  lemma {:induction false} CreditKeepsLedger(t: Tables, customer: Id, reference: Ref, credit: Money)
    requires RunningIndex(t.ledger) && credit >= 0
    ensures var ledger := Append(t.ledger, customer, reference, ReturnEntry, 0, credit);
            && RunningIndex(ledger)
            && forall c :: Balance(ledger, c) <= Balance(t.ledger, c)
  {
    AppendKeepsIndex(t.ledger, customer, reference, ReturnEntry, 0, credit);
  }

  lemma {:induction false} ReturnKeepsLedger(t: Tables, dto: ReturnDto)
    requires RunningIndex(t.ledger)
    ensures var after := ReturnSpec(t, dto).1;
            RunningIndex(after.ledger) && (WithinLimits(t) ==> WithinLimits(after))
  {
    if ReturnSpec(t, dto).0.Ok? && t.books.sales[dto.sale].customer.Some? {
      var total := ReturnTotal(PrepareReturns(t.books, dto.sale, dto.items).value);
      CreditKeepsLedger(t, t.books.sales[dto.sale].customer.value, ReturnRef(|t.books.refunds|), total);
    }
  }

  lemma {:induction false} ReturnKeepsBooks(t: Tables, dto: ReturnDto)
    requires BooksInvariant(t.books)
    ensures var after := ReturnSpec(t, dto).1;
            BooksInvariant(after.books) && (NothingOverReturned(t.books) && DistinctLines(dto.items) ==> NothingOverReturned(after.books))
  {
    if ReturnSpec(t, dto).0.Ok? {
      var ps := PrepareReturns(t.books, dto.sale, dto.items).value;
      PreparedReturnsAreSane(t.books, dto.sale, dto.items);
      RefundForRows(|t.books.refunds|, ps);
      AddReturnKeepsBooks(t.books, ReturnRow(t.books, dto, ReturnTotal(ps)), ReturnRows(|t.books.refunds|, ps));
      if NothingOverReturned(t.books) && DistinctLines(dto.items) {
        DistinctLinesFit(t.books, dto.sale, dto.items);
        ReturnedWithinSoldIff(t, dto);
      }
    }
  }

  lemma {:induction false} ReturnGrows(t: Tables, dto: ReturnDto)
    ensures Grows(t, ReturnSpec(t, dto).1)
  {
    if ReturnSpec(t, dto).0.Ok? {
      var ps := PrepareReturns(t.books, dto.sale, dto.items).value;
      RefundGrows(t, ReturnWritten(t, dto, ps), ReturnRow(t.books, dto, ReturnTotal(ps)));
    }
  }

  lemma {:induction false} RefundGrows(t: Tables, written: Tables, header: SalesReturn)
    requires written.ledger == t.ledger && Grows(t, written)
    ensures Grows(t, Refund(written, header, |t.books.refunds|))
  {}
}
