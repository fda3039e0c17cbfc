/** The checkout transaction: prices, totals, tenders, stock, ledger and cash. */
module Checkout {
  import opened Wrappers
  import opened Tables
  import opened StockLog
  import opened CashDesk
  import opened CustomerLedger

  // ------------------------------------------------------------------
  // Requests.

  datatype Item = Item(product: Id, quantity: int, unitPrice: Option<Money>, discount: Money)

  datatype Tender = Tender(means: Method, amount: Money)

  datatype SaleDto = SaleDto(branch: Id, user: Id, period: nat, customer: Option<Id>, items: seq<Item>, discount: Money,
                             paidAmount: Option<Money>, paymentMethod: Option<Method>, payments: seq<Tender>, notes: Notes)

  datatype SaleReply = SaleReply(sale: Id, credit: Money, balanceAfter: Option<Money>)

  // ------------------------------------------------------------------
  // Lines and totals.

  datatype PreparedLine = PreparedLine(product: Id, unitPrice: Money, cost: Money, quantity: int, discount: Money, total: Money)

  /** A sale charges the product's own price; an exchange takes the client's price when one is sent. */
  function PrepareLine(products: map<Id, Product>, item: Item, clientPrice: bool): Result<PreparedLine> {
    if item.quantity <= 0 then Err(BadRequest)
    else if item.product !in products then Err(NotFound)
    else
      var p := products[item.product];
      if !p.active then Err(BadRequest)
      else
        var price := if clientPrice && item.unitPrice.Some? then item.unitPrice.value else p.salePrice;
        var cost := if p.averageCost > 0 then p.averageCost else p.purchasePrice;
        var discount := Max(item.discount, 0);
        Ok(PreparedLine(item.product, price, cost, item.quantity, discount, Max(price * item.quantity - discount, 0)))
  }

  function PrepareLines(products: map<Id, Product>, items: seq<Item>, clientPrice: bool): Result<seq<PreparedLine>> {
    if items == [] then Ok([])
    else
      var first :- PrepareLine(products, items[0], clientPrice);
      var rest :- PrepareLines(products, items[1..], clientPrice);
      Ok([first] + rest)
  }

  function Subtotal(lines: seq<PreparedLine>): Money {
    if lines == [] then 0 else lines[0].total + Subtotal(lines[1..])
  }

  function Portions(lines: seq<PreparedLine>): (ps: seq<Portion>)
    ensures |ps| == |lines|
    ensures forall i | 0 <= i < |ps| :: ps[i] == Portion(lines[i].product, lines[i].quantity)
  {
    seq(|lines|, i requires 0 <= i < |lines| => Portion(lines[i].product, lines[i].quantity))
  }

  function Prepend(lines: seq<PreparedLine>, rest: Result<seq<PreparedLine>>): Result<seq<PreparedLine>> {
    match rest
    case Err(e) => Err(e)
    case Ok(more) => Ok(lines + more)
  }

  lemma {:induction false} PrependSteps(lines: seq<PreparedLine>, line: PreparedLine, rest: Result<seq<PreparedLine>>)
    ensures Prepend([], rest) == rest && Prepend(lines, Ok([])) == Ok(lines)
    ensures Prepend(lines + [line], rest) == Prepend(lines, Prepend([line], rest))
  {
    assert lines + [] == lines;
    if rest.Ok? {
      assert [] + rest.value == rest.value;
      assert (lines + [line]) + rest.value == lines + ([line] + rest.value);
    }
  }

  method PriceCart(db: Database, items: seq<Item>, clientPrice: bool) returns (r: Result<seq<PreparedLine>>)
    ensures r == PrepareLines(db.products, items, clientPrice)
  {
    var lines: seq<PreparedLine> := [];
    ghost var all := PrepareLines(db.products, items, clientPrice);
    assert all.Ok? ==> [] + all.value == all.value;
    for i := 0 to |items|
      invariant Prepend(lines, PrepareLines(db.products, items[i..], clientPrice)) == all
    {
      var line := PrepareLine(db.products, items[i], clientPrice);
      if line.Err? {
        return Err(line.failure);
      }
      PrependSteps(lines, line.value, PrepareLines(db.products, items[i..][1..], clientPrice));
      lines := lines + [line.value];
    }
    assert lines + [] == lines;
    return Ok(lines);
  }

  /** Prepared lines have positive quantities and totals that are never negative. */
  lemma {:induction false} PreparedLinesAreSane(products: map<Id, Product>, items: seq<Item>, clientPrice: bool)
    requires PrepareLines(products, items, clientPrice).Ok?
    ensures var lines := PrepareLines(products, items, clientPrice).value;
            && |lines| == |items| && Positive(Portions(lines)) && Subtotal(lines) >= 0
            && forall i | 0 <= i < |lines| ::
                 && lines[i].product == items[i].product && lines[i].quantity == items[i].quantity && lines[i].discount == Max(items[i].discount, 0)
                 && lines[i].total == Max(lines[i].unitPrice * lines[i].quantity - lines[i].discount, 0)
  {
    if items != [] {
      PreparedLinesAreSane(products, items[1..], clientPrice);
    }
  }

  // ------------------------------------------------------------------
  // Tenders.

  /** The two spellings of normalizePaymentMethod: a sale's, and an exchange's. */
  function TenderMethod(m: Method, exchange: bool): Method {
    if !exchange then (if m.Bank? then BankTransfer else m)
    else
      match m
      case BankTransfer => Bank
      case Other => Cash
      case Unlisted(_) => Cash
      case _ => m
  }

  function SumTenders(ts: seq<Tender>): Money {
    if ts == [] then 0 else ts[0].amount + SumTenders(ts[1..])
  }

  function CashOf(ts: seq<Tender>): Money {
    if ts == [] then 0 else (if ts[0].means.Cash? then ts[0].amount else 0) + CashOf(ts[1..])
  }

  /** Real payments: positive, and not the pseudo-method CREDIT. */
  function RealTenders(payments: seq<Tender>, exchange: bool): seq<Tender> {
    if payments == [] then []
    else
      var m := TenderMethod(payments[0].means, exchange);
      (if !m.Credit? && payments[0].amount > 0 then [Tender(m, payments[0].amount)] else [])
      + RealTenders(payments[1..], exchange)
  }

  predicate PositiveTenders(ts: seq<Tender>) { forall i | 0 <= i < |ts| :: ts[i].amount > 0 }

  lemma {:induction false} RealTendersArePositive(payments: seq<Tender>, exchange: bool)
    ensures PositiveTenders(RealTenders(payments, exchange))
  {
    if payments != [] {
      RealTendersArePositive(payments[1..], exchange);
    }
  }

  /** The single-payment form of a request, used when no real payment is listed. */
  function LegacyTender(dto: SaleDto, total: Money): seq<Tender> {
    var m := TenderMethod(if dto.paymentMethod.Some? then dto.paymentMethod.value else Cash, false);
    var raw := if dto.paidAmount.None? then (if m.Credit? then 0 else total)
               else if dto.paidAmount.value == 0 && !m.Credit? && dto.customer.None? then total
               else dto.paidAmount.value;
    if !m.Credit? && Max(raw, 0) > 0 then [Tender(m, raw)] else []
  }

  function SaleTenders(dto: SaleDto, total: Money): seq<Tender> {
    var listed := RealTenders(dto.payments, false);
    if listed == [] then LegacyTender(dto, total) else listed
  }

  method CollectTenders(payments: seq<Tender>, exchange: bool) returns (ts: seq<Tender>)
    ensures ts == RealTenders(payments, exchange)
  {
    ts := [];
    for i := 0 to |payments|
      invariant ts + RealTenders(payments[i..], exchange) == RealTenders(payments, exchange)
    {
      var m := TenderMethod(payments[i].means, exchange);
      ghost var rest := RealTenders(payments[i..][1..], exchange);
      if m != Credit && payments[i].amount > 0 {
        assert ts + ([Tender(m, payments[i].amount)] + rest) == (ts + [Tender(m, payments[i].amount)]) + rest;
        ts := ts + [Tender(m, payments[i].amount)];
      } else {
        assert [] + rest == rest;
      }
    }
  }

  /** Greedy allocation of tenders to an amount due. */
  function Allocate(ts: seq<Tender>, due: Money): seq<Tender>
    decreases |ts|
  {
    if ts == [] || due <= 0 then []
    else
      var part := Min(ts[0].amount, due);
      if part > 0 then [Tender(ts[0].means, part)] + Allocate(ts[1..], due - part) else Allocate(ts[1..], due)
  }

  /** The greedy loop hands out exactly the smaller of what was tendered and what is due, and only positive shares. */
  lemma {:induction false} AllocationIsExact(ts: seq<Tender>, due: Money)
    requires PositiveTenders(ts) && due >= 0
    ensures SumTenders(Allocate(ts, due)) == Min(SumTenders(ts), due)
    ensures PositiveTenders(Allocate(ts, due))
    ensures SumTenders(ts) >= 0
    ensures 0 <= CashOf(Allocate(ts, due)) <= CashOf(ts)
    decreases |ts|
  {
    if ts != [] {
      AllocationIsExact(ts[1..], due - Min(ts[0].amount, due));
    }
  }

  /** sale_payments accepts only these method names. */
  predicate Storable(m: Method) { !m.Bank? && !m.Credit? && !m.Unlisted? }

  predicate AllStorable(ts: seq<Tender>) { forall i | 0 <= i < |ts| :: Storable(ts[i].means) }

  function PaymentRows(sale: Id, ts: seq<Tender>): (rows: seq<SalePay>)
    ensures |rows| == |ts|
    ensures forall i | 0 <= i < |rows| :: rows[i] == SalePay(sale, ts[i].amount, ts[i].means, None)
  {
    seq(|ts|, i requires 0 <= i < |ts| => SalePay(sale, ts[i].amount, ts[i].means, None))
  }

  /** Inserts one payment row per allocated tender; a method the schema rejects raises an error. */
  method InsertPayments(db: Database, sale: Id, ts: seq<Tender>, due: Money) returns (ok: bool, shares: seq<Tender>)
    modifies db
    ensures ok <==> AllStorable(Allocate(ts, due))
    ensures ok ==> shares == Allocate(ts, due)
    ensures ok ==> db.Contents() == old(db.Contents()).(books := old(db.books).(payments := old(db.books.payments) + PaymentRows(sale, shares)))
  {
    var before := db.Contents();
    var remaining := due;
    shares := [];
    for i := 0 to |ts|
      invariant shares + Allocate(ts[i..], remaining) == Allocate(ts, due)
      invariant AllStorable(shares)
      invariant db.Contents() == before.(books := before.books.(payments := before.books.payments + PaymentRows(sale, shares)))
    {
      if remaining <= 0 {
        assert Allocate(ts[i..], remaining) == [];
        assert shares + [] == shares;
        return true, shares;
      }
      var part := Min(ts[i].amount, remaining);
      if part > 0 {
        var share := Tender(ts[i].means, part);
        assert Allocate(ts[i..], remaining) == [share] + Allocate(ts[i + 1..], remaining - part);
        assert Allocate(ts, due)[|shares|] == share;
        if !Storable(share.means) {
          return false, shares;
        }
        assert PaymentRows(sale, shares + [share]) == PaymentRows(sale, shares) + [SalePay(sale, part, share.means, None)];
        db.books := db.books.(payments := db.books.payments + [SalePay(sale, part, share.means, None)]);
        assert shares + ([share] + Allocate(ts[i + 1..], remaining - part)) == (shares + [share]) + Allocate(ts[i + 1..], remaining - part);
        shares := shares + [share];
        remaining := remaining - part;
      }
    }
    assert shares + [] == shares;
    return true, shares;
  }

  // ------------------------------------------------------------------
  // Document numbers.

  function NextValue(counters: map<Counter, nat>, c: Counter): nat {
    if c in counters then counters[c] else 1
  }

  /** INSERT … ON CONFLICT DO UPDATE … RETURNING the value just used. */
  function Bump(counters: map<Counter, nat>, c: Counter): map<Counter, nat> {
    counters[c := NextValue(counters, c) + 1]
  }

  // ------------------------------------------------------------------
  // Writing lines.

  function SaleLines(sale: Id, lines: seq<PreparedLine>): (rows: seq<SaleLine>)
    ensures |rows| == |lines|
    ensures forall i | 0 <= i < |rows| ::
              rows[i] == SaleLine(sale, lines[i].product, lines[i].unitPrice, lines[i].cost, lines[i].quantity, lines[i].discount, lines[i].total)
  {
    seq(|lines|, i requires 0 <= i < |lines| =>
      SaleLine(sale, lines[i].product, lines[i].unitPrice, lines[i].cost, lines[i].quantity, lines[i].discount, lines[i].total))
  }

  /** Deducts line by line; a negative price fails the CHECK of the line's row. */
  function WriteAll(inv: Inventory, branch: Id, lines: seq<PreparedLine>, reference: Ref): Result<Inventory>
    decreases |lines|
  {
    if lines == [] then Ok(inv)
    else if lines[0].unitPrice < 0 || lines[0].cost < 0 then Err(CheckViolation)
    else
      var next :- Deduct(inv, branch, Portion(lines[0].product, lines[0].quantity), reference);
      WriteAll(next, branch, lines[1..], reference)
  }

  lemma {:induction false} WriteAllDeducts(inv: Inventory, branch: Id, lines: seq<PreparedLine>, reference: Ref)
    ensures WriteAll(inv, branch, lines, reference).Ok? ==> WriteAll(inv, branch, lines, reference) == DeductAll(inv, branch, Portions(lines), reference)
    ensures (forall i | 0 <= i < |lines| :: lines[i].unitPrice >= 0 && lines[i].cost >= 0) ==>
              WriteAll(inv, branch, lines, reference) == DeductAll(inv, branch, Portions(lines), reference)
    decreases |lines|
  {
    if lines != [] {
      var first := Deduct(inv, branch, Portion(lines[0].product, lines[0].quantity), reference);
      assert Portions(lines)[1..] == Portions(lines[1..]);
      if first.Ok? {
        WriteAllDeducts(first.value, branch, lines[1..], reference);
      }
    }
  }

  /** The loop over lines: a sale_lines row, a stock update and a movement each. */
  method InsertLines(db: Database, sale: Id, branch: Id, lines: seq<PreparedLine>) returns (r: Result<bool>)
    modifies db
    ensures r.Ok? <==> WriteAll(old(db.inventory), branch, lines, SaleRef(sale)).Ok?
    ensures r.Err? ==> r.failure == WriteAll(old(db.inventory), branch, lines, SaleRef(sale)).failure
    ensures r.Ok? ==> db.Contents() == old(db.Contents()).(
                        inventory := WriteAll(old(db.inventory), branch, lines, SaleRef(sale)).value,
                        books := old(db.books).(lines := old(db.books.lines) + SaleLines(sale, lines)))
  {
    var before := db.Contents();
    for i := 0 to |lines|
      invariant WriteAll(db.inventory, branch, lines[i..], SaleRef(sale)) == WriteAll(before.inventory, branch, lines, SaleRef(sale))
      invariant db.Contents() == before.(inventory := db.inventory, books := before.books.(lines := before.books.lines + SaleLines(sale, lines)[..i]))
    {
      var line := lines[i];
      if line.unitPrice < 0 || line.cost < 0 {
        return Err(CheckViolation);
      }
      var row := SaleLine(sale, line.product, line.unitPrice, line.cost, line.quantity, line.discount, line.total);
      assert SaleLines(sale, lines)[..i + 1] == SaleLines(sale, lines)[..i] + [row];
      db.books := db.books.(lines := db.books.lines + [row]);
      var shelf := Shelf(line.product, branch);
      if shelf !in db.inventory.stock {
        return Err(ServerError);
      }
      var previous := db.inventory.stock[shelf];
      if previous - line.quantity < 0 {
        return Err(CheckViolation);
      }
      db.inventory := db.inventory.(stock := db.inventory.stock[shelf := previous - line.quantity]);
      db.inventory := db.inventory.(moves := db.inventory.moves
        + [Movement(shelf, Out, line.quantity, previous, previous - line.quantity, SaleRef(sale))]);
    }
    return Ok(true);
  }
}
