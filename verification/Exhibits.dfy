/** Literal requests on literal tables: the inputs behind the conditions proved elsewhere. */
module Exhibits {
  import opened Wrappers
  import opened Tables
  import opened StockLog
  import opened StockTransfer
  import opened CashDesk
  import opened CustomerLedger
  import opened Checkout
  import opened Bookkeeping
  import opened Sales
  import opened Returns
  import opened Exchange
  import opened ExchangeLaws
  import opened ExchangeTerms
  import opened ProductStock
  import opened Frames
  import opened Runs
  import opened Isolation
  import opened Statements
  import opened Readings
  import opened Footprints
  import opened Races
  import opened Concurrency
  import opened Overtaking
  import SaleProtocol

  // ------------------------------------------------------------------
  // One unit of product 7 was sold at branch 1; two units of product 8 are on its shelf.

  function SoldAt(branch: Id, customer: Option<Id>, price: Money, value: nat): Sale {
    Sale(Number(Counter(InvoiceSeries(branch, 1), 0), value), branch, customer, price, 0, price, price, 0, Paid, NoNotes)
  }

  function Corner(price: Money, customer: Option<Id>, open: bool, rowBack: bool): Tables {
    Tables(map[1 := Branch(0, true, false)], map[7 := Product(5, 3, 3, true), 8 := Product(10, 6, 6, true)], map[1 := Customer(0, true)],
           Inventory(if rowBack then map[Shelf(7, 1) := 0, Shelf(8, 1) := 2] else map[Shelf(8, 1) := 2], []), [], map[],
           Till(if open then [Session(1, 0, Open)] else [], []), [], [],
           Books([SoldAt(1, customer, price, 1)], [SaleLine(0, 7, price, 3, 1, 0, price)], [SalePay(0, price, Cash, None)], [], [],
                 map[Counter(InvoiceSeries(1, 1), 0) := 2]),
           Workshop([], map[], 0, [], map[]))
  }

  /** The unit comes back for the given items. */
  function SwapFor(items: seq<Item>, refund: Option<Method>, payments: seq<Tender>, paid: Option<Money>): ExchangeDto {
    ExchangeDto(0, 0, [ReturnItem(0, 1)], items, 0, refund, payments, paid, None, NoNotes)
  }

  lemma {:induction false} OneComesBack(b: Books, sale: Id, line: Id)
    requires line < |b.lines| && b.lines[line].sale == sale && Bookkeeping.Returned(b.returnLines, line) + 1 <= b.lines[line].quantity
    ensures var back := [PreparedReturn(line, b.lines[line].product, b.lines[line].unitPrice, 1)];
            PrepareReturns(b, sale, [ReturnItem(line, 1)]) == Ok(back) && ReturnTotal(back) == b.lines[line].unitPrice
  {
    var items, back := [ReturnItem(line, 1)], PreparedReturn(line, b.lines[line].product, b.lines[line].unitPrice, 1);
    assert PrepareReturn(b, sale, items[0]) == Ok(back) && items[1..] == [] && [back] + [] == [back];
    assert [back][1..] == [] && ReturnTotal([]) == 0;
  }

  function PlanFor(original: Sale, line: Id, row: SaleLine, lines: seq<PreparedLine>, discount: Money, refund: Option<RefundMethod>): Plan {
    Plan(original.branch, original.customer, [PreparedReturn(line, row.product, row.unitPrice, 1)], lines, row.unitPrice,
         Subtotal(lines), discount, Max(Subtotal(lines) - discount, 0), refund)
  }

  /** A one-line exchange is planned as its figures say. */
  lemma {:induction false} SwapIsPlanned(t: Tables, dto: ExchangeDto, line: Id, lines: seq<PreparedLine>, refund: Option<RefundMethod>)
    requires dto.goods == [ReturnItem(line, 1)] && dto.items != [] && dto.sale < |t.books.sales| && line < |t.books.lines|
    requires t.books.lines[line].sale == dto.sale && Bookkeeping.Returned(t.books.returnLines, line) + 1 <= t.books.lines[line].quantity
    requires PrepareLines(t.products, dto.items, true) == Ok(lines) && Available(t.inventory.stock, t.books.sales[dto.sale].branch, Portions(lines))
    requires var total := Max(Subtotal(lines) - Max(dto.discount, 0), 0);
             ChooseRefund(total - t.books.lines[line].unitPrice, dto.refund, t.books.sales[dto.sale].customer) == Ok(refund)
    ensures PrepareExchange(t, dto) == Ok(PlanFor(t.books.sales[dto.sale], line, t.books.lines[line], lines, Max(dto.discount, 0), refund))
  {
    OneComesBack(t.books, dto.sale, line);
  }

  function Priced(ask: Money): PreparedLine { PreparedLine(8, ask, 6, 1, 0, Max(ask, 0)) }

  lemma {:induction false} OnePricedLine(products: map<Id, Product>, stock: map<Shelf, int>, branch: Id, ask: Money)
    requires 8 in products && products[8] == Product(10, 6, 6, true) && Shelf(8, branch) in stock && stock[Shelf(8, branch)] >= 1
    ensures PrepareLines(products, [Item(8, 1, Some(ask), 0)], true) == Ok([Priced(ask)]) && Subtotal([Priced(ask)]) == Max(ask, 0)
    ensures Available(stock, branch, Portions([Priced(ask)]))
  {
    var items, line := [Item(8, 1, Some(ask), 0)], Priced(ask);
    assert PrepareLine(products, items[0], true) == Ok(line) && items[1..] == [] && [line] + [] == [line];
    assert [line][1..] == [] && Subtotal([]) == 0;
    var out := Portions([line]);
    assert out == [Portion(8, 1)] && out[1..] == [] && Wanted(out, 8) == 1;
  }

  /** The plan of one unit against one unit at the asked price. */
  function OneForOne(price: Money, customer: Option<Id>, ask: Money, refund: Option<RefundMethod>): Plan {
    Plan(1, customer, [PreparedReturn(0, 7, price, 1)], [Priced(ask)], price, Max(ask, 0), 0, Max(ask, 0), refund)
  }

  lemma {:induction false} OneForOneIsPlanned(price: Money, customer: Option<Id>, open: bool, rowBack: bool, ask: Money,
                                              refund: Option<Method>, payments: seq<Tender>, paid: Option<Money>, chosen: Option<RefundMethod>)
    requires ChooseRefund(Max(ask, 0) - price, refund, customer) == Ok(chosen)
    ensures PrepareExchange(Corner(price, customer, open, rowBack), SwapFor([Item(8, 1, Some(ask), 0)], refund, payments, paid))
         == Ok(OneForOne(price, customer, ask, chosen))
  {
    var t, dto := Corner(price, customer, open, rowBack), SwapFor([Item(8, 1, Some(ask), 0)], refund, payments, paid);
    OnePricedLine(t.products, t.inventory.stock, 1, ask);
    SwapIsPlanned(t, dto, 0, [Priced(ask)], chosen);
  }

  // ------------------------------------------------------------------
  // Planned exchanges that never commit, one for each guard of ExchangeCommitsIff.

  /** A free replacement: the offset payment would be zero. */
  lemma {:induction false} FreeReplacementFails()
    ensures var t, dto := Corner(5, None, true, true), SwapFor([Item(8, 1, Some(0), 0)], Some(Cash), [], None);
            PrepareExchange(t, dto).Ok? && ExchangeSpec(t, dto).0.Err?
  {
    OneForOneIsPlanned(5, None, true, true, 0, Some(Cash), [], None, Some(RefundCash));
    ExchangeCommitsIff(Corner(5, None, true, true), SwapFor([Item(8, 1, Some(0), 0)], Some(Cash), [], None));
  }

  /** Goods that were sold for nothing: the return would be worth zero. */
  lemma {:induction false} WorthlessReturnFails()
    ensures var t, dto := Corner(0, Some(1), true, true), SwapFor([Item(8, 1, Some(10), 0)], None, [], Some(0));
            PrepareExchange(t, dto).Ok? && ExchangeSpec(t, dto).0.Err?
  {
    OneForOneIsPlanned(0, Some(1), true, true, 10, None, [], Some(0), None);
    ExchangeCommitsIff(Corner(0, Some(1), true, true), SwapFor([Item(8, 1, Some(10), 0)], None, [], Some(0)));
  }

  function Mixed(): seq<Tender> { [Tender(Cash, 3), Tender(BankTransfer, 2)] }

  lemma {:induction false} MixedShares(dto: ExchangeDto)
    requires dto.payments == Mixed()
    ensures Allocate(ExchangeTenders(dto, 5), 5) == [Tender(Cash, 3), Tender(Bank, 2)]
  {
    var known := [Tender(Cash, 3), Tender(Bank, 2)];
    assert Mixed()[1..] == [Tender(BankTransfer, 2)] && Mixed()[1..][1..] == [];
    assert RealTenders(Mixed()[1..], true) == [Tender(Bank, 2)];
    assert ExchangeTenders(dto, 5) == known;
    assert known[1..] == [Tender(Bank, 2)] && known[1..][1..] == [];
    assert Allocate(known[1..], 2) == [Tender(Bank, 2)];
    assert Allocate(known, 5) == [Tender(Cash, 3)] + Allocate(known[1..], 2);
  }

  /** A bank share, here after a cash one: the method is normalized to a name the schema refuses. */
  lemma {:induction false} BankShareFails()
    ensures var t, dto := Corner(5, Some(1), true, true), SwapFor([Item(8, 1, Some(10), 0)], None, Mixed(), None);
            PrepareExchange(t, dto).Ok? && ExchangeSpec(t, dto).0.Err?
  {
    var t, dto := Corner(5, Some(1), true, true), SwapFor([Item(8, 1, Some(10), 0)], None, Mixed(), None);
    OneForOneIsPlanned(5, Some(1), true, true, 10, None, Mixed(), None, None);
    ExchangeCommitsIff(t, dto);
    MixedShares(dto);
    assert !Storable(Allocate(ExchangeTenders(dto, 5), 5)[1].means);
  }

  /** No stock row for the returned product. */
  lemma {:induction false} MissingRowFails()
    ensures var t, dto := Corner(5, Some(1), true, false), SwapFor([Item(8, 1, Some(10), 0)], None, [], Some(0));
            PrepareExchange(t, dto).Ok? && ExchangeSpec(t, dto).0.Err?
  {
    OneForOneIsPlanned(5, Some(1), true, false, 10, None, [], Some(0), None);
    ExchangeCommitsIff(Corner(5, Some(1), true, false), SwapFor([Item(8, 1, Some(10), 0)], None, [], Some(0)));
  }

  /** A debt with nobody to owe it. */
  lemma {:induction false} AnonymousDebtFails()
    ensures var t, dto := Corner(5, None, true, true), SwapFor([Item(8, 1, Some(10), 0)], None, [], Some(0));
            PrepareExchange(t, dto).Ok? && ExchangeSpec(t, dto).0.Err?
  {
    OneForOneIsPlanned(5, None, true, true, 10, None, [], Some(0), None);
    ExchangeCommitsIff(Corner(5, None, true, true), SwapFor([Item(8, 1, Some(10), 0)], None, [], Some(0)));
  }

  /** Cash taken while no session is open. */
  lemma {:induction false} CashWithoutSessionFails()
    ensures var t, dto := Corner(5, Some(1), false, true), SwapFor([Item(8, 1, Some(10), 0)], None, [], Some(5));
            PrepareExchange(t, dto).Ok? && ExchangeSpec(t, dto).0.Err?
  {
    var t, dto := Corner(5, Some(1), false, true), SwapFor([Item(8, 1, Some(10), 0)], None, [], Some(5));
    OneForOneIsPlanned(5, Some(1), false, true, 10, None, [], Some(5), None);
    ExchangeCommitsIff(t, dto);
    var ts := [Tender(Cash, 5)];
    assert ExchangeTenders(dto, 5) == ts && ts[1..] == [] && Allocate(ts[1..], 0) == [];
    assert Allocate(ts, 5) == ts && CashOf(ts) == 5 + CashOf(ts[1..]);
  }

  /** A cash refund while no session is open. */
  lemma {:induction false} RefundWithoutSessionFails()
    ensures var t, dto := Corner(5, Some(1), false, true), SwapFor([Item(8, 1, Some(3), 0)], Some(Cash), [], None);
            PrepareExchange(t, dto).Ok? && ExchangeSpec(t, dto).0.Err?
  {
    OneForOneIsPlanned(5, Some(1), false, true, 3, Some(Cash), [], None, Some(RefundCash));
    ExchangeCommitsIff(Corner(5, Some(1), false, true), SwapFor([Item(8, 1, Some(3), 0)], Some(Cash), [], None));
  }

  lemma {:induction false} TwoPricedLines(products: map<Id, Product>, stock: map<Shelf, int>, branch: Id, first: Money, second: Money)
    requires 8 in products && products[8] == Product(10, 6, 6, true) && Shelf(8, branch) in stock && stock[Shelf(8, branch)] >= 2
    ensures PrepareLines(products, [Item(8, 1, Some(first), 0), Item(8, 1, Some(second), 0)], true) == Ok([Priced(first), Priced(second)])
    ensures Subtotal([Priced(first), Priced(second)]) == Max(first, 0) + Max(second, 0)
    ensures Available(stock, branch, Portions([Priced(first), Priced(second)]))
  {
    var items, lines := [Item(8, 1, Some(first), 0), Item(8, 1, Some(second), 0)], [Priced(first), Priced(second)];
    OnePricedLine(products, stock, branch, second);
    assert items[1..] == [Item(8, 1, Some(second), 0)] && lines[1..] == [Priced(second)] && [Priced(first)] + [Priced(second)] == lines;
    assert PrepareLine(products, items[0], true) == Ok(Priced(first));
    var out := Portions(lines);
    assert out == [Portion(8, 1), Portion(8, 1)] && out[1..] == [Portion(8, 1)] && out[1..][1..] == [];
    assert Wanted(out[1..], 8) == 1 && Wanted(out, 8) == 1 + Wanted(out[1..], 8);
  }

  /** A negative price sent by the client for one of two lines. */
  lemma {:induction false} NegativePriceFails()
    ensures var t, dto := Corner(5, Some(1), true, true), SwapFor([Item(8, 1, Some(-1), 0), Item(8, 1, Some(10), 0)], None, [], Some(0));
            PrepareExchange(t, dto).Ok? && ExchangeSpec(t, dto).0.Err?
  {
    var t, dto := Corner(5, Some(1), true, true), SwapFor([Item(8, 1, Some(-1), 0), Item(8, 1, Some(10), 0)], None, [], Some(0));
    TwoPricedLines(t.products, t.inventory.stock, 1, -1, 10);
    SwapIsPlanned(t, dto, 0, [Priced(-1), Priced(10)], None);
    ExchangeCommitsIff(t, dto);
    assert PrepareExchange(t, dto).value.lines[0].unitPrice < 0;
  }

  /** With all guards met, the exchange commits: the customer owes the difference. */
  lemma {:induction false} OwedSwapCommits()
    ensures ExchangeSpec(Corner(5, Some(1), false, true), SwapFor([Item(8, 1, Some(10), 0)], None, [], Some(0))).0.Ok?
  {
    var t, dto := Corner(5, Some(1), false, true), SwapFor([Item(8, 1, Some(10), 0)], None, [], Some(0));
    OneForOneIsPlanned(5, Some(1), false, true, 10, None, [], Some(0), None);
    ExchangeCommitsIff(t, dto);
    assert ExchangeTenders(dto, 5) == [] && Allocate([], 5) == [] && SumTenders([]) == 0 && CashOf([]) == 0;
  }

  /** Goods of 5 for a replacement of 3, refunded by CREDIT with no session open: the account falls by 2 and the till stays. */
  lemma {:induction false} CreditRefundGoesToTheAccount()
    ensures var t, dto := Corner(5, Some(1), false, true), SwapFor([Item(8, 1, Some(3), 0)], Some(Credit), [], None);
            var (r, after) := ExchangeSpec(t, dto);
            && r.Ok? && r.value.refund == Some(RefundCredit) && r.value.cashRefunded == None && after.till == t.till
            && after.ledger == [LedgerEntry(1, ReturnRef(0), ReturnEntry, 0, 2, -2)]
  {
    var t, dto := Corner(5, Some(1), false, true), SwapFor([Item(8, 1, Some(3), 0)], Some(Credit), [], None);
    OneForOneIsPlanned(5, Some(1), false, true, 3, Some(Credit), [], None, Some(RefundCredit));
    ExchangeCommitsIff(t, dto);
    PlanFigures(t, dto, OneForOne(5, Some(1), 3, Some(RefundCredit)));
    ExchangeRefundsAsAsked(t, dto);
    ExchangeHasItsReturn(t, dto);
  }

  // ------------------------------------------------------------------
  // A sold unit that comes back twice.

  lemma {:induction false} TwiceBackIsPlanned(t: Tables, dto: ExchangeDto)
    requires t == Corner(5, Some(1), false, true)
    requires dto == SwapFor([Item(8, 1, Some(12), 0)], None, [], Some(0)).(goods := [ReturnItem(0, 1), ReturnItem(0, 1)])
    ensures var one := PreparedReturn(0, 7, 5, 1);
            PrepareExchange(t, dto) == Ok(Plan(1, Some(1), [one, one], [Priced(12)], 10, 12, 0, 12, None))
  {
    var one := PreparedReturn(0, 7, 5, 1);
    assert PrepareReturn(t.books, 0, ReturnItem(0, 1)) == Ok(one);
    OneThenTwo(t.books, ReturnItem(0, 1), one);
    assert [one, one][1..] == [one] && [one][1..] == [] && ReturnTotal([one]) == 5 && ReturnTotal([one, one]) == 10;
    OnePricedLine(t.products, t.inventory.stock, 1, 12);
  }

  lemma {:induction false} TwiceBackCommits(t: Tables, dto: ExchangeDto)
    requires t == Corner(5, Some(1), false, true)
    requires dto == SwapFor([Item(8, 1, Some(12), 0)], None, [], Some(0)).(goods := [ReturnItem(0, 1), ReturnItem(0, 1)])
    ensures ExchangeSpec(t, dto).0.Ok?
  {
    TwiceBackIsPlanned(t, dto);
    ExchangeCommitsIff(t, dto);
    assert ExchangeTenders(dto, 2) == [] && Allocate([], 2) == [] && SumTenders([]) == 0 && CashOf([]) == 0;
  }

  /** An accepted exchange that names one line twice takes back two units of one sold. */
  lemma {:induction false} ExchangeReturnsTwice()
    ensures var t := Corner(5, Some(1), false, true);
            var dto := SwapFor([Item(8, 1, Some(12), 0)], None, [], Some(0)).(goods := [ReturnItem(0, 1), ReturnItem(0, 1)]);
            && NothingOverReturned(t.books) && ExchangeSpec(t, dto).0.Ok?
            && t.books.lines[0].quantity == 1 && Bookkeeping.Returned(ExchangeSpec(t, dto).1.books.returnLines, 0) == 2
  {
    var t := Corner(5, Some(1), false, true);
    var item, one := ReturnItem(0, 1), PreparedReturn(0, 7, 5, 1);
    var dto := SwapFor([Item(8, 1, Some(12), 0)], None, [], Some(0)).(goods := [item, item]);
    TwiceBackCommits(t, dto);
    TwiceBackIsPlanned(t, dto);
    TwoRowsAddUp(t, item);
    assert [] + ReturnRows(0, [one, one]) == ReturnRows(0, [one, one]);
  }

  lemma {:induction false} TwoRowsAddUp(t: Tables, item: ReturnItem)
    requires t == Corner(5, Some(1), false, true) && item == ReturnItem(0, 1)
    ensures var one := PreparedReturn(0, 7, 5, 1); Bookkeeping.Returned(ReturnRows(0, [one, one]), 0) == 2
  {
    var one := PreparedReturn(0, 7, 5, 1);
    assert PrepareReturn(t.books, 0, item) == Ok(one);
    OneThenTwo(t.books, item, one);
    RowsAddUp(t.books, 0, [item, item], 0, 0);
    assert [item, item][1..] == [item] && [item][1..] == [] && Requested([item], 0) == 1 && Requested([item, item], 0) == 2;
  }

  // ------------------------------------------------------------------
  // Keys that do not protect.

  /** A sale of one unit of product 8 on the account of customer 1. */
  function OnAccount(): SaleDto { SaleDto(1, 1, 0, Some(1), [Item(8, 1, None, 0)], 0, Some(0), None, [], NoNotes) }

  ghost predicate Stocked(t: Tables, units: int) {
    && t.branches == map[1 := Branch(0, true, false)] && t.customers == map[1 := Customer(0, true)]
    && 8 in t.products && t.products[8] == Product(10, 6, 6, true)
    && Shelf(8, 1) in t.inventory.stock && t.inventory.stock[Shelf(8, 1)] == units
  }

  lemma {:induction false} OnAccountIsPrepared(t: Tables, units: int)
    requires Stocked(t, units) && units >= 1
    ensures PrepareSale(t, OnAccount()) == Ok(Bill([PreparedLine(8, 10, 6, 1, 0, 10)], 10, 0, 10, []))
  {
    var items, line := OnAccount().items, PreparedLine(8, 10, 6, 1, 0, 10);
    assert PrepareLine(t.products, items[0], false) == Ok(line) && items[1..] == [] && [line] + [] == [line];
    assert PrepareLines(t.products, items, false) == Ok([line]);
    assert [line][1..] == [] && Subtotal([line]) == 10;
    var out := Portions([line]);
    assert out == [Portion(8, 1)] && out[1..] == [] && Wanted(out, 8) == 1;
    assert SaleTenders(OnAccount(), 10) == [];
  }

  lemma {:induction false} OnAccountIsAccepted(t: Tables, units: int)
    requires Stocked(t, units) && units >= 1
    ensures SaleSpec(t, OnAccount()).0.Ok? && Stocked(SaleSpec(t, OnAccount()).1, units - 1)
  {
    OnAccountIsPrepared(t, units);
    var b, ref := PrepareSale(t, OnAccount()).value, SaleRef(|t.books.sales|);
    assert b.lines[1..] == [];
    var next := Deduct(t.inventory, 1, Portion(8, 1), ref);
    assert WriteAll(next.value, 1, b.lines[1..], ref) == next;
    assert WriteAll(t.inventory, 1, b.lines, ref) == next;
    assert Allocate([], 10) == [] && CashOf([]) == 0;
  }

  function CartRequest(slot: Option<SaleProtocol.Slot>): SaleProtocol.Request<Basket> {
    SaleProtocol.Request(SaleProtocol.Sale, slot, CartOf(OnAccount()))
  }

  function SwapRequest(slot: Option<SaleProtocol.Slot>): SaleProtocol.Request<Basket> {
    SaleProtocol.Request(SaleProtocol.Exchange, slot, SwapOf(SwapFor([Item(8, 1, Some(10), 0)], None, [], Some(0))))
  }

  /** One sale sent twice without a key is booked twice. */
  lemma {:induction false} UnkeyedSaleRepeats(hash: SaleProtocol.LockHash) returns (events: seq<SaleProtocol.Event<Basket>>, w: SaleProtocol.World<Basket, Tables>)
    ensures SaleProtocol.Run(CheckoutBody, hash, Corner(5, Some(1), false, true), events) == Some(w)
    ensures w.commits == [SaleProtocol.CommitRecord(0, CartRequest(None)), SaleProtocol.CommitRecord(1, CartRequest(None))]
  {
    var t := Corner(5, Some(1), false, true);
    OnAccountIsAccepted(t, 2);
    OnAccountIsAccepted(SaleSpec(t, OnAccount()).1, 1);
    events, w := SaleProtocol.UnkeyedRequestsRepeat(CheckoutBody, hash, t, CartRequest(None));
  }

  lemma {:induction false} StockedAfterSwap(t: Tables, dto: ExchangeDto)
    requires t == Corner(5, Some(1), false, true) && dto == SwapFor([Item(8, 1, Some(10), 0)], None, [], Some(0))
    ensures ExchangeSpec(t, dto).0.Ok? && Stocked(ExchangeSpec(t, dto).1, 1)
  {
    OwedSwapCommits();
    OneForOneIsPlanned(5, Some(1), false, true, 10, None, [], Some(0), None);
    ExchangeMovesItsTotals(t, dto);
    var p := PrepareExchange(t, dto).value;
    var back, out := Back(p.back), Portions(p.lines);
    assert back == [Portion(7, 1)] && back[1..] == [] && Wanted(back, 8) == 0;
    assert out == [Portion(8, 1)] && out[1..] == [] && Wanted(out, 8) == 1;
  }

  /** A sale and an exchange under one key are both booked, and the sale's retry gets 409. */
  lemma {:induction false} SharedKeyBooksBoth(hash: SaleProtocol.LockHash, slot: SaleProtocol.Slot)
    returns (events: seq<SaleProtocol.Event<Basket>>, w: SaleProtocol.World<Basket, Tables>)
    requires hash(SaleProtocol.Sale, slot) != hash(SaleProtocol.Exchange, slot)
    ensures SaleProtocol.Run(CheckoutBody, hash, Corner(5, Some(1), false, true), events) == Some(w)
    ensures w.commits == [SaleProtocol.CommitRecord(1, SwapRequest(Some(slot))), SaleProtocol.CommitRecord(0, CartRequest(Some(slot)))]
    ensures |w.threads| == 3 && w.threads[2] == SaleProtocol.Thread(CartRequest(Some(slot)), SaleProtocol.Done(SaleProtocol.Conflict))
  {
    var t, q := Corner(5, Some(1), false, true), SwapRequest(Some(slot)).payload;
    StockedAfterSwap(t, q.swap);
    OnAccountIsAccepted(ExchangeSpec(t, q.swap).1, 1);
    events, w := SaleProtocol.SaleAndExchangeCanShareASlot(CheckoutBody, hash, t, slot, CartOf(OnAccount()), q);
  }

  // ------------------------------------------------------------------
  // The balance race: customer 1 exchanges a purchase at branch 1 and one at branch 2.

  function TwoCorners(): Tables {
    Corner(5, Some(1), false, true).(
      branches := map[1 := Branch(0, true, false), 2 := Branch(0, true, false)],
      inventory := Inventory(map[Shelf(7, 1) := 0, Shelf(8, 1) := 1, Shelf(7, 2) := 0, Shelf(8, 2) := 1], []),
      books := Books([SoldAt(1, Some(1), 5, 1), SoldAt(2, Some(1), 5, 1)], [SaleLine(0, 7, 5, 3, 1, 0, 5), SaleLine(1, 7, 5, 3, 1, 0, 5)], [], [], [],
                     map[Counter(InvoiceSeries(1, 1), 0) := 2, Counter(InvoiceSeries(2, 1), 0) := 2]))
  }

  function OwedSwap(sale: Id): ExchangeDto {
    ExchangeDto(sale, 0, [ReturnItem(sale, 1)], [Item(8, 1, Some(10), 0)], 0, None, [], Some(0), None, NoNotes)
  }

  function OwedRequest(sale: Id): Statements.Request { OfExchange(OwedSwap(sale), sale + 1, Some(1), [7]) }

  function OwedPlan(sale: Id): Plan {
    Plan(sale + 1, Some(1), [PreparedReturn(sale, 7, 5, 1)], [Priced(10)], 5, 10, 0, 10, None)
  }

  lemma {:induction false} OwedSwapIsPlanned(sale: Id)
    requires sale < 2
    ensures PrepareExchange(TwoCorners(), OwedSwap(sale)) == Ok(OwedPlan(sale))
  {
    var t := TwoCorners();
    OnePricedLine(t.products, t.inventory.stock, sale + 1, 10);
    SwapIsPlanned(t, OwedSwap(sale), sale, [Priced(10)], None);
  }

  lemma {:induction false} OwedSwapIsAccepted(t: Tables, sale: Id)
    requires PrepareExchange(t, OwedSwap(sale)) == Ok(OwedPlan(sale)) && Shelf(7, sale + 1) in t.inventory.stock
    ensures PostsTo(t, OwedRequest(sale), 1)
  {
    assert ExchangeTenders(OwedSwap(sale), 5) == [] && Allocate([], 5) == [] && SumTenders([]) == 0 && CashOf([]) == 0;
    ExchangeCommitsIff(t, OwedSwap(sale));
  }

  lemma {:induction false} OwedSwapPosts(sale: Id)
    requires sale < 2
    ensures PostsTo(TwoCorners(), OwedRequest(sale), 1)
  {
    OwedSwapIsPlanned(sale);
    OwedSwapIsAccepted(TwoCorners(), sale);
  }

  lemma {:induction false} TwoCornersAreSound()
    ensures RowsBelong(TwoCorners().books) && RunningIndex(TwoCorners().ledger)
  {}

  /** Both exchanges commit, each leaving a debt of 5, and the second entry says that 5 is owed in all. */
  lemma {:induction false} BalanceRaceHappens() returns (events: seq<ShopEvent>, w: ShopWorld)
    ensures Isolation.Run(Shop(), TwoCorners(), events) == Some(w) && w.commits == [OwedRequest(1), OwedRequest(0)]
    ensures RunningIndex(TwoCorners().ledger) && !RunningIndex(w.shop.ledger)
  {
    TwoCornersAreSound();
    OwedSwapPosts(0);
    OwedSwapPosts(1);
    events, w := BalanceRaceBreaksIndex(TwoCorners(), OwedRequest(0), OwedRequest(1), 1);
  }

  // ------------------------------------------------------------------
  // The row race: one unit each from branches 1 and 2 to branch 3, which has never held the product.

  function TwoSources(): Tables {
    var moves := [Movement(Shelf(8, 1), In, 1, 0, 1, NoRef), Movement(Shelf(8, 2), In, 1, 0, 1, NoRef)];
    Corner(5, None, false, true).(
      branches := map[1 := Branch(0, true, false), 2 := Branch(0, true, false), 3 := Branch(0, true, false)],
      inventory := Inventory(map[Shelf(8, 1) := 1, Shelf(8, 2) := 1], moves))
  }

  function ToThree(source: Id): BatchPayload { BatchPayload(source, 3, [Portion(8, 1)]) }

  lemma {:induction false} TwoSourcesAreFaithful()
    ensures Faithful(TwoSources().inventory)
  {
    var inv := TwoSources().inventory;
    var first, second := inv.moves[0], inv.moves[1];
    assert inv.moves[..1] == [first] && [first][..0] == [];
    assert LastResult([], first.shelf) == 0 && Replay([], first.shelf) == 0 && Chained([]);
    assert Chained([first]) && LastResult([first], second.shelf) == LastResult([], second.shelf) == 0;
    forall shelf ensures Replay(inv.moves, shelf) == QuantityAt(inv.stock, shelf) == LastResult(inv.moves, shelf) {
      assert Replay([], shelf) == 0 == LastResult([], shelf);
      assert Replay([first], shelf) == (if shelf == first.shelf then 1 else 0) == LastResult([first], shelf);
    }
  }

  lemma {:induction false} ToThreeIsAccepted(id: Id, source: Id)
    requires source == 1 || source == 2
    ensures Atomic(TwoSources(), OfBatch(id, ToThree(source))).Some?
    ensures Creates(TwoSources(), OfBatch(id, ToThree(source)), Shelf(8, 3))
  {
    var items := ToThree(source).items;
    assert items[0].product == 8 && items[1..] == [];
    assert CheckProducts(TwoSources().products, items[1..]) == Ok(true);
  }

  lemma {:induction false} ToThreeTouches(id: Id, source: Id, shelf: Shelf)
    requires Touches(OfBatch(id, ToThree(source)), shelf)
    ensures shelf.branch == source || shelf.branch == 3
  {
    var q := OfBatch(id, ToThree(source));
    var k :| 0 <= k < |PlanOf(q)| && PlanOf(q)[k].region == StockRow(shelf);
  }

  lemma {:induction false} SourcesShareNoRow()
    ensures ShareNoRow(TwoSources(), OfBatch(20, ToThree(1)), OfBatch(21, ToThree(2)))
  {
    forall shelf | shelf in TwoSources().inventory.stock && Touches(OfBatch(20, ToThree(1)), shelf)
      ensures !Touches(OfBatch(21, ToThree(2)), shelf)
    {
      ToThreeTouches(20, 1, shelf);
      if Touches(OfBatch(21, ToThree(2)), shelf) {
        ToThreeTouches(21, 2, shelf);
      }
    }
  }

  /** Both batches commit, and the second logs its arrival as if the shelf had been empty. */
  lemma {:induction false} RowRaceHappens() returns (events: seq<ShopEvent>, w: ShopWorld)
    ensures Isolation.Run(Shop(), TwoSources(), events) == Some(w) && w.commits == [OfBatch(21, ToThree(2)), OfBatch(20, ToThree(1))]
    ensures Faithful(TwoSources().inventory) && !Chained(w.shop.inventory.moves)
  {
    TwoSourcesAreFaithful();
    ToThreeIsAccepted(20, 1);
    ToThreeIsAccepted(21, 2);
    SourcesShareNoRow();
    assert RowsBelong(TwoSources().books) by { TwoSourcesBelong(); }
    events, w := RowRaceBreaksChain(TwoSources(), 20, ToThree(1), OfBatch(21, ToThree(2)), Shelf(8, 3));
  }

  lemma {:induction false} TwoSourcesBelong()
    ensures RowsBelong(TwoSources().books)
  {}
}
