/** What a sale charges, takes and refuses, told by its request and the catalogue. */
module SaleLaws {
  import opened Wrappers
  import opened Sums
  import opened Tables
  import opened StockLog
  import opened CashDesk
  import opened CustomerLedger
  import opened Checkout
  import opened Bookkeeping
  import opened Sales
  import opened TillLaws

  // ------------------------------------------------------------------
  // What is charged.

  /** A line priced at unitPrice, from the catalogue as far as cost is concerned. */
  function LineOf(sale: Id, item: Item, product: Product, unitPrice: Money): SaleLine {
    SaleLine(sale, item.product, unitPrice, if product.averageCost > 0 then product.averageCost else product.purchasePrice,
             item.quantity, Max(item.discount, 0), Max(unitPrice * item.quantity - Max(item.discount, 0), 0))
  }

  /** What the catalogue charges for an item; an unknown product never gets that far. */
  function ListCharge(products: map<Id, Product>): Item -> Money {
    (item: Item) => if item.product in products then Max(products[item.product].salePrice * item.quantity - Max(item.discount, 0), 0) else 0
  }

  predicate Sellable(products: map<Id, Product>, item: Item) {
    item.quantity > 0 && item.product in products && products[item.product].active
  }

  lemma {:induction false} LinesArePriced(products: map<Id, Product>, items: seq<Item>, clientPrice: bool, i: nat)
    requires PrepareLines(products, items, clientPrice).Ok?
    ensures |PrepareLines(products, items, clientPrice).value| == |items|
    ensures i < |items| ==>
              var item, line := items[i], PrepareLines(products, items, clientPrice).value[i];
              && Sellable(products, item)
              && var p := products[item.product];
                 var price := if clientPrice && item.unitPrice.Some? then item.unitPrice.value else p.salePrice;
                 LineOf(0, item, p, price) == SaleLine(0, line.product, line.unitPrice, line.cost, line.quantity, line.discount, line.total)
  {
    if items != [] {
      LinesArePriced(products, items[1..], clientPrice, if i > 0 then i - 1 else 0);
    }
  }

  lemma {:induction false} PreparableIff(products: map<Id, Product>, items: seq<Item>, clientPrice: bool)
    ensures PrepareLines(products, items, clientPrice).Ok? <==> AllSellable(products, items)
    ensures PrepareLines(products, items, clientPrice).Err? ==> PrepareLines(products, items, clientPrice).failure in {BadRequest, NotFound}
  {
    if items != [] {
      PreparableIff(products, items[1..], clientPrice);
      assert forall i | 0 < i < |items| :: items[i] == items[1..][i - 1];
      assert forall i | 0 <= i < |items[1..]| :: items[1..][i] == items[i + 1];
    }
  }

  predicate AllSellable(products: map<Id, Product>, items: seq<Item>) {
    forall i | 0 <= i < |items| :: Sellable(products, items[i])
  }

  /** The first item that cannot be sold decides: a positive quantity of an unknown product is not found, anything else a bad request. */
  function ItemFault(products: map<Id, Product>, items: seq<Item>): Failure {
    if items == [] then BadRequest
    else if Sellable(products, items[0]) then ItemFault(products, items[1..])
    else if items[0].quantity > 0 && items[0].product !in products then NotFound
    else BadRequest
  }

  lemma {:induction false} FirstBadItemDecides(products: map<Id, Product>, items: seq<Item>, clientPrice: bool)
    requires !AllSellable(products, items)
    ensures PrepareLines(products, items, clientPrice) == Err(ItemFault(products, items))
  {
    if Sellable(products, items[0]) {
      var i :| 0 <= i < |items| && !Sellable(products, items[i]);
      assert items[1..][i - 1] == items[i];
      FirstBadItemDecides(products, items[1..], clientPrice);
    }
  }

  lemma {:induction false} SubtotalIsListed(products: map<Id, Product>, items: seq<Item>)
    requires PrepareLines(products, items, false).Ok?
    ensures Subtotal(PrepareLines(products, items, false).value) == Sum(items, ListCharge(products))
  {
    if items != [] {
      SubtotalIsListed(products, items[1..]);
      SumCons(items[0], items[1..], ListCharge(products));
      assert items == [items[0]] + items[1..];
      var lines := PrepareLines(products, items, false).value;
      assert lines[1..] == PrepareLines(products, items[1..], false).value;
    }
  }

  /**
   * Each item becomes one line at the product's own sale price, whatever price the client sent, with
   * its cost, less its discount; the header carries their sum, less the invoice discount.
   */
  lemma {:induction false} SaleChargesTheCatalogue(t: Tables, dto: SaleDto)
    requires SaleSpec(t, dto).0.Ok?
    ensures var (r, after) := SaleSpec(t, dto);
            var n, id := |t.books.lines|, |t.books.sales|;
            && r.value.sale == id && |after.books.sales| == id + 1 && after.books.sales[..id] == t.books.sales
            && |after.books.lines| == n + |dto.items| && after.books.lines[..n] == t.books.lines
            && (forall i | 0 <= i < |dto.items| ::
                  && Sellable(t.products, dto.items[i])
                  && after.books.lines[n + i] == LineOf(id, dto.items[i], t.products[dto.items[i].product], t.products[dto.items[i].product].salePrice))
            && var sale := after.books.sales[id];
               && sale.subtotal == Sum(dto.items, ListCharge(t.products)) && sale.discount == Max(dto.discount, 0)
               && sale.total == Max(sale.subtotal - sale.discount, 0)
               && sale.branch == dto.branch && sale.customer == dto.customer && sale.notes == dto.notes
  {
    var lines := PrepareLines(t.products, dto.items, false).value;
    SubtotalIsListed(t.products, dto.items);
    forall i | 0 <= i < |dto.items| { LinesArePriced(t.products, dto.items, false, i); }
    LinesArePriced(t.products, dto.items, false, 0);
  }

  /** Invoices are counted per branch, user and period, one by one. */
  lemma {:induction false} SaleDrawsTheNextNumber(t: Tables, dto: SaleDto)
    requires SaleSpec(t, dto).0.Ok?
    ensures var after, c := SaleSpec(t, dto).1, Counter(InvoiceSeries(dto.branch, dto.user), dto.period);
            var value := if c in t.books.counters then t.books.counters[c] else 1;
            after.books.sales[|t.books.sales|].invoice == Number(c, value) && after.books.counters == t.books.counters[c := value + 1]
  {}

  // ------------------------------------------------------------------
  // What is taken.

  /** The part of a listed payment that counts as money. */
  function RealPart(): Tender -> Money { (p: Tender) => if p.amount > 0 && p.means != Credit then p.amount else 0 }

  lemma {:induction false} ListedMoney(payments: seq<Tender>, exchange: bool)
    ensures SumTenders(RealTenders(payments, exchange)) == Sum(payments, RealPart()) >= 0
    ensures RealTenders(payments, exchange) == [] <==> Sum(payments, RealPart()) == 0
  {
    RealTendersArePositive(payments, exchange);
    if payments != [] {
      ListedMoney(payments[1..], exchange);
      SumCons(payments[0], payments[1..], RealPart());
      assert payments == [payments[0]] + payments[1..];
      var rest := RealTenders(payments[1..], exchange);
      assert [] + rest == rest;
    }
  }

  /** Payments count one by one and in order: a positive one that is not CREDIT, under its new name. */
  lemma {:induction false} PaymentsCountInOrder(a: seq<Tender>, p: Tender, exchange: bool)
    ensures RealTenders(a + [p], exchange)
         == RealTenders(a, exchange) + (if p.amount > 0 && p.means != Credit then [Tender(TenderMethod(p.means, exchange), p.amount)] else [])
  {
    if a == [] {
      assert [] + [p] == [p] && [p][1..] == [];
      var only := if p.amount > 0 && p.means != Credit then [Tender(TenderMethod(p.means, exchange), p.amount)] else [];
      assert only + [] == only == [] + only;
    } else {
      assert (a + [p])[0] == a[0] && (a + [p])[1..] == a[1..] + [p];
      PaymentsCountInOrder(a[1..], p, exchange);
    }
  }

  /** Which money may be stored and which is cash, by the names a sale and an exchange give it; other names are kept. */
  lemma {:induction false} NamesOfMoney(m: Method)
    requires m != Credit
    ensures Storable(TenderMethod(m, false)) <==> !m.Unlisted?
    ensures Storable(TenderMethod(m, true)) <==> m != Bank && m != BankTransfer
    ensures TenderMethod(m, false) == Cash <==> m == Cash
    ensures TenderMethod(m, true) == Cash <==> m == Cash || m == Other || m.Unlisted?
    ensures m in {Card, Easypaisa, Jazzcash} ==> TenderMethod(m, false) == m == TenderMethod(m, true)
    ensures TenderMethod(Other, false) == Other && TenderMethod(Bank, false) == BankTransfer == TenderMethod(BankTransfer, false)
  {}

  /** The money a request brings: its listed payments, or else its single amount, which defaults to the total. */
  function Brought(dto: SaleDto, total: Money): Money {
    if Sum(dto.payments, RealPart()) > 0 then Sum(dto.payments, RealPart())
    else if dto.paymentMethod == Some(Credit) then 0
    else if dto.paidAmount.None? || (dto.paidAmount == Some(0) && dto.customer.None?) then total
    else Max(dto.paidAmount.value, 0)
  }

  /** A single amount without a method is CASH. */
  function MethodOf(m: Option<Method>): Method { if m.Some? then m.value else Cash }

  lemma {:induction false} TendersAreBrought(dto: SaleDto, total: Money)
    requires total >= 0
    ensures SumTenders(SaleTenders(dto, total)) == Brought(dto, total)
    ensures Sum(dto.payments, RealPart()) > 0 ==> SaleTenders(dto, total) == RealTenders(dto.payments, false)
    ensures Sum(dto.payments, RealPart()) == 0 && Brought(dto, total) > 0 ==>
              SaleTenders(dto, total) == [Tender(TenderMethod(MethodOf(dto.paymentMethod), false), Brought(dto, total))]
  {
    ListedMoney(dto.payments, false);
    var legacy := LegacyTender(dto, total);
    assert legacy != [] ==> legacy[1..] == [];
  }

  /** What is brought pays for the sale, comes back as change, or is missing and owed. */
  lemma {:induction false} SaleTakesWhatIsBrought(t: Tables, dto: SaleDto)
    requires SaleSpec(t, dto).0.Ok?
    ensures var (r, after) := SaleSpec(t, dto);
            var sale := after.books.sales[|t.books.sales|];
            var brought := Brought(dto, sale.total);
            && sale.paid == Min(brought, sale.total) && sale.change == Max(brought - sale.total, 0) && r.value.credit == Max(sale.total - brought, 0)
            && sale.status == (if brought >= sale.total then Paid else if brought > 0 then PartiallyPaid else Unpaid)
  {
    TendersAreBrought(dto, PrepareSale(t, dto).value.total);
  }

  /** Shares are the tenders in order, in full but for the last, under the tenders' own names. */
  lemma {:induction false} SharesFollowTenders(ts: seq<Tender>, due: Money)
    requires PositiveTenders(ts)
    ensures var shares := Allocate(ts, due);
            && |shares| <= |ts|
            && (forall i | 0 <= i < |shares| :: shares[i].means == ts[i].means && 0 < shares[i].amount <= ts[i].amount)
            && (forall i | 0 <= i < |shares| - 1 :: shares[i] == ts[i])
    decreases |ts|
  {
    if ts != [] && due > 0 {
      SharesFollowTenders(ts[1..], due - Min(ts[0].amount, due));
      var rest := Allocate(ts[1..], due - Min(ts[0].amount, due));
      assert Allocate(ts, due)[1..] == rest;
    }
  }

  function CashRowOf(sale: Id): SalePay -> Money { (p: SalePay) => if p.sale == sale && p.means == Cash then p.amount else 0 }

  lemma {:induction false} CashOfRows(sale: Id, ts: seq<Tender>)
    ensures Sum(PaymentRows(sale, ts), CashRowOf(sale)) == CashOf(ts)
    decreases |ts|
  {
    if ts != [] {
      var rows := PaymentRows(sale, ts);
      assert rows == [rows[0]] + PaymentRows(sale, ts[1..]);
      SumCons(rows[0], PaymentRows(sale, ts[1..]), CashRowOf(sale));
      CashOfRows(sale, ts[1..]);
    }
  }

  /** The CASH among the stored payment rows is what comes into an open session of the branch. */
  lemma {:induction false} SaleBanksItsCashRows(t: Tables, dto: SaleDto)
    requires SaleSpec(t, dto).0.Ok? && RowsBelong(t.books)
    ensures var after, id := SaleSpec(t, dto).1, |t.books.sales|;
            var cash := Sum(after.books.payments, CashRowOf(id));
            && t.books.payments <= after.books.payments
            && (forall k | |t.books.payments| <= k < |after.books.payments| :: after.books.payments[k].sale == id && after.books.payments[k].offset == None)
            && if cash > 0 then MovedInOpenSession(t.till, after.till, dto.branch, SalePayment, Inward, cash, SaleRef(id)) else after.till == t.till
  {
    var b, id := PrepareSale(t, dto).value, |t.books.sales|;
    var rows := PaymentRows(id, Allocate(b.tenders, b.total));
    SumNone(t.books.payments, CashRowOf(id));
    SumAppend(t.books.payments, rows, CashRowOf(id));
    CashOfRows(id, Allocate(b.tenders, b.total));
    SaleBanksItsCash(t, dto);
  }

  // ------------------------------------------------------------------
  // What leaves the shelves.

  function Asked(items: seq<Item>): (ps: seq<Portion>)
    ensures |ps| == |items| && forall i | 0 <= i < |ps| :: ps[i] == Portion(items[i].product, items[i].quantity)
  {
    seq(|items|, i requires 0 <= i < |items| => Portion(items[i].product, items[i].quantity))
  }

  lemma {:induction false} PreparedAsAsked(products: map<Id, Product>, items: seq<Item>, clientPrice: bool)
    requires PrepareLines(products, items, clientPrice).Ok?
    ensures Portions(PrepareLines(products, items, clientPrice).value) == Asked(items)
  {
    PreparedLinesAreSane(products, items, clientPrice);
  }

  /** Every shelf of the branch drops by what was asked of its product, and the log says so item by item. */
  lemma {:induction false} SaleTakesWhatIsAsked(t: Tables, dto: SaleDto)
    requires SaleSpec(t, dto).0.Ok?
    ensures var after := SaleSpec(t, dto).1;
            && IsDeducted(t.inventory.stock, after.inventory.stock, dto.branch, Asked(dto.items))
            && LogsPortions(t.inventory.moves, after.inventory.moves, dto.branch, Out, Asked(dto.items), SaleRef(|t.books.sales|))
  {
    var b, ref := PrepareSale(t, dto).value, SaleRef(|t.books.sales|);
    PreparedAsAsked(t.products, dto.items, false);
    SaleTakesItsTotals(t, dto);
    WriteAllDeducts(t.inventory, dto.branch, b.lines, ref);
    DeductionsAreLogged(t.inventory, dto.branch, Asked(dto.items), ref);
  }

  // ------------------------------------------------------------------
  // What is refused.

  predicate Retail(t: Tables, branch: Id) { branch in t.branches && t.branches[branch].active && !t.branches[branch].warehouse }

  predicate Welcome(t: Tables, customer: Option<Id>) { customer.Some? ==> customer.value in t.customers && t.customers[customer.value].active }

  /** Somebody registered owes it, within a positive limit. */
  predicate MayOwe(t: Tables, customer: Option<Id>, owed: Money) {
    owed > 0 ==>
      && customer.Some? && customer.value in t.customers
      && (t.customers[customer.value].creditLimit > 0 ==> Balance(t.ledger, customer.value) + owed <= t.customers[customer.value].creditLimit)
  }

  /** Every share has a name the schema knows, and CASH has an open session. */
  predicate CanBank(t: Tables, branch: Id, shares: seq<Tender>) {
    && (forall i | 0 <= i < |shares| :: shares[i].means in {Cash, Card, BankTransfer, Easypaisa, Jazzcash, Other})
    && ((exists i :: 0 <= i < |shares| && shares[i].means == Cash) ==> !NoneOpen(t.till, branch))
  }

  predicate CataloguePriced(t: Tables) {
    forall p | p in t.products :: t.products[p].salePrice >= 0 && t.products[p].purchasePrice >= 0
  }

  function TotalOf(t: Tables, dto: SaleDto): Money { Max(Sum(dto.items, ListCharge(t.products)) - Max(dto.discount, 0), 0) }

  lemma {:induction false} CashShares(ts: seq<Tender>)
    requires PositiveTenders(ts)
    ensures CashOf(ts) >= 0 && (CashOf(ts) > 0 <==> exists i :: 0 <= i < |ts| && ts[i].means == Cash)
  {
    if ts != [] {
      CashShares(ts[1..]);
      assert forall i | 0 < i < |ts| :: ts[i] == ts[1..][i - 1];
      if i :| 0 <= i < |ts[1..]| && ts[1..][i].means == Cash {
        assert ts[i + 1].means == Cash;
      }
    }
  }

  lemma {:induction false} BanksIff(t: Tables, branch: Id, kind: CashKind, shares: seq<Tender>, reference: Ref)
    requires PositiveTenders(shares)
    ensures AllStorable(shares) && BookCash(t.till, branch, kind, Inward, CashOf(shares), reference).Some? <==> CanBank(t, branch, shares)
  {
    CashShares(shares);
    OpenSessionIsOpen(t.till.sessions, branch);
    forall i | 0 <= i < |shares| ensures Storable(shares[i].means) <==> shares[i].means in {Cash, Card, BankTransfer, Easypaisa, Jazzcash, Other} {}
  }

  lemma {:induction false} PreparesIff(t: Tables, dto: SaleDto)
    ensures PrepareSale(t, dto).Ok? <==>
              && dto.items != [] && Retail(t, dto.branch) && Welcome(t, dto.customer)
              && AllSellable(t.products, dto.items)
              && (dto.customer.None? ==> TotalOf(t, dto) <= Brought(dto, TotalOf(t, dto)))
              && Available(t.inventory.stock, dto.branch, Asked(dto.items))
    ensures PrepareSale(t, dto).Ok? ==> PrepareSale(t, dto).value.total == TotalOf(t, dto) && CreditPart(PrepareSale(t, dto).value) == Max(TotalOf(t, dto) - Brought(dto, TotalOf(t, dto)), 0)
  {
    PreparableIff(t.products, dto.items, false);
    if PrepareLines(t.products, dto.items, false).Ok? {
      SubtotalIsListed(t.products, dto.items);
      PreparedAsAsked(t.products, dto.items, false);
      TendersAreBrought(dto, TotalOf(t, dto));
    }
  }

  lemma {:induction false} ChargesIff(t: Tables, customer: Option<Id>, sale: Id, credit: Money)
    requires Welcome(t, customer) && (credit > 0 ==> customer.Some?)
    ensures ChargeCredit(t, customer, sale, credit).Some? <==> MayOwe(t, customer, credit)
  {}

  /** A sale is accepted exactly when the shop may sell it, the goods are there, what is missing may be owed and what is brought can be banked. */
  lemma {:induction false} SaleIsAcceptedIff(t: Tables, dto: SaleDto)
    requires CataloguePriced(t)
    ensures var total := TotalOf(t, dto);
            SaleSpec(t, dto).0.Ok? <==>
              && dto.items != [] && Retail(t, dto.branch) && Welcome(t, dto.customer)
              && AllSellable(t.products, dto.items)
              && Available(t.inventory.stock, dto.branch, Asked(dto.items))
              && MayOwe(t, dto.customer, Max(total - Brought(dto, total), 0))
              && CanBank(t, dto.branch, Allocate(SaleTenders(dto, total), total))
    ensures SaleSpec(t, dto).0.Err? ==> SaleSpec(t, dto).1 == t
  {
    PreparesIff(t, dto);
    if PrepareSale(t, dto).Ok? {
      var b, id := PrepareSale(t, dto).value, |t.books.sales|;
      CheckedStockSuffices(t, dto);
      ChargesIff(t, dto.customer, id, CreditPart(b));
      LegacyIsPositive(dto, b.total);
      AllocationIsExact(b.tenders, b.total);
      BanksIff(t, dto.branch, SalePayment, Allocate(b.tenders, b.total), SaleRef(id));
    }
  }

  /** The refusal of a sale: the first thing wrong with it decides. */
  function SaleRefusal(t: Tables, dto: SaleDto): Failure {
    var total := TotalOf(t, dto);
    var shares := Allocate(SaleTenders(dto, total), total);
    if dto.items == [] || !Retail(t, dto.branch) then BadRequest
    else if dto.customer.Some? && dto.customer.value !in t.customers then NotFound
    else if !Welcome(t, dto.customer) then BadRequest
    else if !AllSellable(t.products, dto.items) then ItemFault(t.products, dto.items)
    else if !Available(t.inventory.stock, dto.branch, Asked(dto.items)) || !MayOwe(t, dto.customer, Max(total - Brought(dto, total), 0)) then BadRequest
    else if exists i :: 0 <= i < |shares| && !Storable(shares[i].means) then CheckViolation
    else BadRequest
  }

  /**
   * What a refused sale is told: an unknown customer is not found, the first bad item decides if there
   * is one, a share under a name the schema refuses is a violation, and anything else a bad request.
   */
  lemma {:induction false} SaleRefusals(t: Tables, dto: SaleDto)
    requires CataloguePriced(t) && SaleSpec(t, dto).0.Err?
    ensures SaleSpec(t, dto).0 == Err(SaleRefusal(t, dto))
  {
    PreparableIff(t.products, dto.items, false);
    if !AllSellable(t.products, dto.items) {
      FirstBadItemDecides(t.products, dto.items, false);
    }
    PreparesIff(t, dto);
    if PrepareSale(t, dto).Ok? {
      CheckedStockSuffices(t, dto);
      ChargesIff(t, dto.customer, |t.books.sales|, CreditPart(PrepareSale(t, dto).value));
    }
  }
}
