/** Runs of any transactions in any order: what holds in every state they reach. */
module Runs {
  import opened Wrappers
  import opened Sums
  import opened Tables
  import opened StockLog
  import opened StockTransfer
  import opened ProductStock
  import opened CashDesk
  import opened CustomerLedger
  import opened Checkout
  import opened Bookkeeping
  import opened Sales
  import opened Returns
  import opened Exchange
  import opened ExchangeLaws
  import opened ExchangeReplay
  import opened Repair
  import opened RepairLaws
  import opened Frames

  datatype Op =
    | Sell(sale: SaleDto) | TakeBack(back: ReturnDto) | Swap(swap: ExchangeDto)
    | MoveSingle(single: TransferDto) | MoveBatch(batch: BatchDto)
    | Receive(receipt: ReceiveDto) | Adjust(product: Id, branch: Id, target: int) | Delta(product: Id, branch: Id, delta: int)
    | NewProduct(id: Id, row: Product, at: Option<Id>, quantity: int) | Import(to: Option<Id>, main: Option<Id>, items: seq<Portion>)
    | OpenTill(branch: Id, opening: Money) | CloseTill(session: Id, actual: Money)
    | ManualCash(branch: Id, kind: CashKind, direction: Direction, amount: Money, means: Method, reference: Ref)
    | Spend(payer: Option<Id>, amount: Money, means: Method) | Unspend(expense: Id)
    | PayAccount(dated: bool, customer: Id, amount: Money, means: Method, payer: Option<Id>)
    | Book(at: Option<Id>, owner: Option<Id>, advance: Option<JobPayment>) | SetStage(job: Id, stage: nat)
    | PayJob(job: Id, pay: JobPayment) | FitPart(job: Id, part: PartDto) | PullPart(job: Id, pulled: Id) | Deliver(job: Id, delivery: DeliveryDto)

  predicate IsCounter(op: Op) { op.Sell? || op.TakeBack? || op.Swap? || op.PayAccount? }

  predicate IsStock(op: Op) { op.MoveSingle? || op.MoveBatch? || op.Receive? || op.Adjust? || op.Delta? || op.NewProduct? || op.Import? }

  predicate IsTill(op: Op) { op.OpenTill? || op.CloseTill? || op.ManualCash? || op.Spend? || op.Unspend? }

  predicate IsWorkshop(op: Op) { op.Book? || op.SetStage? || op.PayJob? || op.FitPart? || op.PullPart? || op.Deliver? }

  function CounterStep(t: Tables, op: Op): Tables
    requires IsCounter(op)
  {
    match op
    case Sell(dto) => SaleSpec(t, dto).1
    case TakeBack(dto) => ReturnSpec(t, dto).1
    case Swap(dto) => ExchangeSpec(t, dto).1
    case PayAccount(dated, customer, amount, means, payer) => PaymentSpec(t, dated, customer, amount, means, payer).1
  }

  ghost function StockStep(t: Tables, op: Op): Tables
    requires IsStock(op) && StockInvariant(t)
  {
    match op
    case MoveSingle(dto) => TransferSpec(t, dto).1
    case MoveBatch(dto) => BatchSpec(t, dto).1
    case Receive(dto) => ReceiveSpec(t, dto).1
    case Adjust(product, branch, target) => AdjustSpec(t, product, branch, target).1
    case Delta(product, branch, delta) => DeltaSpec(t, product, branch, delta).1
    case NewProduct(id, row, at, quantity) => CreateProductSpec(t, id, row, at, quantity).1
    case Import(to, main, items) => OpeningSpec(t, to, main, items).1
  }

  function TillStep(t: Tables, op: Op): Tables
    requires IsTill(op)
  {
    match op
    case OpenTill(branch, opening) => OpenSpec(t, branch, opening).1
    case CloseTill(session, actual) => CloseSpec(t, session, actual).1
    case ManualCash(branch, kind, direction, amount, means, reference) => RecordSpec(t, branch, kind, direction, amount, means, reference).1
    case Spend(payer, amount, means) => ExpenseSpec(t, payer, amount, means).1
    case Unspend(expense) => CancelSpec(t, expense).1
  }

  function WorkshopStep(t: Tables, op: Op): Tables
    requires IsWorkshop(op)
  {
    match op
    case Book(at, owner, advance) => CreateSpec(t, at, owner, advance).1
    case SetStage(job, stage) => StatusSpec(t, job, stage).1
    case PayJob(job, pay) => JobPaymentSpec(t, job, pay).1
    case FitPart(job, part) => AddPartSpec(t, job, part).1
    case PullPart(job, pulled) => RemovePartSpec(t, job, pulled).1
    case Deliver(job, delivery) => DeliverSpec(t, job, delivery).1
  }

  ghost function Step(t: Tables, op: Op): Tables
    requires StockInvariant(t)
  {
    if IsCounter(op) then CounterStep(t, op)
    else if IsStock(op) then StockStep(t, op)
    else if IsTill(op) then TillStep(t, op)
    else WorkshopStep(t, op)
  }

  /** A movement entered by hand may carry any kind and reference; one that passes for an expense's or a repair's is excluded. */
  predicate Ordinary(op: Op) {
    op.ManualCash? ==>
      && !(op.kind.ExpenseMove? && op.reference.ExpenseRef?)
      && !((op.kind.RepairAdvance? || op.kind.RepairSettlement?) && op.reference.JobRef?)
  }

  ghost predicate Invariant(t: Tables) {
    && StockInvariant(t)
    && TillInvariant(t.till) && ExpensesNet(t.expenses, t.till.moves) && (forall e | 0 <= e < |t.expenses| :: t.expenses[e].amount > 0)
    && RunningIndex(t.ledger) && LedgerBelongs(t)
    && BooksInvariant(t.books)
    && RepairInvariant(t) && CashAgrees(t)
  }

  /** What one or many transactions keep and leave alone. */
  ghost predicate Kept(t: Tables, after: Tables) {
    && Invariant(after) && after.customers == t.customers
    && Grows(t, after) && ClosedStayFinal(t.till, after.till) && DeliveredFrozen(t.workshop, after.workshop)
  }

  // ------------------------------------------------------------------
  // Groups of transactions.

  lemma {:induction false} UntouchedIsKept(t: Tables)
    requires Invariant(t)
    ensures Kept(t, t)
  {}

  /** What a transaction on products, stock and transfers may touch. */
  ghost predicate StockFrame(t: Tables, after: Tables) {
    && after == t.(products := after.products, inventory := after.inventory, transfers := after.transfers, batches := after.batches)
    && QuietStock(t.inventory, after.inventory)
  }

  lemma {:induction false} StockIsKept(t: Tables, after: Tables)
    requires Invariant(t) && StockInvariant(after) && StockFrame(t, after)
    ensures Kept(t, after)
  {
    QuietKeepsRepair(t, after);
  }

  /** Transactions on the till and expenses only. */
  lemma {:induction false} TillIsKept(t: Tables, after: Tables)
    requires Invariant(t) && TillKept(t, after) && QuietTill(t.till, after.till)
    requires after == t.(till := after.till, expenses := after.expenses)
    requires forall e | 0 <= e < |after.expenses| :: after.expenses[e].amount > 0
    ensures Kept(t, after)
  {
    QuietKeepsRepair(t, after);
  }

  /** What a transaction of the shop counter may touch: stock, till, ledger and books, nothing of a repair job. */
  ghost predicate CounterFrame(t: Tables, after: Tables) {
    && after == t.(inventory := after.inventory, till := after.till, ledger := after.ledger, books := after.books)
    && QuietStock(t.inventory, after.inventory) && QuietTill(t.till, after.till)
    && Grows(t, after) && (LedgerBelongs(t) ==> LedgerBelongs(after))
  }

  lemma {:induction false} CounterIsKept(t: Tables, after: Tables)
    requires Invariant(t) && CounterFrame(t, after)
    requires StockInvariant(after) && TillKept(t, after) && RunningIndex(after.ledger) && BooksInvariant(after.books)
    ensures Kept(t, after)
  {
    QuietKeepsRepair(t, after);
  }

  /** Transactions on jobs only. */
  lemma {:induction false} JobsAreKept(t: Tables, after: Tables)
    requires Invariant(t) && RepairInvariant(after) && CashAgrees(after) && DeliveredFrozen(t.workshop, after.workshop)
    requires after == t.(workshop := after.workshop)
    ensures Kept(t, after)
  {}

  /** Transactions on jobs and stock. */
  lemma {:induction false} PartsAreKept(t: Tables, after: Tables)
    requires Invariant(t) && RepairInvariant(after) && CashAgrees(after) && DeliveredFrozen(t.workshop, after.workshop)
    requires StockInvariant(after) && after == t.(inventory := after.inventory, workshop := after.workshop)
    ensures Kept(t, after)
  {}

  /** Transactions on jobs and the till. */
  lemma {:induction false} JobMoneyIsKept(t: Tables, after: Tables)
    requires Invariant(t) && RepairInvariant(after) && CashAgrees(after) && DeliveredFrozen(t.workshop, after.workshop)
    requires TillKept(t, after) && after == t.(till := after.till, workshop := after.workshop)
    ensures Kept(t, after)
  {}

  // ------------------------------------------------------------------
  // The counter.

  lemma {:induction false} BookedIsQuiet(till: Till, branch: Id, kind: CashKind, direction: Direction, amount: Money, reference: Ref)
    requires !kind.RepairAdvance? && !kind.RepairSettlement? && BookCash(till, branch, kind, direction, amount, reference).Some?
    ensures QuietTill(till, BookCash(till, branch, kind, direction, amount, reference).value)
  {}

  lemma {:induction false} SellFrame(t: Tables, dto: SaleDto)
    requires SaleSpec(t, dto).0.Ok?
    ensures CounterFrame(t, SaleSpec(t, dto).1)
  {
    var b, id := PrepareSale(t, dto).value, |t.books.sales|;
    SaleGrows(t, dto);
    WriteAllIsQuiet(t.inventory, dto.branch, b.lines, SaleRef(id));
    BookedIsQuiet(t.till, dto.branch, SalePayment, Inward, CashOf(Allocate(b.tenders, b.total)), SaleRef(id));
  }

  lemma {:induction false} SellKeeps(t: Tables, dto: SaleDto)
    requires Invariant(t)
    ensures Kept(t, SaleSpec(t, dto).1)
  {
    if SaleSpec(t, dto).0.Ok? {
      SellFrame(t, dto);
      SaleKeepsStock(t, dto);
      SaleKeepsTill(t, dto);
      SaleKeepsLedger(t, dto);
      SaleKeepsBooks(t, dto);
      CounterIsKept(t, SaleSpec(t, dto).1);
    } else {
      UntouchedIsKept(t);
    }
  }

  lemma {:induction false} RefundIsQuiet(t: Tables, header: SalesReturn, ret: Id)
    ensures QuietTill(t.till, Refund(t, header, ret).till)
  {}

  lemma {:induction false} TakeBackFrame(t: Tables, dto: ReturnDto)
    requires ReturnSpec(t, dto).0.Ok?
    ensures CounterFrame(t, ReturnSpec(t, dto).1)
  {
    var ps := PrepareReturns(t.books, dto.sale, dto.items).value;
    ReturnGrows(t, dto);
    RestoreAllIsQuiet(t.inventory, t.books.sales[dto.sale].branch, Back(ps), ReturnRef(|t.books.refunds|), BadRequest);
    RefundIsQuiet(ReturnWritten(t, dto, ps), ReturnRow(t.books, dto, ReturnTotal(ps)), |t.books.refunds|);
  }

  lemma {:induction false} TakeBackKeeps(t: Tables, dto: ReturnDto)
    requires Invariant(t)
    ensures Kept(t, ReturnSpec(t, dto).1)
  {
    if ReturnSpec(t, dto).0.Ok? {
      TakeBackFrame(t, dto);
      ReturnKeepsStock(t, dto);
      ReturnKeepsTill(t, dto);
      ReturnKeepsLedger(t, dto);
      ReturnKeepsBooks(t, dto);
      CounterIsKept(t, ReturnSpec(t, dto).1);
    } else {
      UntouchedIsKept(t);
    }
  }

  lemma {:induction false} ExchangeStockIsQuiet(t: Tables, p: Plan)
    requires ExchangeStock(t, p).Ok?
    ensures QuietStock(t.inventory, ExchangeStock(t, p).value)
  {
    var restored := RestoreAll(t.inventory, p.branch, Back(p.back), ReturnRef(|t.books.refunds|), ServerError).value;
    RestoreAllIsQuiet(t.inventory, p.branch, Back(p.back), ReturnRef(|t.books.refunds|), ServerError);
    WriteAllIsQuiet(restored, p.branch, p.lines, SaleRef(|t.books.sales|));
  }

  lemma {:induction false} SettlementIsQuiet(t: Tables, dto: ExchangeDto, p: Plan, sale: Id, ret: Id, number: Number)
    requires Settle(t, dto, p, sale, ret, number).Ok?
    ensures QuietTill(t.till, Settle(t, dto, p, sale, ret, number).value.till)
  {}

  lemma {:induction false} SwapFrame(t: Tables, dto: ExchangeDto)
    requires ExchangeSpec(t, dto).0.Ok?
    ensures CounterFrame(t, ExchangeSpec(t, dto).1)
  {
    var p := PrepareExchange(t, dto).value;
    ExchangeGrows(t, dto);
    ExchangeStockIsQuiet(t, p);
    SettlementIsQuiet(t, dto, p, |t.books.sales|, |t.books.refunds|, ReturnNumber(t.books, p, dto.period));
  }

  lemma {:induction false} SwapKeeps(t: Tables, dto: ExchangeDto)
    requires Invariant(t)
    ensures Kept(t, ExchangeSpec(t, dto).1)
  {
    if ExchangeSpec(t, dto).0.Ok? {
      SwapFrame(t, dto);
      ExchangeKeepsStock(t, dto);
      ExchangeKeepsTill(t, dto);
      ExchangeKeepsLedger(t, dto);
      ExchangeKeepsBooks(t, dto);
      CounterIsKept(t, ExchangeSpec(t, dto).1);
    } else {
      UntouchedIsKept(t);
    }
  }

  lemma {:induction false} PayAccountFrame(t: Tables, dated: bool, customer: Id, amount: Money, means: Method, payer: Option<Id>)
    ensures CounterFrame(t, PaymentSpec(t, dated, customer, amount, means, payer).1)
    ensures PaymentSpec(t, dated, customer, amount, means, payer).1 == t.(till := PaymentSpec(t, dated, customer, amount, means, payer).1.till,
                                                                   ledger := PaymentSpec(t, dated, customer, amount, means, payer).1.ledger)
  {}

  lemma {:induction false} PayAccountKeeps(t: Tables, dated: bool, customer: Id, amount: Money, means: Method, payer: Option<Id>)
    requires Invariant(t)
    ensures Kept(t, PaymentSpec(t, dated, customer, amount, means, payer).1)
  {
    PayAccountFrame(t, dated, customer, amount, means, payer);
    PaymentKeepsLedger(t, dated, customer, amount, means, payer);
    PaymentKeepsTill(t, dated, customer, amount, means, payer);
    CounterIsKept(t, PaymentSpec(t, dated, customer, amount, means, payer).1);
  }

  // ------------------------------------------------------------------
  // Stock.

  lemma {:induction false} MoveSingleFrame(t: Tables, dto: TransferDto)
    ensures StockFrame(t, TransferSpec(t, dto).1)
  {
    MoveOneIsQuiet(t.inventory, dto.source, dto.destination, Portion(dto.product, dto.quantity), TransferRef(TransferRowOf(t, dto).id));
  }

  lemma {:induction false} MoveSingleKeeps(t: Tables, dto: TransferDto)
    requires Invariant(t)
    ensures Kept(t, TransferSpec(t, dto).1)
  {
    TransferKeepsStock(t, dto);
    MoveSingleFrame(t, dto);
    StockIsKept(t, TransferSpec(t, dto).1);
  }

  lemma {:induction false} MoveBatchFrame(t: Tables, dto: BatchDto)
    ensures StockFrame(t, BatchSpec(t, dto).1)
  {
    var p := Normalize(dto.source, dto.destination, dto.items);
    MoveAllIsQuiet(t.inventory, p.source, p.destination, p.items, BatchRef(BatchIdOf(t, dto)));
  }

  lemma {:induction false} MoveBatchKeeps(t: Tables, dto: BatchDto)
    requires Invariant(t)
    ensures Kept(t, BatchSpec(t, dto).1)
  {
    BatchKeepsStock(t, dto);
    MoveBatchFrame(t, dto);
    StockIsKept(t, BatchSpec(t, dto).1);
  }

  lemma {:induction false} ReceiveFrame(t: Tables, dto: ReceiveDto)
    requires StockInvariant(t)
    ensures StockFrame(t, ReceiveSpec(t, dto).1)
  {
    var shelf := Shelf(dto.product, dto.branch);
    PostIsQuiet(t.inventory, shelf, In, dto.quantity, QuantityAt(t.inventory.stock, shelf) + dto.quantity, NoRef);
  }

  lemma {:induction false} ReceiveKeeps(t: Tables, dto: ReceiveDto)
    requires Invariant(t)
    ensures Kept(t, ReceiveSpec(t, dto).1)
  {
    ReceiveKeepsStock(t, dto);
    ReceiveFrame(t, dto);
    StockIsKept(t, ReceiveSpec(t, dto).1);
  }

  lemma {:induction false} AdjustFrame(t: Tables, product: Id, branch: Id, target: int)
    ensures StockFrame(t, AdjustSpec(t, product, branch, target).1)
  {
    var shelf, goal := Shelf(product, branch), Max(0, target);
    var diff := goal - QuantityAt(t.inventory.stock, shelf);
    PostIsQuiet(t.inventory, shelf, In, diff, goal, NoRef);
    PostIsQuiet(t.inventory, shelf, Out, -diff, goal, NoRef);
  }

  lemma {:induction false} AdjustKeeps(t: Tables, product: Id, branch: Id, target: int)
    requires Invariant(t)
    ensures Kept(t, AdjustSpec(t, product, branch, target).1)
  {
    AdjustKeepsStock(t, product, branch, target);
    AdjustFrame(t, product, branch, target);
    StockIsKept(t, AdjustSpec(t, product, branch, target).1);
  }

  lemma {:induction false} DeltaFrame(t: Tables, product: Id, branch: Id, delta: int)
    ensures StockFrame(t, DeltaSpec(t, product, branch, delta).1)
  {
    var shelf := Shelf(product, branch);
    var resulting := Max(0, QuantityAt(t.inventory.stock, shelf) + delta);
    PostIsQuiet(t.inventory, shelf, In, delta, resulting, NoRef);
    PostIsQuiet(t.inventory, shelf, Out, -delta, resulting, NoRef);
  }

  lemma {:induction false} DeltaKeeps(t: Tables, product: Id, branch: Id, delta: int)
    requires Invariant(t)
    ensures Kept(t, DeltaSpec(t, product, branch, delta).1)
  {
    DeltaKeepsStock(t, product, branch, delta);
    DeltaFrame(t, product, branch, delta);
    StockIsKept(t, DeltaSpec(t, product, branch, delta).1);
  }

  lemma {:induction false} NewProductFrame(t: Tables, id: Id, row: Product, at: Option<Id>, quantity: int)
    ensures StockFrame(t, CreateProductSpec(t, id, row, at, quantity).1)
  {
    var after := CreateProductSpec(t, id, row, at, quantity).1;
    if after.inventory.moves != t.inventory.moves {
      forall job: Id, product: Id { NetTakenSnoc(t.inventory.moves, after.inventory.moves[|t.inventory.moves|], job, product); }
    }
  }

  lemma {:induction false} NewProductKeeps(t: Tables, id: Id, row: Product, at: Option<Id>, quantity: int)
    requires Invariant(t)
    ensures Kept(t, CreateProductSpec(t, id, row, at, quantity).1)
  {
    CreateKeepsStock(t, id, row, at, quantity);
    NewProductFrame(t, id, row, at, quantity);
    StockIsKept(t, CreateProductSpec(t, id, row, at, quantity).1);
  }

  lemma {:induction false} ImportFrame(t: Tables, to: Option<Id>, main: Option<Id>, items: seq<Portion>)
    ensures StockFrame(t, OpeningSpec(t, to, main, items).1)
  {
    if OpeningSpec(t, to, main, items).0.Ok? {
      OpenAllIsQuiet(t.products, t.inventory, (if to.Some? then to else main).value, items);
    }
  }

  lemma {:induction false} ImportKeeps(t: Tables, to: Option<Id>, main: Option<Id>, items: seq<Portion>)
    requires Invariant(t)
    ensures Kept(t, OpeningSpec(t, to, main, items).1)
  {
    OpeningKeepsStock(t, to, main, items);
    ImportFrame(t, to, main, items);
    StockIsKept(t, OpeningSpec(t, to, main, items).1);
  }

  // ------------------------------------------------------------------
  // The till.

  lemma {:induction false} OpenTillKeeps(t: Tables, branch: Id, opening: Money)
    requires Invariant(t)
    ensures Kept(t, OpenSpec(t, branch, opening).1)
  {
    OpenKeepsTill(t, branch, opening);
    TillIsKept(t, OpenSpec(t, branch, opening).1);
  }

  lemma {:induction false} CloseTillKeeps(t: Tables, session: Id, actual: Money)
    requires Invariant(t)
    ensures Kept(t, CloseSpec(t, session, actual).1)
  {
    CloseKeepsTill(t, session, actual);
    TillIsKept(t, CloseSpec(t, session, actual).1);
  }

  lemma {:induction false} ManualCashKeeps(t: Tables, op: Op)
    requires Invariant(t) && op.ManualCash? && Ordinary(op)
    ensures Kept(t, TillStep(t, op))
  {
    var after := TillStep(t, op);
    RecordSpecKeepsTill(t, op.branch, op.kind, op.direction, op.amount, op.means, op.reference);
    if after != t {
      OtherMovesKeepNetIff(t.expenses, t.till.moves, after.till.moves[|t.till.moves|]);
    }
    TillIsKept(t, after);
  }

  /** Of the movements entered by hand, exactly the ordinary ones keep the accounts of expenses and repairs. */
  lemma {:induction false} ManualCashKeepsIff(t: Tables, op: Op)
    requires Invariant(t) && op.ManualCash? && TillStep(t, op) != t
    ensures Invariant(TillStep(t, op)) <==> Ordinary(op)
  {
    var after := TillStep(t, op);
    var m := after.till.moves[|t.till.moves|];
    OtherMovesKeepNetIff(t.expenses, t.till.moves, m);
    OtherMovesKeepCashIff(t, after, m);
    if Ordinary(op) {
      ManualCashKeeps(t, op);
    }
  }

  lemma {:induction false} SpendKeeps(t: Tables, payer: Option<Id>, amount: Money, means: Method)
    requires Invariant(t)
    ensures Kept(t, ExpenseSpec(t, payer, amount, means).1)
  {
    ExpenseKeepsTill(t, payer, amount, means);
    ExpenseKeepsNet(t, payer, amount, means);
    TillIsKept(t, ExpenseSpec(t, payer, amount, means).1);
  }

  lemma {:induction false} UnspendKeeps(t: Tables, expense: Id)
    requires Invariant(t)
    ensures Kept(t, CancelSpec(t, expense).1)
  {
    CancelKeepsTill(t, expense);
    CancelKeepsNet(t, expense);
    TillIsKept(t, CancelSpec(t, expense).1);
  }

  // ------------------------------------------------------------------
  // The workshop.

  lemma {:induction false} BookKeeps(t: Tables, at: Option<Id>, owner: Option<Id>, advance: Option<JobPayment>)
    requires Invariant(t)
    ensures Kept(t, CreateSpec(t, at, owner, advance).1)
  {
    CreateKeepsRepair(t, at, owner, advance);
    CreateKeepsCash(t, at, owner, advance);
    CreateKeepsTill(t, at, owner, advance);
    BookingFreezes(t, at, owner, advance);
    JobMoneyIsKept(t, CreateSpec(t, at, owner, advance).1);
  }

  lemma {:induction false} StageFrame(t: Tables, job: Id, stage: nat)
    ensures var after := StatusSpec(t, job, stage).1;
            after == t.(workshop := after.workshop) && after.workshop.payments == t.workshop.payments && SameBranches(t.workshop, after.workshop)
  {}

  lemma {:induction false} SetStageKeeps(t: Tables, job: Id, stage: nat)
    requires Invariant(t)
    ensures Kept(t, StatusSpec(t, job, stage).1)
  {
    StatusKeepsRepair(t, job, stage);
    StatusFreezes(t, job, stage);
    StageFrame(t, job, stage);
    SameMoneyKeepsCash(t, StatusSpec(t, job, stage).1);
    JobsAreKept(t, StatusSpec(t, job, stage).1);
  }

  lemma {:induction false} PayJobKeeps(t: Tables, job: Id, pay: JobPayment)
    requires Invariant(t)
    ensures Kept(t, JobPaymentSpec(t, job, pay).1)
  {
    PayKeepsRepair(t, job, pay);
    PayKeepsCash(t, job, pay);
    PayKeepsTill(t, job, pay);
    PaymentFreezes(t, job, pay);
    JobMoneyIsKept(t, JobPaymentSpec(t, job, pay).1);
  }

  lemma {:induction false} PartsFrame(t: Tables, job: Id, part: PartDto, pulled: Id)
    ensures var fitted := AddPartSpec(t, job, part).1; fitted == t.(inventory := fitted.inventory, workshop := fitted.workshop)
    ensures var emptied := RemovePartSpec(t, job, pulled).1; emptied == t.(inventory := emptied.inventory, workshop := emptied.workshop)
    ensures SameBranches(t.workshop, AddPartSpec(t, job, part).1.workshop) && SameBranches(t.workshop, RemovePartSpec(t, job, pulled).1.workshop)
    ensures AddPartSpec(t, job, part).1.workshop.payments == RemovePartSpec(t, job, pulled).1.workshop.payments == t.workshop.payments
  {}

  lemma {:induction false} FitPartKeeps(t: Tables, job: Id, part: PartDto)
    requires Invariant(t)
    ensures Kept(t, AddPartSpec(t, job, part).1)
  {
    AddPartKeepsStock(t, job, part);
    AddPartKeepsRepair(t, job, part);
    AddPartFreezes(t, job, part);
    PartsFrame(t, job, part, 0);
    SameMoneyKeepsCash(t, AddPartSpec(t, job, part).1);
    PartsAreKept(t, AddPartSpec(t, job, part).1);
  }

  lemma {:induction false} PullPartKeeps(t: Tables, job: Id, pulled: Id)
    requires Invariant(t)
    ensures Kept(t, RemovePartSpec(t, job, pulled).1)
  {
    RemovePartKeepsStock(t, job, pulled);
    RemovePartKeepsRepair(t, job, pulled);
    RemovePartFreezes(t, job, pulled);
    PartsFrame(t, job, PartDto(None, 1, 0), pulled);
    SameMoneyKeepsCash(t, RemovePartSpec(t, job, pulled).1);
    PartsAreKept(t, RemovePartSpec(t, job, pulled).1);
  }

  lemma {:induction false} DeliverKeeps(t: Tables, job: Id, delivery: DeliveryDto)
    requires Invariant(t)
    ensures Kept(t, DeliverSpec(t, job, delivery).1)
  {
    DeliverKeepsRepair(t, job, delivery);
    DeliverKeepsCash(t, job, delivery);
    DeliverKeepsTill(t, job, delivery);
    DeliveryFreezes(t, job, delivery);
    JobMoneyIsKept(t, DeliverSpec(t, job, delivery).1);
  }

  // ------------------------------------------------------------------
  // Steps and runs.

  lemma {:induction false} CounterStepKeeps(t: Tables, op: Op)
    requires Invariant(t) && Ordinary(op) && IsCounter(op)
    ensures Kept(t, CounterStep(t, op))
  {
    match op
    case Sell(dto) => SellKeeps(t, dto);
    case TakeBack(dto) => TakeBackKeeps(t, dto);
    case Swap(dto) => SwapKeeps(t, dto);
    case PayAccount(dated, customer, amount, means, payer) => PayAccountKeeps(t, dated, customer, amount, means, payer);
  }

  lemma {:induction false} StockStepKeeps(t: Tables, op: Op)
    requires Invariant(t) && Ordinary(op) && IsStock(op)
    ensures Kept(t, StockStep(t, op))
  {
    match op
    case MoveSingle(dto) => MoveSingleKeeps(t, dto);
    case MoveBatch(dto) => MoveBatchKeeps(t, dto);
    case Receive(dto) => ReceiveKeeps(t, dto);
    case Adjust(product, branch, target) => AdjustKeeps(t, product, branch, target);
    case Delta(product, branch, delta) => DeltaKeeps(t, product, branch, delta);
    case NewProduct(id, row, at, quantity) => NewProductKeeps(t, id, row, at, quantity);
    case Import(to, main, items) => ImportKeeps(t, to, main, items);
  }

  lemma {:induction false} TillStepKeeps(t: Tables, op: Op)
    requires Invariant(t) && Ordinary(op) && IsTill(op)
    ensures Kept(t, TillStep(t, op))
  {
    match op
    case OpenTill(branch, opening) => OpenTillKeeps(t, branch, opening);
    case CloseTill(session, actual) => CloseTillKeeps(t, session, actual);
    case ManualCash(_, _, _, _, _, _) => ManualCashKeeps(t, op);
    case Spend(payer, amount, means) => SpendKeeps(t, payer, amount, means);
    case Unspend(expense) => UnspendKeeps(t, expense);
  }

  lemma {:induction false} WorkshopStepKeeps(t: Tables, op: Op)
    requires Invariant(t) && Ordinary(op) && IsWorkshop(op)
    ensures Kept(t, WorkshopStep(t, op))
  {
    match op
    case Book(at, owner, advance) => BookKeeps(t, at, owner, advance);
    case SetStage(job, stage) => SetStageKeeps(t, job, stage);
    case PayJob(job, pay) => PayJobKeeps(t, job, pay);
    case FitPart(job, part) => FitPartKeeps(t, job, part);
    case PullPart(job, pulled) => PullPartKeeps(t, job, pulled);
    case Deliver(job, delivery) => DeliverKeeps(t, job, delivery);
  }

  lemma {:induction false} StepKeeps(t: Tables, op: Op)
    requires Invariant(t) && Ordinary(op)
    ensures Kept(t, Step(t, op))
  {
    if IsCounter(op) {
      CounterStepKeeps(t, op);
    } else if IsStock(op) {
      StockStepKeeps(t, op);
    } else if IsTill(op) {
      TillStepKeeps(t, op);
    } else {
      WorkshopStepKeeps(t, op);
    }
  }

  lemma {:induction false} KeptIsTransitive(a: Tables, b: Tables, c: Tables)
    requires Kept(a, b) && Kept(b, c)
    ensures Kept(a, c)
  {
    GrowsIsTransitive(a, b, c);
    FinalIsTransitive(a.till, b.till, c.till);
    FrozenIsTransitive(a.workshop, b.workshop, c.workshop);
  }

  predicate AllOrdinary(ops: seq<Op>) { forall k | 0 <= k < |ops| :: Ordinary(ops[k]) }

  ghost function Run(t: Tables, ops: seq<Op>): Tables
    requires Invariant(t) && AllOrdinary(ops)
    decreases |ops|
  {
    if ops == [] then t else StepKeeps(t, ops[0]); Run(Step(t, ops[0]), ops[1..])
  }

  /** Every state of every run satisfies the invariant, extends the start, and keeps closed sessions and delivered jobs as they were. */
  lemma {:induction false} RunKeeps(t: Tables, ops: seq<Op>)
    requires Invariant(t) && AllOrdinary(ops)
    ensures Kept(t, Run(t, ops))
    decreases |ops|
  {
    if ops == [] {
      UntouchedIsKept(t);
    } else {
      StepKeeps(t, ops[0]);
      RunKeeps(Step(t, ops[0]), ops[1..]);
      KeptIsTransitive(t, Step(t, ops[0]), Run(t, ops));
    }
  }

  /** A shop that has a catalogue and customers but no history yet. */
  ghost predicate Opening(t: Tables) {
    && t.inventory == Inventory(map[], []) && t.till == Till([], []) && t.expenses == [] && t.ledger == []
    && t.books == Books([], [], [], [], [], map[]) && t.workshop == Workshop([], map[], 0, [], map[])
    && forall p | p in t.products :: t.products[p].averageCost >= 0 && t.products[p].purchasePrice >= 0 && t.products[p].salePrice >= 0
  }

  lemma {:induction false} OpeningHolds(t: Tables)
    requires Opening(t)
    ensures Invariant(t) && NothingOverReturned(t.books) && WithinLimits(t)
  {
    forall job: Id, product: Id ensures Deducted(t.workshop.parts, job, product, 0) == 0 {}
  }

  // ------------------------------------------------------------------
  // What that means, for every run from a state in which the invariant holds.

  /** The movement log replays to the stock, and nothing is below zero. */
  lemma {:induction false} LogAgreesWithStock(t: Tables, ops: seq<Op>, shelf: Shelf)
    requires Invariant(t) && AllOrdinary(ops)
    ensures var inv := Run(t, ops).inventory;
            Replay(inv.moves, shelf) == LastResult(inv.moves, shelf) == QuantityAt(inv.stock, shelf) >= 0 && Chained(inv.moves)
  {
    RunKeeps(t, ops);
  }

  /** Each ledger entry carries the balance up to it, and the statement ends at what the customer owes. */
  lemma {:induction false} LedgerAgreesWithBalance(t: Tables, ops: seq<Op>, customer: Id, i: nat)
    requires Invariant(t) && AllOrdinary(ops)
    ensures var ledger := Run(t, ops).ledger;
            var entries := StatementEntries(ledger, customer);
            && (i < |ledger| ==> ledger[i].balanceAfter == Balance(ledger[..i + 1], ledger[i].customer))
            && Balance(ledger, customer) == (if entries == [] then 0 else entries[|entries| - 1].balanceAfter)
  {
    RunKeeps(t, ops);
    var ledger := Run(t, ops).ledger;
    LastEntryIsBalance(ledger, customer);
    if i < |ledger| {
      IndexAt(ledger, i);
    }
  }

  /** A sale's lines total its subtotal and its payments its paid amount; a return's lines total its refund. */
  lemma {:induction false} DocumentsAddUp(t: Tables, ops: seq<Op>, id: Id)
    requires Invariant(t) && AllOrdinary(ops)
    ensures var b := Run(t, ops).books;
            && (id < |b.sales| ==>
                  && LinesFor(b.lines, id) == b.sales[id].subtotal && PaidFor(b.payments, id) == b.sales[id].paid
                  && b.sales[id].total == Max(b.sales[id].subtotal - b.sales[id].discount, 0))
            && (id < |b.refunds| ==> RefundFor(b.returnLines, id) == b.refunds[id].total)
  {
    RunKeepsBooks(t, ops);
    TotalsOf(Run(t, ops).books, id);
  }

  lemma {:induction false} RunKeepsBooks(t: Tables, ops: seq<Op>)
    requires Invariant(t) && AllOrdinary(ops)
    ensures NumbersAreUnique(Run(t, ops).books) && TotalsAddUp(Run(t, ops).books)
  {
    RunKeeps(t, ops);
  }

  lemma {:induction false} TotalsOf(b: Books, id: Id)
    requires TotalsAddUp(b)
    ensures id < |b.sales| ==>
              && LinesFor(b.lines, id) == b.sales[id].subtotal && PaidFor(b.payments, id) == b.sales[id].paid
              && b.sales[id].total == Max(b.sales[id].subtotal - b.sales[id].discount, 0)
    ensures id < |b.refunds| ==> RefundFor(b.returnLines, id) == b.refunds[id].total
  {}

  /** No two sales share an invoice number, and no two returns a return number. */
  lemma {:induction false} NumbersStayUnique(t: Tables, ops: seq<Op>, i: Id, j: Id)
    requires Invariant(t) && AllOrdinary(ops) && i < j
    ensures var b := Run(t, ops).books;
            (j < |b.sales| ==> b.sales[i].invoice != b.sales[j].invoice) && (j < |b.refunds| ==> b.refunds[i].number != b.refunds[j].number)
  {
    RunKeepsBooks(t, ops);
  }

  /** A session closed at any point is joined by no further movement and keeps its figures, which stay the formula over its movements. */
  lemma {:induction false} ClosedSessionsAreFinal(t: Tables, ops: seq<Op>, id: Id)
    requires Invariant(t) && AllOrdinary(ops)
    requires id < |t.till.sessions| && t.till.sessions[id].status.Closed?
    ensures var till := Run(t, ops).till;
            && id < |till.sessions| && till.sessions[id] == t.till.sessions[id]
            && t.till.moves <= till.moves && NoneJoins(t.till.moves, till.moves, id)
            && till.sessions[id].status.expected == till.sessions[id].opening + Sum(till.moves, CashIn(id)) - Sum(till.moves, CashOut(id))
            && till.sessions[id].status.variance == till.sessions[id].status.actual - till.sessions[id].status.expected
  {
    RunKeeps(t, ops);
    CashNetIsInLessOut(Run(t, ops).till.moves, id);
  }

  /** Two open sessions are never of one branch. */
  lemma {:induction false} OneOpenSession(t: Tables, ops: seq<Op>, a: Id, b: Id)
    requires Invariant(t) && AllOrdinary(ops) && a != b
    requires var sessions := Run(t, ops).till.sessions;
             a < |sessions| && b < |sessions| && sessions[a].status.Open? && sessions[b].status.Open?
    ensures Run(t, ops).till.sessions[a].branch != Run(t, ops).till.sessions[b].branch
  {
    RunKeeps(t, ops);
    var sessions := Run(t, ops).till.sessions;
    if a < b {
      assert sessions[a].branch != sessions[b].branch;
    } else {
      assert sessions[b].branch != sessions[a].branch;
    }
  }

  /** In the movements, a CASH expense costs its amount while it stands and nothing once cancelled. */
  lemma {:induction false} ExpensesAreAccounted(t: Tables, ops: seq<Op>, id: Id)
    requires Invariant(t) && AllOrdinary(ops) && id < |Run(t, ops).expenses|
    ensures var after := Run(t, ops);
            var e := after.expenses[id];
            ExpenseNet(after.till.moves, id) == if e.means.Cash? && e.status.Completed? then -e.amount else 0
  {
    RunKeeps(t, ops);
  }

  /** A delivered job keeps its row, its parts and its payments, and its settlement still says what remains. */
  lemma {:induction false} DeliveredJobsAreFinal(t: Tables, ops: seq<Op>, job: Id)
    requires Invariant(t) && AllOrdinary(ops)
    requires job < |t.workshop.jobs| && t.workshop.jobs[job].status.Delivered?
    ensures var w := Run(t, ops).workshop;
            && job < |w.jobs| && w.jobs[job] == t.workshop.jobs[job]
            && (forall id :: id in w.parts && w.parts[id].job == job <==> id in t.workshop.parts && t.workshop.parts[id].job == job)
            && (w.jobs[job].settlement == SettlementPaid <==> Remaining(w, job) <= 0)
  {
    RunKeeps(t, ops);
    assert JobSound(Run(t, ops).workshop, job);
  }

  /** What the log says a job took is what its parts hold; what the till says it paid is what it paid in CASH. */
  lemma {:induction false} JobsAreAccounted(t: Tables, ops: seq<Op>, job: Id, product: Id)
    requires Invariant(t) && AllOrdinary(ops)
    ensures var after := Run(t, ops);
            && NetTaken(after.inventory.moves, job, product) == Deducted(after.workshop.parts, job, product, after.workshop.nextPart)
            && JobCash(after.till.moves, job) == CashExpected(after.workshop, job)
  {
    RunKeeps(t, ops);
  }

  /** All delivered repair jobs are of one branch. */
  lemma {:induction false} DeliveriesAreOfOneBranch(t: Tables, ops: seq<Op>, i: Id, j: Id)
    requires Invariant(t) && AllOrdinary(ops)
    requires var jobs := Run(t, ops).workshop.jobs; i < |jobs| && j < |jobs| && jobs[i].invoice.Some? && jobs[j].invoice.Some?
    ensures Run(t, ops).workshop.jobs[i].branch == Run(t, ops).workshop.jobs[j].branch
  {
    RunKeeps(t, ops);
    OneBranchDelivers(Run(t, ops).workshop, i, j);
  }

  /** An exchange can be replayed after any further run, with the answer it first gave (up to the return's notes). */
  lemma {:induction false} ExchangesReplayForever(t: Tables, dto: ExchangeDto, ops: seq<Op>)
    requires Invariant(t) && ExchangeSpec(t, dto).0.Ok? && AllOrdinary([Swap(dto)] + ops)
    ensures var first := ExchangeSpec(t, dto).0.value;
            var replay := Reconstruct(Run(t, [Swap(dto)] + ops), first.saleId, dto.sale);
            replay.Replayed? && replay.reply.(salesReturn := first.salesReturn) == first && (replay.reply == first <==> dto.notes != NoNotes)
  {
    GrowsAfterSwap(t, dto, ops);
    ReplayAgrees(t, dto, Run(t, [Swap(dto)] + ops));
  }

  lemma {:induction false} RunCons(t: Tables, op: Op, ops: seq<Op>)
    requires Invariant(t) && AllOrdinary([op] + ops)
    ensures Ordinary(op) && AllOrdinary(ops) && Invariant(Step(t, op)) && Run(t, [op] + ops) == Run(Step(t, op), ops)
  {
    assert ([op] + ops)[0] == op && ([op] + ops)[1..] == ops;
    assert forall k | 0 <= k < |ops| :: ops[k] == ([op] + ops)[k + 1];
    StepKeeps(t, op);
  }

  lemma {:induction false} GrowsAfterSwap(t: Tables, dto: ExchangeDto, ops: seq<Op>)
    requires Invariant(t) && AllOrdinary([Swap(dto)] + ops)
    ensures Grows(ExchangeSpec(t, dto).1, Run(t, [Swap(dto)] + ops)) && NumbersAreUnique(Run(t, [Swap(dto)] + ops).books)
  {
    RunCons(t, Swap(dto), ops);
    RunKeeps(Step(t, Swap(dto)), ops);
  }

  // ------------------------------------------------------------------
  // Properties that need something of the requests.

  /** Returns and exchanges name each sale line at most once. */
  predicate NamesLinesOnce(op: Op) {
    match op
    case TakeBack(dto) => DistinctLines(dto.items)
    case Swap(dto) => DistinctLines(dto.goods)
    case _ => true
  }

  /** Ledger, books and customers as before. */
  predicate CounterUntouched(t: Tables, after: Tables) {
    after.ledger == t.ledger && after.books == t.books && after.customers == t.customers
  }

  lemma {:induction false} StockLeavesCounter(t: Tables, op: Op)
    requires StockInvariant(t) && IsStock(op)
    ensures CounterUntouched(t, StockStep(t, op))
  {}

  lemma {:induction false} TillLeavesCounter(t: Tables, op: Op)
    requires IsTill(op)
    ensures CounterUntouched(t, TillStep(t, op))
  {}

  lemma {:induction false} WorkshopLeavesCounter(t: Tables, op: Op)
    requires IsWorkshop(op)
    ensures CounterUntouched(t, WorkshopStep(t, op))
  {}

  lemma {:induction false} OthersLeaveCounter(t: Tables, op: Op)
    requires StockInvariant(t) && !IsCounter(op)
    ensures CounterUntouched(t, Step(t, op))
  {
    if IsStock(op) {
      StockLeavesCounter(t, op);
    } else if IsTill(op) {
      TillLeavesCounter(t, op);
    } else {
      WorkshopLeavesCounter(t, op);
    }
  }

  lemma {:induction false} CounterKeepsReturned(t: Tables, op: Op)
    requires BooksInvariant(t.books) && NothingOverReturned(t.books) && NamesLinesOnce(op) && IsCounter(op)
    ensures NothingOverReturned(CounterStep(t, op).books)
  {
    match op
    case Sell(dto) => SaleKeepsBooks(t, dto);
    case TakeBack(dto) => ReturnKeepsBooks(t, dto);
    case Swap(dto) => ExchangeKeepsBooks(t, dto);
    case PayAccount(dated, customer, amount, means, payer) => PayAccountFrame(t, dated, customer, amount, means, payer);
  }

  lemma {:induction false} StepKeepsReturned(t: Tables, op: Op)
    requires StockInvariant(t) && BooksInvariant(t.books) && NothingOverReturned(t.books) && NamesLinesOnce(op)
    ensures NothingOverReturned(Step(t, op).books)
  {
    if IsCounter(op) {
      CounterKeepsReturned(t, op);
    } else {
      OthersLeaveCounter(t, op);
    }
  }

  /** Over any run of such requests no line has more returned than was sold. */
  lemma {:induction false} ReturnedStaysWithinSold(t: Tables, ops: seq<Op>)
    requires Invariant(t) && AllOrdinary(ops) && NothingOverReturned(t.books)
    requires forall k | 0 <= k < |ops| :: NamesLinesOnce(ops[k])
    ensures NothingOverReturned(Run(t, ops).books)
    decreases |ops|
  {
    if ops != [] {
      StepKeeps(t, ops[0]);
      StepKeepsReturned(t, ops[0]);
      ReturnedStaysWithinSold(Step(t, ops[0]), ops[1..]);
    }
  }

  lemma {:induction false} CounterKeepsLimits(t: Tables, op: Op)
    requires RunningIndex(t.ledger) && WithinLimits(t) && IsCounter(op) && !op.Swap?
    ensures WithinLimits(CounterStep(t, op))
  {
    match op
    case Sell(dto) => SaleKeepsLedger(t, dto);
    case TakeBack(dto) => ReturnKeepsLedger(t, dto);
    case PayAccount(dated, customer, amount, means, payer) => PaymentKeepsLedger(t, dated, customer, amount, means, payer);
  }

  lemma {:induction false} StepKeepsLimits(t: Tables, op: Op)
    requires StockInvariant(t) && RunningIndex(t.ledger) && WithinLimits(t) && !op.Swap?
    ensures WithinLimits(Step(t, op))
  {
    if IsCounter(op) {
      CounterKeepsLimits(t, op);
    } else {
      OthersLeaveCounter(t, op);
    }
  }

  /** Without exchanges, balances stay within positive credit limits. */
  lemma {:induction false} LimitsHoldWithoutExchanges(t: Tables, ops: seq<Op>)
    requires Invariant(t) && AllOrdinary(ops) && WithinLimits(t)
    requires forall k | 0 <= k < |ops| :: !ops[k].Swap?
    ensures WithinLimits(Run(t, ops))
    decreases |ops|
  {
    if ops != [] {
      StepKeeps(t, ops[0]);
      StepKeepsLimits(t, ops[0]);
      LimitsHoldWithoutExchanges(Step(t, ops[0]), ops[1..]);
    }
  }

  lemma {:induction false} TransferStepConserves(t: Tables, op: Op, product: Id)
    requires StockInvariant(t) && (op.MoveSingle? || op.MoveBatch?)
    ensures Total(Step(t, op).inventory.stock, product) == Total(t.inventory.stock, product)
  {
    match op
    case MoveSingle(dto) => TransferConservesStock(t, dto, product);
    case MoveBatch(dto) => BatchConservesStock(t, dto, product);
  }

  /** Over any run of transfers only, each product's total over all branches is unchanged. */
  lemma {:induction false} TransfersConserveTotals(t: Tables, ops: seq<Op>, product: Id)
    requires Invariant(t) && AllOrdinary(ops)
    requires forall k | 0 <= k < |ops| :: ops[k].MoveSingle? || ops[k].MoveBatch?
    ensures Total(Run(t, ops).inventory.stock, product) == Total(t.inventory.stock, product)
    decreases |ops|
  {
    if ops != [] {
      StepKeeps(t, ops[0]);
      TransferStepConserves(t, ops[0], product);
      TransfersConserveTotals(Step(t, ops[0]), ops[1..], product);
    }
  }
}
