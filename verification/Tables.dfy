/**
 * The tables behind the backend, as values and as the mutable database the repository functions update.
 *
 * A generated UUID is modelled by the position of its row in an append-only table, which makes
 * it fresh and gives rows their creation order.
 */
module Tables {
  import opened Wrappers

  type Id = nat
  type Money = int   // whole PKR


  // HTTP statuses thrown by the code, and the errors raised by schema constraints.
  datatype Failure =
    | BadRequest | NotFound | Conflict | Forbidden | Unprocessable | ServerError
    | CheckViolation | UniqueViolation | ForeignKeyViolation | NotNullViolation

  datatype Result<+T> = Ok(value: T) | Err(failure: Failure) {
    predicate IsFailure() { Err? }
    function PropagateFailure<U>(): Result<U> requires Err? { Err(failure) }
    function Extract(): T requires Ok? { value }
  }

  function Max(a: int, b: int): int { if a >= b then a else b }
  function Min(a: int, b: int): int { if a <= b then a else b }

  // ---- catalogue ----------------------------------------------------

  datatype Branch = Branch(organization: Id, active: bool, warehouse: bool)
  datatype Product = Product(salePrice: Money, purchasePrice: Money, averageCost: Money, active: bool)
  datatype Customer = Customer(creditLimit: Money, active: bool)

  // ---- stock --------------------------------------------------------

  datatype Shelf = Shelf(product: Id, branch: Id)

  datatype TransferId = Given(id: Id) | Generated(number: nat)

  // What a movement, ledger entry or cash movement refers to.
  datatype Ref = SaleRef(sale: Id) | ReturnRef(ret: Id) | PaymentRef(entry: Id) | TransferRef(transfer: TransferId)
               | BatchRef(batch: TransferId) | JobRef(job: Id) | ExpenseRef(expense: Id) | NoRef

  datatype MoveKind = In | Out | TransferIn | TransferOut

  datatype Movement = Movement(shelf: Shelf, kind: MoveKind, quantity: int, previous: int, resulting: int, reference: Ref)

  datatype Inventory = Inventory(stock: map<Shelf, int>, moves: seq<Movement>)

  datatype TransferRow = TransferRow(id: TransferId, product: Id, source: Id, destination: Id, quantity: int)
  // A product and a number of units: a request line, or a consolidated one.
  datatype Portion = Portion(product: Id, quantity: int)
  datatype BatchPayload = BatchPayload(source: Id, destination: Id, items: seq<Portion>)
  datatype BatchItemResult = BatchItemResult(product: Id, quantity: int, sourceBefore: int, sourceAfter: int, destinationBefore: int, destinationAfter: int)
  datatype BatchResult = BatchResult(id: TransferId, source: Id, destination: Id, totalItems: nat, totalQuantity: int, items: seq<BatchItemResult>)
  datatype BatchRow = BatchRow(payload: BatchPayload, response: BatchResult)

  // ---- cash ---------------------------------------------------------

  datatype Method = Cash | Card | Bank | BankTransfer | Easypaisa | Jazzcash | Credit | Other | Unlisted(name: nat)

  datatype SessionStatus = Open | Closed(expected: Money, actual: Money, variance: Money)
  datatype Session = Session(branch: Id, opening: Money, status: SessionStatus)

  datatype Direction = Inward | Outward
  datatype CashKind = SalePayment | CustomerPayment | SupplierPayment | ExpenseMove | CashAdjustment | ReturnRefund | RepairAdvance | RepairSettlement
  datatype CashMove = CashMove(session: Option<Id>, branch: Id, kind: CashKind, direction: Direction, amount: Money, means: Method, reference: Ref)

  datatype Till = Till(sessions: seq<Session>, moves: seq<CashMove>)

  datatype ExpenseStatus = Completed | Cancelled
  datatype Expense = Expense(branch: Id, amount: Money, means: Method, status: ExpenseStatus)

  // ---- customers ----------------------------------------------------

  datatype EntryKind = SaleEntry | PaymentEntry | ReturnEntry
  datatype LedgerEntry = LedgerEntry(customer: Id, reference: Ref, kind: EntryKind, debit: Money, credit: Money, balanceAfter: Money)

  // ---- sales and returns --------------------------------------------

  datatype PaymentStatus = Paid | PartiallyPaid | Unpaid

  // Document numbers: a series counter, its period and the allocated value.
  datatype Series = InvoiceSeries(branch: Id, user: Id) | ExchangeInvoiceSeries(branch: Id) | ReturnSeries(branch: Id)
  datatype Counter = Counter(series: Series, period: nat)
  datatype Number = Number(counter: Counter, value: nat)

  datatype Notes = NoNotes | Text(id: Id) | AgainstReturn(number: Number) | LinkedInvoice(number: Number)

  datatype Sale = Sale(invoice: Number, branch: Id, customer: Option<Id>, subtotal: Money, discount: Money, total: Money,
                       paid: Money, change: Money, status: PaymentStatus, notes: Notes)
  datatype SaleLine = SaleLine(sale: Id, product: Id, unitPrice: Money, cost: Money, quantity: int, discount: Money, total: Money)
  datatype SalePay = SalePay(sale: Id, amount: Money, means: Method, offset: Option<Number>)

  datatype RefundMethod = RefundCash | RefundCredit | RefundExchange
  datatype SalesReturn = SalesReturn(number: Number, sale: Id, branch: Id, customer: Option<Id>, total: Money, refund: RefundMethod, notes: Notes)
  datatype ReturnLine = ReturnLine(ret: Id, saleLine: Id, product: Id, unitPrice: Money, quantity: int, amount: Money)

  datatype Books = Books(sales: seq<Sale>, lines: seq<SaleLine>, payments: seq<SalePay>,
                         refunds: seq<SalesReturn>, returnLines: seq<ReturnLine>, counters: map<Counter, nat>)

  // ---- repairs ------------------------------------------------------

  datatype JobStatus = Working(stage: nat) | Delivered
  datatype Settlement = SettlementUnpaid | SettlementPaid | SettlementCredit
  datatype Job = Job(branch: Option<Id>, customer: Option<Id>, status: JobStatus, labour: seq<Money>, additional: Money, discount: Money,
                     invoice: Option<nat>, settlement: Settlement)
  datatype Part = Part(job: Id, product: Option<Id>, quantity: int, price: Money, stockDeducted: bool)
  datatype JobPay = JobPay(job: Id, amount: Money, means: Method)

  datatype Workshop = Workshop(jobs: seq<Job>, parts: map<Id, Part>, nextPart: Id, payments: seq<JobPay>, invoiceNext: map<Id, nat>)

  // -------------------------------------------------------------------

  datatype Tables = Tables(
    branches: map<Id, Branch>, products: map<Id, Product>, customers: map<Id, Customer>,
    inventory: Inventory, transfers: seq<TransferRow>, batches: map<TransferId, BatchRow>,
    till: Till, expenses: seq<Expense>, ledger: seq<LedgerEntry>, books: Books, workshop: Workshop)

  /** The PostgreSQL database: the tables, grouped by what changes together, updated in place. */
  class Database {
    var branches: map<Id, Branch>
    var products: map<Id, Product>
    var customers: map<Id, Customer>
    var inventory: Inventory
    var transfers: seq<TransferRow>
    var batches: map<TransferId, BatchRow>
    var till: Till
    var expenses: seq<Expense>
    var ledger: seq<LedgerEntry>
    var books: Books
    var workshop: Workshop

    /** The contents of every table. */
    function Contents(): Tables reads this {
      Tables(branches, products, customers, inventory, transfers, batches, till, expenses, ledger, books, workshop)
    }

    constructor (start: Tables)
      ensures Contents() == start
    {
      branches, products, customers := start.branches, start.products, start.customers;
      inventory, transfers, batches := start.inventory, start.transfers, start.batches;
      till, expenses, ledger := start.till, start.expenses, start.ledger;
      books, workshop := start.books, start.workshop;
    }

    /** ROLLBACK: every table is again what it was at BEGIN. */
    method Rollback(begin: Tables)
      modifies this
      ensures Contents() == begin
    {
      branches, products, customers := begin.branches, begin.products, begin.customers;
      inventory, transfers, batches := begin.inventory, begin.transfers, begin.batches;
      till, expenses, ledger := begin.till, begin.expenses, begin.ledger;
      books, workshop := begin.books, begin.workshop;
    }
  }
}
