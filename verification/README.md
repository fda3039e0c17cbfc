# Stock, cash and credit: a verified model

This project models the transactional core of the shop backend: the repository functions that
change PostgreSQL tables between BEGIN and COMMIT. It proves what they keep, over every run of whole
transactions; for the idempotent protocols and the locks, over every interleaving; and for sales,
exchanges and transfers, over every interleaving of their statements that is free of two races, both
of which are shown to happen.

## How it is built

- `Tables.dfy` holds the tables. A value of type `Tables` is the contents of all of them, class
  `Database` is the same tables as fields that the transactions update, and `Rollback` is ROLLBACK.
- Each repository function is a method over `Database` that reads and writes step by step as the
  code does. Its contract ties the answer and the new contents to a function on `Tables` (`SaleSpec`,
  `ExchangeSpec`, `BatchSpec`, ...), on which the properties are then proved. A thrown error leaves
  `Tables` as it was.
- `LockOrder.dfy`, `SaleProtocol.dfy`, `BatchProtocol.dfy` and `Isolation.dfy` are step relations: any
  number of transactions, any order of steps. The protocols take the transaction body as a parameter
  and let it take effect at the commit.
- `Isolation.dfy` is READ COMMITTED: each statement waits for locks, reads what is committed, or both.
  `Statements.dfy` lists the statements of sales, exchanges, single and batch transfers in the order of
  the code, and what each request commits given what it has read. `Readings.dfy` and `Footprints.dfy`
  show that a request that runs alone commits what its transaction does, within what it locks;
  `Races.dfy` finds the only two ways to be overtaken; `Concurrency.dfy` draws the conclusions, also for
  the protocols; `Overtaking.dfy` runs into both races, and `Exhibits.dfy` does so on literal tables.
- `StockLog`, `StockTransfer`, `ProductStock`, `CashDesk`, `CustomerLedger`, `Checkout`,
  `Bookkeeping`, `Sales`, `Returns`, `Exchange` and `Repair` are the transactions with their own
  laws; `ExchangeLaws`, `ExchangeReplay`, `SaleReturns` and `RepairLaws` hold laws that span them.
- `SaleLaws`, `RefundLaws`, `ExchangeTerms`, `TillLaws`, `StockTerms` and `RepairTerms` tie each of these
  functions to its request: when it is accepted, what a refusal says, and every row, movement, entry and
  figure it leaves, in terms of the request and the tables before it. `Sums.dfy` has the sums they use.
- `Runs.dfy` lets any of the 22 transactions follow one another in any order and proves one invariant
  over all of them (`Runs.RunKeeps`), from which the statements about whole runs follow.
- `SalePayload.dfy` and `Price.dfy` cover the canonical sale payload and the paisa parser.

Every lemma carries `{:induction false}`: each inductive proof is written out.

## Where the code does something its callers may not expect

The code is modelled as it is. These are proved facts about it, not changes to it.

- Neither an exchange nor its foreign keys keep another exchange of the same customer from reading the
  same balance. Two exchanges of one customer and of different goods that draw their numbers from
  different counters (those of two branches, say) and that are each acceptable and each post to the
  account can both commit with the second entry's `balance_after` wrong
  (`Overtaking.BalanceRaceBreaksIndex`, `Exhibits.BalanceRaceHappens`). An overtaken exchange keeps the
  running index if and only if it posts nothing or the balance it read is still right
  (`Overtaking.StaleBalanceIff`).
- FOR UPDATE locks nothing when the row is missing. A batch and another transfer that create the same
  stock row can both commit with the batch logging an empty destination that is not empty
  (`Overtaking.RowRaceBreaksChain`, `Exhibits.RowRaceHappens`); the log stays a chain if and only if every
  destination still holds what was read (`Overtaking.StaleRowsIff`). Totals are conserved even then
  (`Concurrency.TransfersConserveInterleaved`).
- Among sales, exchanges and transfers these are the only two races (`Races.ClashIsARace`); without them
  they commit as if one after another (`Concurrency.InterleavedAsInTurn`).
- A return or exchange checks each line against stored returns only, so a request that names a line
  twice can take back more than was sold. Both stay within what was sold if and only if their lines fit
  as a whole (`Returns.ReturnedWithinSoldIff`, `Returns.RepeatedLineIsReturnedTwice`,
  `ExchangeLaws.ExchangeReturnedWithinSoldIff`, `Exhibits.ExchangeReturnsTwice`).
- A full return refunds list prices: the refund is never less than the sale's total, and exceeds it
  exactly when a discount lowered a price (`SaleReturns.FullReturnIgnoresDiscounts`).
- A CREDIT return of a walk-in sale restores the stock and refunds nothing (`RefundLaws.ReturnRefundsAsAsked`).
- Exchanges never look at credit limits (`ExchangeLaws.ExchangeKeepsLimitsIff`,
  `ExchangeLaws.ExchangeCanExceedTheLimit`).
- An exchange that passes its checks can still fail, and `ExchangeLaws.ExchangeCommitsIff` says exactly
  when: a worthless return, a free replacement, a share paid by BANK, a debt without a customer, cash in
  or out without an open session, a returned product without a stock row, a negative price sent by the
  client. `Exhibits` has a literal request for each.
- A replayed exchange repeats the first answer, except that the return's notes are those stored, not
  those requested (`ExchangeReplay.ReplayAgrees`).
- Exchanges lock stock in cart order, and their customer and other returned goods after the counters.
  An exchange keeps the global order if and only if its sale is a walk-in's, its cart is sorted and
  covers what comes back (`LockOrder.ExchangeOrderIff`). Every other exchange has a sale or an exchange
  with which it can deadlock (`LockOrder.OutOfOrderDeadlocks`).
- A sale and an exchange under one key can both commit, after which a retry of the sale gets 409
  (`SaleProtocol.SaleAndExchangeCanShareASlot`, `Exhibits.SharedKeyBooksBoth`); a key carries at most one
  commit if and only if that has not happened (`SaleProtocol.OneCommitIff`). An administrator with no
  branch at all gets no protection from a key: `SaleProtocol.KeyProtectsUnless` compares the two branch
  resolutions.
- A late duplicate of a committed batch can be refused with 400 (`BatchProtocol.LateDuplicate`).
- Repair invoices count up per branch but are unique over all branches, so only one branch can ever
  deliver a job (`RepairLaws.SecondBranchNeverDelivers`). The comment in
  `repair.repo.ts:1039-1051` promises an invoice per branch; the index of migration 038 decides.
- A cash movement entered by hand may pass for an expense's or a repair's; of these movements exactly
  the others keep the accounts (`Runs.ManualCashKeepsIff`).
- CASH customer payments sort `cash_sessions` by `created_at` (`customer.repo.ts:843-848`), a column that
  no migration gives the table (`001_initial_schema.sql:408-422`): each of them raises an error and rolls
  back. Whether the column is there is an input of the model (`CustomerLedger.PaymentCommitsIff`).
- `cancelExpense` locks with an unqualified FOR UPDATE over two LEFT JOINs (`expense.repo.ts:421-434`),
  which PostgreSQL refuses for the nullable side of an outer join. The model lets it through.

## Model

| member | source | states |
|---|---|---|
| SaleProtocol.ReachableInvariant | backend/src/repositories/sale.repo.ts:864-1018 | in every interleaving: each key row names a committed sale of its slot and payload, at most one commit per kind and slot, lock holders are exclusive, and every outcome agrees with the tables |
| SaleProtocol.SuccessesAreOneSale | backend/src/repositories/sale.repo.ts:864-1018 | all successes under one key are one sale with one payload, and it is the only commit of its kind under the key |
| SaleProtocol.OneCommitPerSaleSlot | backend/src/repositories/sale.repo.ts:932-1016 | where only sales use a (branch, key), at most one commits and the key row is its own |
| SaleProtocol.LookupAfterCommit | backend/src/repositories/sale.repo.ts:893-979 | once the row exists, a lookup replays its sale exactly for the same payload and answers 409 otherwise |
| SaleProtocol.ShopIsSequential | backend/src/repositories/sale.repo.ts:842-844 | with bodies that take effect at the commit, the shop is what the committed requests make of it one after another: replays and aborts add nothing |
| SaleProtocol.OrphanIsUnreachable | backend/src/repositories/sale.repo.ts:962-983 | the fall-through after the re-check's ROLLBACK is never taken |
| SaleProtocol.UnkeyedRequestsRepeat | backend/src/repositories/sale.repo.ts:866-866 | without a key, a request that is accepted twice commits twice |
| Exhibits.UnkeyedSaleRepeats | backend/src/repositories/sale.repo.ts:866-866 | a literal sale, sent twice without a key, is booked twice |
| SaleProtocol.OneCommitIff | backend/src/repositories/exchange.repo.ts:134-139 | in every reachable state a key carries at most one commit exactly when a sale and an exchange have not both committed under it |
| SaleProtocol.SaleAndExchangeCanShareASlot | backend/src/repositories/exchange.repo.ts:134-139 | the two lock namespaces let a sale and an exchange of one key, both acceptable, both commit, and the sale's retry gets 409 |
| Exhibits.SharedKeyBooksBoth | backend/src/repositories/exchange.repo.ts:134-139 | it happens to a literal sale and a literal exchange on literal tables |
| BatchProtocol.ReachableInvariant | backend/src/repositories/stock_transfer.repo.ts:458-750 | in every interleaving: one commit per batch id, the stored row is its own, an uncommitted insert owns its key, outcomes agree with the rows |
| BatchProtocol.SuccessesAreOneBatch | backend/src/repositories/stock_transfer.repo.ts:464-495 | all successes of a batch id carry one payload and one stored result, and exactly one commit stands behind them |
| BatchProtocol.CallCommitsAtMostOnce | backend/src/repositories/stock_transfer.repo.ts:456-460 | one call commits in at most one of its three attempts |
| BatchProtocol.ShopIsSequential | backend/src/repositories/stock_transfer.repo.ts:708-731 | with bodies that take effect at the commit, losers of the key race and retries add nothing: the shop is a sequential execution of the commits |
| BatchProtocol.LookupAfterCommit | backend/src/repositories/stock_transfer.repo.ts:464-495 | a lookup after the commit gets the stored result, or 409 exactly when its payload differs |
| BatchProtocol.LateDuplicate | backend/src/repositories/stock_transfer.repo.ts:580-597 | a duplicate that looked too early is refused with 400 exactly when its twin left too little stock, and otherwise gets the stored result |
| LockOrder.LocksAreExclusive | backend/src/repositories/stock_transfer.repo.ts:182-195 | a lock held by two unfinished transactions is held shared by both |
| LockOrder.PlansFollowTheGlobalOrder | backend/src/repositories/sale.repo.ts:490-502 | sales, single and batch transfers take advisory, customer, stock by (branch, product), counter and unique-key locks in one order |
| LockOrder.OrderedProgramsNeverDeadlock | backend/src/repositories/stock_transfer.repo.ts:548-561 | in every reachable state with an unfinished sale, transfer or ordered exchange some transaction can step |
| LockOrder.ExchangeOrderIff | backend/src/repositories/exchange.repo.ts:498-635 | an exchange, whose foreign key locks its customer after the counters, keeps that order exactly when it has no registered customer, its cart is sorted and covers what it returns |
| LockOrder.OutOfOrderDeadlocks | backend/src/repositories/exchange.repo.ts:498-635 | every other exchange, goods returned and cart non-empty, reaches a state with some sale or exchange in which neither can step |
| Isolation.ApartIsSerial | backend/src/repositories/exchange.repo.ts:371-503 | if no two unfinished transactions clash, the shop is what the committed requests make of it one after another, whatever the plans and bodies |
| Isolation.UndisturbedIsSerial | backend/src/repositories/sale.repo.ts:298-303 | so it is if no commit changes what an unfinished transaction has read |
| Isolation.WriterOvertakes | backend/src/repositories/exchange.repo.ts:808-836 | conversely, a writer that a reader's first statements do not make wait can commit between them and the rest |
| Readings.AloneIsAtomic | backend/src/repositories/exchange.repo.ts:371-1094 | a request whose statements run alone commits exactly what its transaction commits, for all four kinds |
| Footprints.Footprint | backend/src/repositories/sale.repo.ts:649-691 | a sale, exchange or transfer changes the ledger of a customer, the returns of a sale and the quantity of a stock row only where its statements take the lock |
| Races.ClashIsARace | backend/src/repositories/exchange.repo.ts:501-503 | one transaction can be overtaken by another only as two exchanges of one customer, of two sales, under different counters, or as a batch and a transfer that create one stock row |
| Concurrency.InterleavedAsInTurn | backend/src/repositories/sale.repo.ts:925-1018 | sales, exchanges and transfers whose statements interleave without these two races: the tables are those of the commits one after another, the invariant holds, and there is one new sale per checkout |
| Concurrency.PlainRequestsNeverRace | backend/src/repositories/sale.repo.ts:298-303 | sales, walk-in exchanges and single transfers need no such condition |
| Concurrency.TransfersConserveInterleaved | backend/src/repositories/stock_transfer.repo.ts:613-632 | however transfers interleave, races included, each product's total is unchanged |
| Concurrency.CheckoutsInterleaved | backend/src/repositories/sale.repo.ts:925-1018 | the protocol's tables are those of the interleaved statements of the same commits; replays, conflicts and aborts have left nothing behind |
| Concurrency.BatchesInterleaved | backend/src/repositories/stock_transfer.repo.ts:456-750 | likewise for batches, their retries and lost races |
| Concurrency.SinglesInterleaved | backend/src/repositories/stock_transfer.repo.ts:93-288 | likewise for single transfers, without any condition |
| Concurrency.SingleTransferOnce | backend/src/repositories/stock_transfer.repo.ts:285-336 | all successful calls for one transfer id carry the payload of the one row stored under it, which one commit inserted |
| Overtaking.StaleBalanceIff | backend/src/repositories/exchange.repo.ts:808-836 | an exchange that commits on what it has read keeps the running index exactly when it posts nothing or the balance it read is still the customer's |
| Overtaking.BalanceRaceBreaksIndex | backend/src/repositories/exchange.repo.ts:808-836 | any two exchanges of different goods in that race (of two branches, say) that are acceptable and post can interleave so that both commit and the running index is broken |
| Exhibits.BalanceRaceHappens | backend/src/repositories/exchange.repo.ts:808-836 | a literal run of two exchanges, each leaving a debt of 5 |
| Overtaking.StaleRowsIff | backend/src/repositories/stock_transfer.repo.ts:609-655 | a batch that commits on what it has read keeps the log a chain exactly when every destination still holds what was read |
| Overtaking.RowRaceBreaksChain | backend/src/repositories/stock_transfer.repo.ts:555-655 | any batch and other transfer that are acceptable, create the same row and share no existing row can interleave so that both commit and the chain is broken |
| Exhibits.RowRaceHappens | backend/src/repositories/stock_transfer.repo.ts:555-655 | a literal run of two batches from two branches to a third |
| StockLog.AggregateCheckIsExact | backend/src/repositories/sale.repo.ts:485-520 | line-by-line deduction succeeds exactly when the per-product totals are available, and then lowers each shelf by its total |
| StockLog.CheckAvailable | backend/src/repositories/sale.repo.ts:485-520 | the totals gathered in a map and looked up once per product decide availability |
| StockLog.AvailableAfterRestore | backend/src/repositories/exchange.repo.ts:612-715 | goods put back first never spoil an availability check made before |
| StockLog.RestoreAllAdds | backend/src/repositories/returns.repo.ts:323-345 | restoring lines raises each shelf by exactly its total |
| StockLog.PostKeepsFaithful | backend/src/repositories/product.repo.ts:1702-1731 | a stock update with its movement, saturating at zero, keeps the log a linked chain that replays to the stock |
| StockLog.ChainedAt | backend/src/repositories/sale.repo.ts:680-691 | each movement starts where the previous one of its shelf ended |
| StockTransfer.TransferStock | backend/src/repositories/stock_transfer.repo.ts:55-290 | the single transfer: answer and new tables as specified, unchanged on every error |
| StockTransfer.TransferStockBatch | backend/src/repositories/stock_transfer.repo.ts:400-754 | the batch: validation, consolidation, stored answers, and all-or-nothing effects |
| StockTerms.TransferIsAcceptedIff | backend/src/repositories/stock_transfer.repo.ts:121-210 | a new single transfer is accepted exactly when it moves a positive quantity that the source holds of an active product between two connected branches, and each refusal has its status |
| StockTerms.TransferMovesItsUnits | backend/src/repositories/stock_transfer.repo.ts:213-280 | it takes its units off one shelf and puts them on the other and nowhere else, logs both, stores its row and answers both shelves as they then stand |
| StockTerms.TransferReplayIsStable | backend/src/repositories/stock_transfer.repo.ts:92-135 | a stored id sent again changes nothing: the stored row with the shelves' present quantities exactly when product, branches and quantity agree, otherwise 409 |
| StockTerms.BatchIsAcceptedIff | backend/src/repositories/stock_transfer.repo.ts:400-597 | a new batch is accepted exactly when it lists positive quantities of active products whose totals the source holds, between connected branches, and each refusal has its status |
| StockTerms.BatchMovesItsTotals | backend/src/repositories/stock_transfer.repo.ts:604-632 | each product named moves in full from source to destination, however its lines are split, and no other quantity changes |
| StockTerms.BatchIsAnsweredAndStored | backend/src/repositories/stock_transfer.repo.ts:657-708 | the answer lists each consolidated item with both shelves before and after; it is stored under the id, with one audit row per item |
| StockTransfer.SameFingerprintIffSameTotals | backend/src/repositories/stock_transfer.repo.ts:425-454 | two item lists have the same fingerprint exactly when source, destination and per-product totals agree |
| StockTransfer.NormalizedItems | backend/src/repositories/stock_transfer.repo.ts:425-440 | the consolidated list is strictly sorted, positive and keeps every product's total |
| StockTransfer.TransferConservesStock | backend/src/repositories/stock_transfer.repo.ts:213-235 | a single transfer leaves each product's total over all branches unchanged |
| StockTransfer.BatchConservesStock | backend/src/repositories/stock_transfer.repo.ts:604-640 | so does a batch, whatever it lists |
| StockTransfer.BatchKeepsFaithful | backend/src/repositories/stock_transfer.repo.ts:604-673 | a batch keeps log and stock in agreement, and no shelf goes below zero |
| StockTransfer.MovesArePaired | backend/src/repositories/stock_transfer.repo.ts:634-655 | each item leaves one TRANSFER_OUT and one TRANSFER_IN that match, under one reference, and nothing else |
| StockTransfer.ResultsReportTheStart | backend/src/repositories/stock_transfer.repo.ts:663-672 | the answer reports each item against the stock the batch began with |
| StockTransfer.BatchReplayIsStable | backend/src/repositories/stock_transfer.repo.ts:464-495 | repeating a stored batch later changes nothing and gives the stored answer, or 409 exactly when the totals or the route differ |
| ProductStock.AverageCostIsSound | backend/src/repositories/product.repo.ts:1967-2005 | the new average lies between old cost and unit cost, and values the stock to within half a rupee a unit |
| ProductStock.ValuationDrift | backend/src/repositories/product.repo.ts:1909-2040 | over any run of receipts and transfers the valuation drifts by at most half the sum of the running totals |
| ProductStock.StepDrift | backend/src/repositories/product.repo.ts:1967-2005 | transfers leave the valuation alone; a receipt is off by at most half its new total |
| ProductStock.FallbackUnreachable | backend/src/repositories/product.repo.ts:1967-2005 | the zero-denominator fallback never decides |
| ProductStock.ReceiveStock | backend/src/repositories/product.repo.ts:1909-2040 | receiving: new average over all branches, prices, row and movement |
| StockTerms.ReceiptIsAcceptedIff | backend/src/repositories/product.repo.ts:1909-1965 | accepted exactly for a positive quantity at no negative cost or price, of a known product at a known branch |
| StockTerms.ReceiptIsBooked | backend/src/repositories/product.repo.ts:1967-2040 | one shelf rises and is logged, the purchase price becomes the unit cost, the sale price changes only if one is sent, and the answer says so |
| StockTerms.ReceiptAverages | backend/src/repositories/product.repo.ts:1967-2005 | the new average is the whole rupee nearest to the value over all branches, halves going up |
| ProductStock.AdjustStock | backend/src/repositories/product.repo.ts:1598-1665 | adjusting to a target, logging the difference if any |
| ProductStock.DeltaStock | backend/src/repositories/product.repo.ts:1671-1745 | adding a delta clamped at zero, logging the unclamped quantity |
| StockTerms.AdjustmentReachesItsTarget | backend/src/repositories/product.repo.ts:1598-1665 | the shelf ends at the target, or at zero for a negative one, and exactly the difference is logged |
| StockTerms.ChangeIsAddedDownToZero | backend/src/repositories/product.repo.ts:1671-1745 | the shelf ends at its quantity plus the delta, or at zero, and the delta is logged as it was asked for |
| ProductStock.DeltaKeepsStock | backend/src/repositories/product.repo.ts:1702-1731 | even when the clamp acts, the log replays to the stock |
| ProductStock.CreateProductWithInitialStock | backend/src/repositories/product.repo.ts:602-760 | a new product with its opening row and movement |
| StockTerms.NewProductStartsWithItsQuantity | backend/src/repositories/product.repo.ts:602-760 | a new product is stored as sent and starts with its quantity at its branch, logged when positive; what is refused and how |
| ProductStock.ImportOpeningStock | backend/src/repositories/opening_stock.repo.ts:42-177 | the import loop, all or nothing |
| StockTerms.ImportAddsEveryLine | backend/src/repositories/opening_stock.repo.ts:42-177 | every line is added at the named branch, else the main one, and logged, or the first bad line undoes all |
| ProductStock.OpeningKeepsStock | backend/src/repositories/opening_stock.repo.ts:92-148 | an import keeps log and stock in agreement for known products |
| CashDesk.CloseCashSession | backend/src/repositories/cash.repo.ts:208-266 | closing: expected is opening plus CASH in minus CASH out, variance is actual minus expected |
| CashDesk.SumSession | backend/src/repositories/cash.repo.ts:226-235 | the two sums of a session's CASH movements give its net |
| TillLaws.OpeningStartsASession | backend/src/repositories/cash.repo.ts:166-206 | a session opens with its float exactly when its branch exists and has none open |
| TillLaws.ClosingTouchesOneSession | backend/src/repositories/cash.repo.ts:208-266 | closing an open session expects its float plus its CASH in less its CASH out, tells counted less expected, and changes nothing else |
| TillLaws.MovementMovesTheClosing | backend/src/repositories/cash.repo.ts:226-246 | a movement changes what its own session is expected to hold by its amount, by direction, only if it is CASH, and no other session |
| TillLaws.QuietSessionClosesAsOpened | backend/src/repositories/cash.repo.ts:226-246 | a session without movements is expected to hold its float |
| TillLaws.MovementIsBookedAsEntered | backend/src/repositories/cash.repo.ts:361-392 | a movement by hand is booked as entered, in the open session of its branch if there is one |
| CashDesk.RecordSpecKeepsTill | backend/src/repositories/cash.repo.ts:361-392 | whatever it says, it leaves at most one session open per branch and every closed session's figures and net as they were |
| CashDesk.RecordKeepsTill | backend/src/repositories/cash.repo.ts:208-266 | a movement recorded in an open session, or in none, leaves every closed session's figures and net as they were |
| CashDesk.OpenKeepsTill | backend/src/repositories/cash.repo.ts:171-186 | at most one session per branch is open |
| CashDesk.CreateExpense | backend/src/repositories/expense.repo.ts:211-327 | an expense, with its cash movement when CASH |
| CashDesk.CancelExpense | backend/src/repositories/expense.repo.ts:414-500 | cancelling, with the compensating movement when CASH |
| TillLaws.ExpenseIsPaid | backend/src/repositories/expense.repo.ts:211-327 | an expense is booked exactly when positive, of a known branch and, in CASH, with an open session, out of which it is paid |
| TillLaws.CancelledExpenseComesBack | backend/src/repositories/expense.repo.ts:439-500 | a standing expense is marked cancelled and its CASH comes back into an open session of its branch, or nothing happens |
| CashDesk.ExpenseKeepsNet | backend/src/repositories/expense.repo.ts:260-294 | a new CASH expense nets to minus its amount and every other expense keeps its net |
| CashDesk.CancelKeepsNet | backend/src/repositories/expense.repo.ts:439-485 | a cancelled one nets to zero |
| CashDesk.OtherMovesKeepNetIff | backend/src/repositories/cash.repo.ts:373-392 | any other movement keeps these accounts exactly when it is not an EXPENSE movement naming an expense |
| CustomerLedger.RecordCustomerPayment | backend/src/repositories/customer.repo.ts:764-900 | a payment: ledger credit and, when CASH, cash into the open session, provided that cash_sessions has the column the query sorts by; unchanged on every error |
| CustomerLedger.PaymentCommitsIff | backend/src/repositories/customer.repo.ts:837-855 | a known customer's payment goes through exactly when it is positive and, in CASH, has a branch, that column and an open session; it lowers the balance by its amount |
| TillLaws.PaymentIsCreditedAndBanked | backend/src/repositories/customer.repo.ts:791-880 | a payment is one PAYMENT credit and, in CASH, one movement into an open session of the branch, and touches nothing else |
| TillLaws.BalanceIsDebitsLessCredits | backend/src/repositories/customer.repo.ts:314-323 | the balance is the customer's debits less its credits |
| CustomerLedger.GetCustomerStatement | backend/src/repositories/customer.repo.ts:574-645 | the statement lists the customer's entries in order and ends at the outstanding balance |
| CustomerLedger.AppendKeepsIndex | backend/src/repositories/customer.repo.ts:791-837 | an appended entry keeps balance_after a running index and moves only its customer's balance |
| CustomerLedger.IndexAt | backend/src/repositories/customer.repo.ts:314-323 | each entry's balance_after is the balance up to it |
| CustomerLedger.LastEntryIsBalance | backend/src/repositories/customer.repo.ts:314-323 | the last entry carries SUM(debit) - SUM(credit) |
| CustomerLedger.StatementIsAChain | backend/src/repositories/customer.repo.ts:574-645 | in a statement each balance follows from the one before |
| Checkout.PriceCart | backend/src/repositories/sale.repo.ts:334-381 | lines priced in order, the first bad item deciding the error |
| Checkout.PreparedLinesAreSane | backend/src/repositories/sale.repo.ts:359-380 | priced lines keep product and quantity, floor their discount and their total at zero |
| Checkout.CollectTenders | backend/src/repositories/sale.repo.ts:398-410 | the real tenders in order: positive and not CREDIT |
| Checkout.AllocationIsExact | backend/src/repositories/sale.repo.ts:708-733 | greedy allocation hands out exactly the smaller of tendered and due, in positive shares, and no more cash than was tendered |
| Checkout.InsertPayments | backend/src/repositories/sale.repo.ts:708-733 | the loop writes one row per share, or fails on a method the schema refuses |
| Checkout.InsertLines | backend/src/repositories/sale.repo.ts:646-706 | the loop writes line, stock and movement for each prepared line |
| Sales.CompleteSaleTx | backend/src/repositories/sale.repo.ts:223-782 | the whole sale: answer and new tables, unchanged on every error |
| SaleLaws.SaleChargesTheCatalogue | backend/src/repositories/sale.repo.ts:334-381 | each item becomes a line at the product's own sale price, whatever the client sent, with its cost, less its discount; the header totals them less the invoice discount |
| SaleLaws.SaleTakesWhatIsBrought | backend/src/repositories/sale.repo.ts:398-458 | the positive listed payments that are not CREDIT, or else the single amount, pay for the sale, come back as change or are missing as credit |
| SaleLaws.PaymentsCountInOrder | backend/src/repositories/sale.repo.ts:398-410 | listed payments count one by one and in order |
| SaleLaws.NamesOfMoney | backend/src/repositories/sale.repo.ts:137-159 | which methods may be stored and which are cash under the names that sales and exchanges give them |
| SaleLaws.SharesFollowTenders | backend/src/repositories/sale.repo.ts:708-733 | the stored shares are the tenders in order, in full but for the last, under their own methods |
| SaleLaws.SaleBanksItsCashRows | backend/src/repositories/sale.repo.ts:735-768 | the CASH among the stored payment rows is what comes into an open session of the branch |
| SaleLaws.SaleTakesWhatIsAsked | backend/src/repositories/sale.repo.ts:646-706 | each shelf of the branch drops by what was asked of its product, and the log says so item by item |
| SaleLaws.SaleDrawsTheNextNumber | backend/src/repositories/sale.repo.ts:562-572 | the invoice is the next of the branch, user and period |
| SaleLaws.SaleIsAcceptedIff | backend/src/repositories/sale.repo.ts:264-610 | a sale is accepted exactly when branch, customer and products allow it, the goods are there, what is missing may be owed and what is brought can be banked |
| SaleLaws.SaleRefusals | backend/src/repositories/sale.repo.ts:264-610 | what each refused sale is told, the first fault deciding |
| Sales.SaleMoneyAddsUp | backend/src/repositories/sale.repo.ts:440-458 | payments total paid, tendered is paid plus change, total is paid plus credit, never change and credit both, PAID exactly without credit |
| Sales.SaleDebitsItsCredit | backend/src/repositories/sale.repo.ts:579-610 | the ledger is debited with exactly the credit, or left alone |
| Sales.SaleBanksItsCash | backend/src/repositories/sale.repo.ts:739-768 | an open session of the branch receives exactly the cash share, or nothing happens |
| Sales.SaleTakesItsTotals | backend/src/repositories/sale.repo.ts:649-691 | each shelf of the branch drops by its product's total, others stay |
| Sales.CheckedStockSuffices | backend/src/repositories/sale.repo.ts:672-678 | after the checks no stock row can be missing or too low, so the row-disappeared error is never raised |
| Sales.SaleKeepsLedger | backend/src/repositories/sale.repo.ts:590-598 | the running index survives and a positive credit limit is never exceeded |
| Sales.SaleKeepsBooks | backend/src/repositories/sale.repo.ts:562-691 | invoice numbers stay unique, rows sound, and every document's rows total its header |
| SalePayload.SamePayloadIff | backend/src/repositories/sale.repo.ts:793-815 | two requests have one payload exactly when their scalar fields agree and, product by product and method by method, their lines and payments agree in order |
| SalePayload.SameSortIff | backend/src/repositories/sale.repo.ts:798-809 | stable sorting by a key identifies exactly the lists that agree key by key |
| SalePayload.OrderDoesNotMatter | backend/src/repositories/sale.repo.ts:788-792 | with distinct products and methods the payload ignores order |
| SalePayload.RepeatedProductOrderMatters | backend/src/repositories/sale.repo.ts:798-799 | with a repeated product it does not |
| Returns.CreateSalesReturn | backend/src/repositories/returns.repo.ts:163-444 | the whole return: answer and new tables, unchanged on every error |
| Returns.CheckReturns | backend/src/repositories/returns.repo.ts:212-256 | the validation loop, with the refund it accumulates |
| Returns.ReturnedWithinSoldIff | backend/src/repositories/returns.repo.ts:229-241 | an accepted return keeps returned within sold exactly when its lines fit as a whole |
| Returns.DistinctLinesFit | backend/src/repositories/returns.repo.ts:212-241 | naming each line once is enough |
| Returns.RepeatedLineIsReturnedTwice | backend/src/repositories/returns.repo.ts:229-241 | a concrete request that returns two units of one sold |
| Returns.GetSaleReturnableInfo | backend/src/repositories/returns.repo.ts:118-161 | the report lists the sale's lines with sold, returned and remaining |
| Returns.ReportIsWhatIsAccepted | backend/src/repositories/returns.repo.ts:128-149 | remaining is sold minus returned, its clamp never active, and is exactly what a return will accept |
| RefundLaws.ReturnIsAcceptedIff | backend/src/repositories/returns.repo.ts:163-345 | a return is accepted exactly when each item may come back, together they are worth something and their shelves exist; each refusal has its status |
| RefundLaws.ReturnHasItsHeader | backend/src/repositories/returns.repo.ts:258-300 | its header carries the sale's branch and customer, the worth of the goods, the refund method and the next number |
| RefundLaws.ReturnHasItsRows | backend/src/repositories/returns.repo.ts:301-322 | one row per item at the price it was sold for |
| RefundLaws.ReturnRefundsAsAsked | backend/src/repositories/returns.repo.ts:372-411 | CREDIT lowers the customer's account by the total and touches no till, and refunds a walk-in nothing; any other method pays the total OUT of the till in CASH and touches no account |
| RefundLaws.CashRefundLowersTheClosing | backend/src/repositories/returns.repo.ts:394-411 | a cash refund lowers what the open session is expected to hold by exactly its total |
| RefundLaws.ReturnRestocks | backend/src/repositories/returns.repo.ts:323-356 | each shelf of the sale's branch rises by what came back, and the log says so item by item |
| RefundLaws.ReportSaysWhatIsLeft | backend/src/repositories/returns.repo.ts:118-161 | the report has one entry per line of the sale with sold, returned, remaining and price |
| Returns.ReturnRestoresItsTotals | backend/src/repositories/returns.repo.ts:301-356 | each shelf of the sale's branch rises by what came back |
| SaleReturns.FullReturnRestoresStock | backend/src/repositories/returns.repo.ts:301-356 | selling and then returning everything leaves every shelf as it was |
| SaleReturns.FullReturnIgnoresDiscounts | backend/src/repositories/returns.repo.ts:243-244 | a full return refunds list prices: at least the total, and more exactly when a discount lowered a price |
| Exchange.ProcessExchange | backend/src/repositories/exchange.repo.ts:370-1094 | the whole exchange after the key checks: answer and new tables, unchanged on every error |
| ExchangeTerms.ExchangeIsPlannedIff | backend/src/repositories/exchange.repo.ts:281-534 | an exchange passes its checks exactly when its goods may come back, its items may be sold and are there, and a refund that is due is named and can be given; each refusal has its status |
| ExchangeTerms.PlannedExchangeCommitsIff | backend/src/repositories/exchange.repo.ts:536-1019 | and then commits exactly when the goods are worth something, rows and prices allow it and the difference can be banked, owed or refunded |
| ExchangeTerms.PlannedExchangeRefusals | backend/src/repositories/exchange.repo.ts:536-1019 | what it is told when it does not, the first fault deciding |
| ExchangeTerms.ExchangeChargesWhatIsAsked | backend/src/repositories/exchange.repo.ts:463-496 | each item becomes a line at the client's price exactly when one was sent, else at the catalogue's |
| ExchangeTerms.ExchangeHasItsSale | backend/src/repositories/exchange.repo.ts:562-583 | the replacement's header carries those charges, the next exchange invoice and a link to the return unless notes were sent |
| ExchangeTerms.ExchangeHasItsReturn | backend/src/repositories/exchange.repo.ts:584-606 | the return's header carries the worth of the goods, the refund given, the next return number and a link to the invoice unless notes were sent |
| ExchangeTerms.ExchangeHasItsReturnRows | backend/src/repositories/exchange.repo.ts:607-635 | one row per good at the price it was sold for |
| ExchangeTerms.ExchangeMovesWhatIsAsked | backend/src/repositories/exchange.repo.ts:612-715 | the goods go back first, then the replacements leave, each shelf by its totals and each item with its movement |
| ExchangeTerms.ExchangeCollectsTheDifference | backend/src/repositories/exchange.repo.ts:761-876 | when the customer pays: what is brought pays, comes back as change or is missing; the first payment row offsets the return |
| ExchangeTerms.ExchangeOwesTheRest | backend/src/repositories/exchange.repo.ts:803-836 | what is missing is one SALE debit of the original sale's customer |
| ExchangeTerms.ExchangeBanksItsCashRows | backend/src/repositories/exchange.repo.ts:879-910 | the CASH among its other payment rows comes into an open session of the branch |
| ExchangeTerms.ExchangeRefundsAsAsked | backend/src/repositories/exchange.repo.ts:911-1008 | when the shop refunds: CREDIT is one RETURN credit of the customer and touches no till, any other method pays the difference out of an open session and touches no account |
| ExchangeTerms.RefundIffGoodsAreWorthMore | backend/src/repositories/exchange.repo.ts:517-534 | a refund is given exactly when the goods are worth more than the replacement |
| ExchangeTerms.ExchangeAnswersWhatItStored | backend/src/repositories/exchange.repo.ts:1021-1090 | the answer repeats the stored rows, except for the return's notes |
| Exhibits.CreditRefundGoesToTheAccount | backend/src/repositories/exchange.repo.ts:934-959 | a literal exchange refunded by CREDIT lowers the account and leaves the till alone |
| Exchange.CollectDifference | backend/src/repositories/exchange.repo.ts:761-910 | the positive settlement: tenders, debt, offset and payment rows, cash |
| ExchangeLaws.CoveringBalances | backend/src/repositories/exchange.repo.ts:911-1008 | the negative and the balanced settlement: the returned goods cover the replacement, what is over leaves as cash or credit, and no tender is applied |
| ExchangeLaws.ExchangeConservesValue | backend/src/repositories/exchange.repo.ts:752-1019 | returned + applied tender + new debt = replacement + cash refunded; payments total paid; PAID exactly without debt |
| ExchangeLaws.ExchangeChangeIsTheRest | backend/src/repositories/exchange.repo.ts:793-805 | what is tendered is applied or handed back |
| ExchangeLaws.ExchangeCashIsExact | backend/src/repositories/exchange.repo.ts:879-987 | the open session receives exactly the cash share, or pays exactly the cash refund, or sees nothing |
| ExchangeLaws.CheckedExchangeStockSuffices | backend/src/repositories/exchange.repo.ts:498-514 | the check before the first write covers the deductions made after the returned goods are back |
| ExchangeLaws.ExchangeMovesItsTotals | backend/src/repositories/exchange.repo.ts:612-715 | each shelf ends at its start plus what came back minus what went out |
| ExchangeLaws.ExchangeCommitsIff | backend/src/repositories/exchange.repo.ts:536-1019 | an exchange that passes its checks commits exactly when the return is worth something, the returned rows exist, no price is negative, every share is storable, debt has a customer, cash has an open session and the replacement is worth something |
| ExchangeLaws.GoodsMoveIff | backend/src/repositories/exchange.repo.ts:612-715 | both sides of the goods can be written exactly when the returned rows exist and no replacement price or cost is negative |
| Exhibits.WorthlessReturnFails | backend/src/repositories/exchange.repo.ts:584-606 | a literal exchange of goods sold for nothing fails |
| Exhibits.FreeReplacementFails | backend/src/repositories/exchange.repo.ts:919-923 | a literal free replacement fails |
| Exhibits.BankShareFails | backend/src/repositories/exchange.repo.ts:96-105 | a literal exchange whose second share is paid by bank fails |
| Exhibits.MissingRowFails | backend/src/repositories/exchange.repo.ts:636-655 | a literal exchange of a product without a stock row fails |
| Exhibits.AnonymousDebtFails | backend/src/repositories/exchange.repo.ts:803-806 | a literal debt without a customer fails |
| Exhibits.CashWithoutSessionFails | backend/src/repositories/exchange.repo.ts:879-890 | a literal cash payment without an open session fails |
| Exhibits.RefundWithoutSessionFails | backend/src/repositories/exchange.repo.ts:963-973 | a literal cash refund without an open session fails |
| Exhibits.NegativePriceFails | backend/src/repositories/exchange.repo.ts:463-486 | a literal exchange with a negative price sent by the client fails |
| ExchangeLaws.ExchangeKeepsLimitsIff | backend/src/repositories/exchange.repo.ts:803-836 | limits survive an exchange exactly when what it leaves unpaid would have fitted |
| ExchangeLaws.ExchangeCanExceedTheLimit | backend/src/repositories/exchange.repo.ts:803-836 | a concrete exchange that takes a customer past the limit |
| ExchangeLaws.ExchangeKeepsBooks | backend/src/repositories/exchange.repo.ts:536-610 | both numbers fresh and unique, rows sound, headers totalled by their rows |
| ExchangeLaws.ExchangeReturnedWithinSoldIff | backend/src/repositories/exchange.repo.ts:385-425 | an accepted exchange keeps returned within sold exactly when its returned lines fit as a whole |
| Exhibits.ExchangeReturnsTwice | backend/src/repositories/exchange.repo.ts:385-425 | a literal exchange that names one line twice takes back two units of one sold |
| ExchangeReplay.ReplayAgrees | backend/src/repositories/exchange.repo.ts:141-267 | in any later state the replay gives the first answer in all three settlements, up to the return's notes, and exactly when notes were sent |
| ExchangeReplay.ReplayIsStable | backend/src/repositories/exchange.repo.ts:152-165 | once the offset payment leads to a return, every later replay answers the same |
| ExchangeReplay.ReturnFound | backend/src/repositories/exchange.repo.ts:152-195 | the offset payment alone finds the return, so neither fallback nor the 500 is reached |
| ExchangeReplay.OffsetInAnyOrder | backend/src/repositories/exchange.repo.ts:154-156 | it does so in whatever order the payment rows come back |
| ExchangeReplay.FallbacksFindTheReturn | backend/src/repositories/exchange.repo.ts:167-190 | a sale without its offset payment still leads to its return by the number in its notes, or else as the only return of the original that names its invoice |
| ExchangeReplay.SettledBalanceFound | backend/src/repositories/exchange.repo.ts:219-245 | the ledger entry looked up by reference and type is the one that gave the balance, and is missing exactly when none was given |
| Repair.CreateRepairJob | backend/src/repositories/repair.repo.ts:414-588 | booking a job, with its advance |
| RepairLaws.StatusKeepsRepair | backend/src/repositories/repair.repo.ts:600-649 | setting a status keeps every job's settlement meaning, the numbers and the account of parts |
| Repair.AddRepairPart | backend/src/repositories/repair.repo.ts:660-799 | adding a part, taking stock when product and branch are known |
| Repair.RemoveRepairPart | backend/src/repositories/repair.repo.ts:806-907 | removing a part, putting stock back when it was taken |
| Repair.AddRepairPayment | backend/src/repositories/repair.repo.ts:915-1016 | a payment, in the open session when CASH |
| Repair.CompleteRepairJob | backend/src/repositories/repair.repo.ts:1052-1267 | delivery: number, charges, settlement payment, walk-in guard, settlement status |
| Repair.SumJob | backend/src/repositories/repair.repo.ts:132-139 | the loops over parts and payments give the totals |
| RepairTerms.WhatAJobOwes | backend/src/repositories/repair.repo.ts:120-160 | a job owes parts, labour and additional charges, less its discount and its payments |
| RepairTerms.BookingStartsAJob | backend/src/repositories/repair.repo.ts:414-588 | a job starts unpaid and without charges; a positive advance is one payment of it, into an open session when CASH |
| RepairTerms.StatusIsSet | backend/src/repositories/repair.repo.ts:600-649 | a status other than Delivered is set on any job not delivered, and nothing else changes |
| RepairTerms.JobPaymentIsTaken | backend/src/repositories/repair.repo.ts:915-1016 | a payment joins the job's payments and, in CASH, an open session |
| RepairTerms.PartIsFitted | backend/src/repositories/repair.repo.ts:660-799 | a part is written down, and off the branch's shelf when it is a catalogue product of a job with a branch |
| RepairTerms.PartIsPulled | backend/src/repositories/repair.repo.ts:806-907 | a part is struck out and units that were taken go back |
| RepairTerms.DeliveryIsAcceptedIff | backend/src/repositories/repair.repo.ts:1052-1225 | a job is delivered exactly when it has a branch, its settlement can be banked, a walk-in is left owing nothing and the next number is free |
| RepairTerms.DeliveryClosesTheJob | backend/src/repositories/repair.repo.ts:1107-1267 | a delivered job has its charges, its settlement and its number, and says whether anything is left to pay |
| RepairLaws.AddThenRemoveRestores | backend/src/repositories/repair.repo.ts:849-883 | adding and removing a part puts shelves and parts back |
| RepairLaws.AddPartKeepsRepair | backend/src/repositories/repair.repo.ts:701-771 | net stock taken by each job stays the sum of its deducted parts |
| RepairLaws.RemovePartKeepsRepair | backend/src/repositories/repair.repo.ts:849-884 | likewise when a part is removed |
| RepairLaws.DeliverKeepsRepair | backend/src/repositories/repair.repo.ts:1089-1241 | a number is allocated once, unique over all jobs and behind its branch's counter, and the status says what remains |
| RepairLaws.SettlementMeansBalance | backend/src/repositories/repair.repo.ts:1197-1209 | delivered is PAID exactly when remainingBalance is at most zero, CREDIT otherwise, and never CREDIT for a walk-in |
| RepairLaws.OneBranchDelivers | src-tauri/migrations/postgres/038_repair_transaction_pipeline.sql:51-55 | all jobs with an invoice number are of one branch |
| RepairLaws.SecondBranchNeverDelivers | backend/src/repositories/repair.repo.ts:1096-1106 | a delivery that passes the other checks commits exactly when no job of another branch was ever delivered |
| RepairLaws.DeliverKeepsCash | backend/src/repositories/repair.repo.ts:1142-1190 | the till's account of each job with a branch stays its CASH payments |
| Runs.RunKeeps | backend/src/repositories/sale.repo.ts:223-782 | over any run of all 22 transactions the invariant holds, documents only grow, closed sessions and delivered jobs stay as they were |
| Runs.OpeningHolds | backend/src/repositories/opening_stock.repo.ts:42-177 | a shop without history satisfies the invariant |
| Runs.LogAgreesWithStock | backend/src/repositories/product.repo.ts:1702-1731 | in every state of every run each shelf's log is a chain that replays to its quantity, never below zero |
| Runs.LedgerAgreesWithBalance | backend/src/repositories/customer.repo.ts:314-323 | in every state each balance_after is the balance up to it, and the last is what is owed |
| Runs.DocumentsAddUp | backend/src/repositories/sale.repo.ts:383-386 | in every state lines total subtotals, payments total paid amounts, return lines total refunds |
| Runs.NumbersStayUnique | backend/src/repositories/sale.repo.ts:562-572 | in every state no two sales share an invoice number and no two returns a return number, as counter and value |
| Runs.ClosedSessionsAreFinal | backend/src/repositories/cash.repo.ts:208-266 | a closed session is joined by no later movement and keeps its figures, which stay the formula over its movements |
| Runs.OneOpenSession | backend/src/repositories/cash.repo.ts:171-186 | no branch ever has two open sessions |
| Runs.ManualCashKeepsIff | backend/src/repositories/cash.repo.ts:361-392 | a recorded movement by hand keeps the invariant exactly when it is neither an EXPENSE movement naming an expense nor a repair payment naming a job |
| Runs.ExpensesAreAccounted | backend/src/repositories/expense.repo.ts:439-485 | in every state a CASH expense nets to minus its amount while it stands and to zero once cancelled |
| Runs.DeliveredJobsAreFinal | backend/src/repositories/repair.repo.ts:830-832 | row, parts and settlement of a delivered job never change |
| Runs.JobsAreAccounted | backend/src/repositories/repair.repo.ts:132-139 | in every state each job's parts match the stock log and its CASH payments the till |
| Runs.DeliveriesAreOfOneBranch | src-tauri/migrations/postgres/038_repair_transaction_pipeline.sql:51-55 | in every state all delivered jobs are of one branch |
| Runs.ExchangesReplayForever | backend/src/repositories/exchange.repo.ts:311-324 | an exchange replays after any further run |
| Runs.ReturnedStaysWithinSold | backend/src/repositories/returns.repo.ts:229-241 | over any run whose requests name each line once, returned stays within sold |
| Runs.LimitsHoldWithoutExchanges | backend/src/repositories/sale.repo.ts:590-598 | over any run without exchanges, balances stay within positive limits |
| Runs.TransfersConserveTotals | backend/src/repositories/stock_transfer.repo.ts:604-640 | over any run of transfers each product's total is unchanged |
| Price.ParseIsExact | backend/src/routes/mobile.validation.ts:100-131 | the parser accepts exactly decimal numerals with at most ten integer digits, gives their value in paisas, and its range check never fires |
| Price.PrintThenParse | backend/src/routes/mobile.validation.ts:114-130 | parsing undoes printing for every amount in range |
| Price.PricesEqualIffSameValue | backend/src/routes/mobile.validation.ts:167-172 | two inputs are equal exactly when both are accepted and denote the same amount |

## Left out

- Routing, authentication, permissions and branch access: the resolved branch, role and user are inputs.
- Blank-string and trimming checks, and the spelling aliases of payment methods: methods are a datatype.
- The text of document numbers: a number is its counter and value, so the uniqueness of sale invoice strings (two hex digits of the user) is not claimed.
- Names, reasons, descriptions, warranty, images and timelines; the change log; opening_stock_entries; expense and receipt numbers; statement filters by branch and date.
- Listings, profit reports, getDailySummary and supplier payments.
- Timestamps: rows are in the order they were inserted, including rows of one document, whose order in PostgreSQL is by random id.
- Generated ids are positions in their tables; ids given by callers are kept where they matter (transfers, batches).
- In `Runs.dfy` a transaction is one step. `Isolation.dfy` interleaves the statements of sales, exchanges and transfers only: sales returns, which read a balance the way exchanges do, customer payments, which lock the customer, and the rest are not among them.
- SaleProtocol.ShopIsSequential: the body takes effect at the commit; `Concurrency.CheckoutsInterleaved` says when that is what the statements do.
- BatchProtocol.ShopIsSequential: the same, see `Concurrency.BatchesInterleaved` and `Concurrency.SinglesInterleaved`.
- Concurrency.InterleavedAsInTurn: a pair of exchanges that meets the race's description without posting is excluded too, though it does no harm.
- In `Isolation.dfy` all writes of a transaction become visible at its commit, while it still holds its locks; what its own later statements see of them is part of the body.
- SHA-256 is taken to be injective, and the order of ids to be one total order for JavaScript and PostgreSQL.
- LockOrder.OrderedProgramsNeverDeadlock: for stock rows that exist, because the insertion of a missing destination row is not in the lock model.
- Stock rows, jobs, branches, products and customers are never deleted, and no transaction edits a customer or a price list.
- ExchangeReplay.ReturnFound: a payment's reference text that happens to begin with RET- is not told apart from an exchange's offset; sales here carry none.
- CustomerLedger.GetCustomerStatement: the joins that look up a branch may repeat an entry; the statement here lists each once.
- Quantities and amounts are whole numbers, as the callers send them; the rounding of fractional input is not modelled.
- StockTransfer.TransferStock: a replayed single transfer reports current stock, as the code does; nothing is claimed about its figures, here or in `Concurrency.SingleTransferOnce`.
- Labour charges are a column of the job that no modelled transaction writes.
- The number branch of the paisa parser, which goes through floating point.
- CashDesk.CancelExpense: the FOR UPDATE that PostgreSQL refuses is taken to be accepted; so is every other SQL statement but the CASH payment's.
- Change of dates within a run: the period of a document number is an input of its request.
