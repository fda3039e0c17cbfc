/** The customer ledger as a running index, statements and payments. */
module CustomerLedger {
  import opened Wrappers
  import opened Tables
  import opened CashDesk

  /** SUM(debit) - SUM(credit) of one customer. */
  function Balance(ledger: seq<LedgerEntry>, customer: Id): Money {
    if ledger == [] then 0
    else
      var e := ledger[|ledger| - 1];
      Balance(ledger[..|ledger| - 1], customer) + (if e.customer == customer then e.debit - e.credit else 0)
  }

  /** Every entry's balance_after is the balance of its customer up to and including it; no amount is negative. */
  predicate RunningIndex(ledger: seq<LedgerEntry>) {
    if ledger == [] then true
    else
      var earlier, e := ledger[..|ledger| - 1], ledger[|ledger| - 1];
      && RunningIndex(earlier)
      && e.balanceAfter == Balance(earlier, e.customer) + e.debit - e.credit
      && e.debit >= 0 && e.credit >= 0
  }

  /** Appends an entry carrying the balance it leaves. */
  function Append(ledger: seq<LedgerEntry>, customer: Id, reference: Ref, kind: EntryKind, debit: Money, credit: Money): seq<LedgerEntry> {
    ledger + [LedgerEntry(customer, reference, kind, debit, credit, Balance(ledger, customer) + debit - credit)]
  }

  lemma {:induction false} AppendKeepsIndex(ledger: seq<LedgerEntry>, customer: Id, reference: Ref, kind: EntryKind, debit: Money, credit: Money)
    requires RunningIndex(ledger) && debit >= 0 && credit >= 0
    ensures RunningIndex(Append(ledger, customer, reference, kind, debit, credit))
    ensures forall c :: Balance(Append(ledger, customer, reference, kind, debit, credit), c)
                     == Balance(ledger, c) + (if c == customer then debit - credit else 0)
  {
    var after := Append(ledger, customer, reference, kind, debit, credit);
    assert after[..|ledger|] == ledger;
  }

  lemma {:induction false} IndexAt(ledger: seq<LedgerEntry>, i: nat)
    requires RunningIndex(ledger) && i < |ledger|
    ensures ledger[i].balanceAfter == Balance(ledger[..i + 1], ledger[i].customer)
  {
    if i < |ledger| - 1 {
      IndexAt(ledger[..|ledger| - 1], i);
      assert ledger[..|ledger| - 1][..i + 1] == ledger[..i + 1];
    } else {
      assert ledger[..i + 1] == ledger;
    }
  }

  // ------------------------------------------------------------------
  // Statements, oldest entry first, without a branch filter.

  function StatementEntries(ledger: seq<LedgerEntry>, customer: Id): seq<LedgerEntry> {
    if ledger == [] then []
    else
      var e := ledger[|ledger| - 1];
      StatementEntries(ledger[..|ledger| - 1], customer) + (if e.customer == customer then [e] else [])
  }

  datatype Statement = Statement(entries: seq<LedgerEntry>, currentBalance: Money)

  method GetCustomerStatement(db: Database, customer: Id) returns (r: Result<Statement>)
    ensures customer !in db.customers ==> r == Err(NotFound)
    ensures customer in db.customers ==> r.Ok? && r.value.entries == StatementEntries(db.ledger, customer)
    ensures customer in db.customers && RunningIndex(db.ledger) ==> r.value.currentBalance == Balance(db.ledger, customer)
  {
    if customer !in db.customers {
      return Err(NotFound);
    }
    var entries: seq<LedgerEntry> := [];
    for k := 0 to |db.ledger|
      invariant entries == StatementEntries(db.ledger[..k], customer)
    {
      assert db.ledger[..k + 1][..k] == db.ledger[..k];
      if db.ledger[k].customer == customer {
        entries := entries + [db.ledger[k]];
      }
    }
    assert db.ledger[..|db.ledger|] == db.ledger;
    var current := if entries == [] then 0 else entries[|entries| - 1].balanceAfter;
    if RunningIndex(db.ledger) {
      LastEntryIsBalance(db.ledger, customer);
    }
    return Ok(Statement(entries, current));
  }

  /** The last statement entry carries the outstanding balance; a customer without entries owes nothing. */
  lemma {:induction false} LastEntryIsBalance(ledger: seq<LedgerEntry>, customer: Id)
    requires RunningIndex(ledger)
    ensures var entries := StatementEntries(ledger, customer);
            Balance(ledger, customer) == if entries == [] then 0 else entries[|entries| - 1].balanceAfter
  {
    if ledger != [] {
      LastEntryIsBalance(ledger[..|ledger| - 1], customer);
    }
  }

  /** Within a statement each balance follows from the one before it. */
  lemma {:induction false} StatementIsAChain(ledger: seq<LedgerEntry>, customer: Id, i: nat)
    requires RunningIndex(ledger) && i < |StatementEntries(ledger, customer)|
    ensures var entries := StatementEntries(ledger, customer);
            entries[i].balanceAfter == (if i == 0 then 0 else entries[i - 1].balanceAfter) + entries[i].debit - entries[i].credit
  {
    var earlier := ledger[..|ledger| - 1];
    if i < |StatementEntries(earlier, customer)| {
      StatementIsAChain(earlier, customer, i);
    } else {
      LastEntryIsBalance(earlier, customer);
    }
  }

  // ------------------------------------------------------------------
  // Payments.

  /**
   * The branch is that of the caller; only CASH payments need it. They look for the open session by
   * its created_at; dated says whether cash_sessions has that column, which no migration gives it.
   */
  function PaymentSpec(t: Tables, dated: bool, customer: Id, amount: Money, means: Method, branch: Option<Id>): (Result<Money>, Tables) {
    if amount <= 0 then (Err(BadRequest), t)
    else if customer !in t.customers then (Err(NotFound), t)
    else
      var entry := PaymentRef(|t.ledger|);
      var after := Balance(t.ledger, customer) - amount;
      var paid := t.(ledger := Append(t.ledger, customer, entry, PaymentEntry, 0, amount));
      if !means.Cash? then (Ok(after), paid)
      else if branch == None then (Err(BadRequest), t)
      else if !dated then (Err(ServerError), t)
      else
        match OpenSessionAt(t.till.sessions, branch.value)
        case None => (Err(BadRequest), t)
        case Some(session) =>
          (Ok(after), paid.(till := Record(t.till, CashMove(Some(session), branch.value, CustomerPayment, Inward, amount, Cash, entry))))
  }

  method RecordCustomerPayment(db: Database, dated: bool, customer: Id, amount: Money, means: Method, branch: Option<Id>) returns (r: Result<Money>)
    modifies db
    ensures (r, db.Contents()) == PaymentSpec(old(db.Contents()), dated, customer, amount, means, branch)
  {
    if amount <= 0 {
      return Err(BadRequest);
    }
    var begin := db.Contents();
    if customer !in db.customers {
      return Err(NotFound);
    }
    var after := Balance(db.ledger, customer) - amount;
    var entry := PaymentRef(|db.ledger|);
    db.ledger := db.ledger + [LedgerEntry(customer, entry, PaymentEntry, 0, amount, after)];
    if means.Cash? {
      if branch.None? {
        db.Rollback(begin);
        assert db.Contents() == begin;
        return Err(BadRequest);
      }
      if !dated {
        db.Rollback(begin);
        assert db.Contents() == begin;
        return Err(ServerError);
      }
      var session := OpenSessionAt(db.till.sessions, branch.value);
      if session.None? {
        db.Rollback(begin);
        assert db.Contents() == begin;
        return Err(BadRequest);
      }
      OpenSessionIsOpen(db.till.sessions, branch.value);
      var till := db.till.sessions[session.value].branch;
      db.till := db.till.(moves := db.till.moves + [CashMove(session, till, CustomerPayment, Inward, amount, Cash, entry)]);
    }
    return Ok(after);
  }

  /** A payment of a known customer goes through exactly when it is positive and, if in cash, has a branch, a dated table and an open session. */
  lemma {:induction false} PaymentCommitsIff(t: Tables, dated: bool, customer: Id, amount: Money, means: Method, branch: Option<Id>)
    requires customer in t.customers
    ensures var (r, after) := PaymentSpec(t, dated, customer, amount, means, branch);
            && (r.Ok? <==> amount > 0 && (means.Cash? ==> branch.Some? && dated && OpenSessionAt(t.till.sessions, branch.value).Some?))
            && (r.Ok? ==> r.value == Balance(after.ledger, customer) == Balance(t.ledger, customer) - amount)
            && (r.Err? ==> after == t)
  {
    var posted := Append(t.ledger, customer, PaymentRef(|t.ledger|), PaymentEntry, 0, amount);
    assert posted[..|t.ledger|] == t.ledger;
  }

  /** No registered customer with a positive credit limit owes more than it. */
  ghost predicate WithinLimits(t: Tables) {
    forall c | c in t.customers && t.customers[c].creditLimit > 0 :: Balance(t.ledger, c) <= t.customers[c].creditLimit
  }

  lemma {:induction false} PaymentKeepsLedger(t: Tables, dated: bool, customer: Id, amount: Money, means: Method, branch: Option<Id>)
    requires RunningIndex(t.ledger)
    ensures var after := PaymentSpec(t, dated, customer, amount, means, branch).1;
            RunningIndex(after.ledger) && (WithinLimits(t) ==> WithinLimits(after))
  {
    if amount > 0 {
      AppendKeepsIndex(t.ledger, customer, PaymentRef(|t.ledger|), PaymentEntry, 0, amount);
    }
  }

  lemma {:induction false} PaymentKeepsTill(t: Tables, dated: bool, customer: Id, amount: Money, means: Method, branch: Option<Id>)
    requires TillInvariant(t.till) && ExpensesNet(t.expenses, t.till.moves)
    ensures var after := PaymentSpec(t, dated, customer, amount, means, branch).1;
            TillInvariant(after.till) && ClosedStayFinal(t.till, after.till) && ExpensesNet(after.expenses, after.till.moves)
  {
    if amount > 0 && branch.Some? {
      OpenSessionIsOpen(t.till.sessions, branch.value);
      match OpenSessionAt(t.till.sessions, branch.value)
      case None =>
      case Some(session) =>
        var m := CashMove(Some(session), branch.value, CustomerPayment, Inward, amount, Cash, PaymentRef(|t.ledger|));
        RecordKeepsTill(t.till, m);
        OtherMovesKeepNetIff(t.expenses, t.till.moves, m);
    }
  }
}
