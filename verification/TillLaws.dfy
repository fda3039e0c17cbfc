/** What the till owes its branch: sessions, movements by hand, expenses and customer payments, told by their requests. */
module TillLaws {
  import opened Wrappers
  import opened Sums
  import opened Tables
  import opened CashDesk
  import opened CustomerLedger

  // ------------------------------------------------------------------
  // Closing.

  /** A movement changes what its own session is expected to hold, by its amount and only if it is CASH; the difference is told as counted less expected. */
  lemma {:induction false} MovementMovesTheClosing(t: Tables, m: CashMove, id: Id, actual: Money)
    requires id < |t.till.sessions| && t.till.sessions[id].status.Open?
    ensures var before, after := CloseSpec(t, id, actual).0, CloseSpec(t.(till := t.till.(moves := t.till.moves + [m])), id, actual).0;
            && before.Ok? && after.Ok? && before.value.Closed? && after.value.Closed?
            && after.value.expected == before.value.expected
                 + (if m.session == Some(id) && m.means == Cash then (if m.direction == Inward then m.amount else -m.amount) else 0)
            && after.value.actual == actual && after.value.variance == actual - after.value.expected
  {
    assert (t.till.moves + [m])[..|t.till.moves|] == t.till.moves;
  }

  /** Without movements a session is expected to hold what it was opened with. */
  lemma {:induction false} QuietSessionClosesAsOpened(t: Tables, id: Id, actual: Money)
    requires id < |t.till.sessions| && t.till.sessions[id].status.Open?
    requires forall k | 0 <= k < |t.till.moves| :: t.till.moves[k].session != Some(id)
    ensures CloseSpec(t, id, actual).0 == Ok(Closed(t.till.sessions[id].opening, actual, actual - t.till.sessions[id].opening))
  {
    NothingIn(t.till.moves, id);
  }

  lemma {:induction false} NothingIn(moves: seq<CashMove>, id: Id)
    requires forall k | 0 <= k < |moves| :: moves[k].session != Some(id)
    ensures CashNet(moves, id) == 0
  {
    if moves != [] {
      NothingIn(moves[..|moves| - 1], id);
    }
  }

  /** Only an open session can be closed, and only its row changes. */
  lemma {:induction false} ClosingTouchesOneSession(t: Tables, id: Id, actual: Money)
    ensures var (r, after) := CloseSpec(t, id, actual);
            && (id >= |t.till.sessions| ==> r == Err(NotFound))
            && (id < |t.till.sessions| && t.till.sessions[id].status.Closed? ==> r == Err(BadRequest))
            && (r.Err? ==> after == t)
            && (id < |t.till.sessions| && t.till.sessions[id].status.Open? ==>
                  r == Ok(after.till.sessions[id].status)
                  && after == t.(till := t.till.(sessions := t.till.sessions[id := t.till.sessions[id].(status := after.till.sessions[id].status)]))
                  && r.value == Closed(t.till.sessions[id].opening + Sum(t.till.moves, CashIn(id)) - Sum(t.till.moves, CashOut(id)), actual, r.value.variance)
                  && r.value.expected + r.value.variance == actual)
  {
    CashNetIsInLessOut(t.till.moves, id);
  }

  // ------------------------------------------------------------------
  // Opening, and movements by hand.

  predicate NoneOpen(till: Till, branch: Id) {
    forall id | 0 <= id < |till.sessions| && till.sessions[id].branch == branch :: till.sessions[id].status.Closed?
  }

  /** A session opens exactly when its branch exists and has none open, with the float it is given. */
  lemma {:induction false} OpeningStartsASession(t: Tables, branch: Id, opening: Money)
    ensures var (r, after) := OpenSpec(t, branch, opening);
            && (r.Ok? <==> NoneOpen(t.till, branch) && branch in t.branches && opening >= 0)
            && (r.Err? ==> r.failure == if !NoneOpen(t.till, branch) then BadRequest else if branch !in t.branches then ForeignKeyViolation else CheckViolation)
            && (r.Ok? ==> r.value == |t.till.sessions|
                          && after == t.(till := t.till.(sessions := t.till.sessions + [Session(branch, opening, Open)])))
            && (r.Err? ==> after == t)
  {
    OpenSessionIsOpen(t.till.sessions, branch);
  }

  /** The session a movement of the branch joins: an open one, and none only if there is none. */
  predicate JoinsBranch(till: Till, session: Option<Id>, branch: Id) {
    if session.Some? then
      session.value < |till.sessions| && till.sessions[session.value].branch == branch && till.sessions[session.value].status.Open?
    else NoneOpen(till, branch)
  }

  /** A movement by hand is booked as it was entered, exactly when its branch exists and its amount is positive. */
  lemma {:induction false} MovementIsBookedAsEntered(t: Tables, branch: Id, kind: CashKind, direction: Direction, amount: Money, means: Method, reference: Ref)
    ensures var (r, after) := RecordSpec(t, branch, kind, direction, amount, means, reference);
            && (r.Ok? <==> branch in t.branches && amount > 0)
            && (r.Err? ==> r.failure == if branch !in t.branches then ForeignKeyViolation else CheckViolation)
            && (r.Ok? ==> JoinsBranch(t.till, r.value.session, branch)
                          && r.value == CashMove(r.value.session, branch, kind, direction, amount, means, reference)
                          && after == t.(till := t.till.(moves := t.till.moves + [r.value])))
            && (r.Err? ==> after == t)
  {
    OpenSessionIsOpen(t.till.sessions, branch);
  }

  // ------------------------------------------------------------------
  // Expenses.

  /** An expense is booked exactly when it is positive, has a known branch and, in CASH, an open session, which pays it. */
  lemma {:induction false} ExpenseIsPaid(t: Tables, branch: Option<Id>, amount: Money, means: Method)
    ensures var (r, after) := ExpenseSpec(t, branch, amount, means);
            && (r.Ok? <==> amount > 0 && branch.Some? && branch.value in t.branches && (means == Cash ==> !NoneOpen(t.till, branch.value)))
            && (r.Err? ==>
                  && after == t
                  && r.failure == if amount <= 0 then BadRequest else if branch == None then NotNullViolation
                                  else if branch.value !in t.branches then ForeignKeyViolation else Unprocessable)
            && (r.Ok? ==>
                  && r.value == |t.expenses|
                  && after == t.(expenses := t.expenses + [Expense(branch.value, amount, means, Completed)], till := after.till)
                  && if means == Cash then MovedInOpenSession(t.till, after.till, branch.value, ExpenseMove, Outward, amount, ExpenseRef(r.value))
                     else after.till == t.till)
  {
    if branch.Some? {
      OpenSessionIsOpen(t.till.sessions, branch.value);
    }
  }

  /** A standing expense is cancelled, and its CASH comes back into an open session of its branch or the cancellation is refused. */
  lemma {:induction false} CancelledExpenseComesBack(t: Tables, id: Id)
    ensures var (r, after) := CancelSpec(t, id);
            && (r.Ok? <==> id < |t.expenses| && t.expenses[id].status == Completed && (t.expenses[id].means == Cash ==> !NoneOpen(t.till, t.expenses[id].branch)))
            && (r.Err? ==>
                  && after == t
                  && r.failure == if id >= |t.expenses| then NotFound else if t.expenses[id].status == Cancelled then Conflict else Unprocessable)
            && (r.Ok? ==>
                  && r.value == t.expenses[id].(status := Cancelled)
                  && after == t.(expenses := t.expenses[id := r.value], till := after.till)
                  && if t.expenses[id].means == Cash
                     then MovedInOpenSession(t.till, after.till, t.expenses[id].branch, ExpenseMove, Inward, t.expenses[id].amount, ExpenseRef(id))
                     else after.till == t.till)
  {
    if id < |t.expenses| {
      OpenSessionIsOpen(t.till.sessions, t.expenses[id].branch);
    }
  }

  // ------------------------------------------------------------------
  // Customer payments.

  /** A payment is one PAYMENT credit on the customer's account and, in CASH, one movement into an open session of the branch. */
  lemma {:induction false} PaymentIsCreditedAndBanked(t: Tables, dated: bool, customer: Id, amount: Money, means: Method, branch: Option<Id>)
    ensures var (r, after) := PaymentSpec(t, dated, customer, amount, means, branch);
            && (r.Err? ==>
                  && after == t
                  && r.failure == if amount <= 0 then BadRequest else if customer !in t.customers then NotFound
                                  else if branch.Some? && !dated then ServerError else BadRequest)
            && (r.Ok? ==>
                  && after == t.(ledger := after.ledger, till := after.till)
                  && after.ledger == t.ledger + [LedgerEntry(customer, PaymentRef(|t.ledger|), PaymentEntry, 0, amount, Balance(t.ledger, customer) - amount)]
                  && if means == Cash then branch.Some? && MovedInOpenSession(t.till, after.till, branch.value, CustomerPayment, Inward, amount, PaymentRef(|t.ledger|))
                     else after.till == t.till)
  {
    if branch.Some? {
      OpenSessionIsOpen(t.till.sessions, branch.value);
    }
  }

  /** SUM(debit) - SUM(credit), as two sums. */
  lemma {:induction false} BalanceIsDebitsLessCredits(ledger: seq<LedgerEntry>, customer: Id)
    ensures Balance(ledger, customer)
         == Sum(ledger, (e: LedgerEntry) => if e.customer == customer then e.debit else 0)
          - Sum(ledger, (e: LedgerEntry) => if e.customer == customer then e.credit else 0)
  {
    if ledger != [] {
      BalanceIsDebitsLessCredits(ledger[..|ledger| - 1], customer);
    }
  }
}
