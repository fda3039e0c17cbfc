/** Cash sessions, cash movements and expenses. */
module CashDesk {
  import opened Wrappers
  import opened Sums
  import opened Tables

  // ------------------------------------------------------------------
  // Reading the till.

  /** The branch's OPEN session, the latest one first. */
  function OpenSessionAt(sessions: seq<Session>, branch: Id): Option<Id> {
    if sessions == [] then None
    else
      var n := |sessions| - 1;
      if sessions[n].branch == branch && sessions[n].status.Open? then Some(n) else OpenSessionAt(sessions[..n], branch)
  }

  lemma {:induction false} OpenSessionIsOpen(sessions: seq<Session>, branch: Id)
    ensures match OpenSessionAt(sessions, branch)
            case Some(id) => id < |sessions| && sessions[id].branch == branch && sessions[id].status.Open?
            case None => forall id | 0 <= id < |sessions| && sessions[id].branch == branch :: !sessions[id].status.Open?
  {
    if sessions != [] {
      OpenSessionIsOpen(sessions[..|sessions| - 1], branch);
    }
  }

  function Signed(m: CashMove): int { if m.direction.Inward? then m.amount else -m.amount }

  /** CASH in minus CASH out of one session: what the closing formula sums. */
  function CashNet(moves: seq<CashMove>, session: Id): int {
    if moves == [] then 0
    else
      var m := moves[|moves| - 1];
      CashNet(moves[..|moves| - 1], session) + (if m.session == Some(session) && m.means.Cash? then Signed(m) else 0)
  }

  /** CASH that came into a session, and that went out of it. */
  function CashIn(session: Id): CashMove -> Money {
    (m: CashMove) => if m.session == Some(session) && m.means == Cash && m.direction == Inward then m.amount else 0
  }
  function CashOut(session: Id): CashMove -> Money {
    (m: CashMove) => if m.session == Some(session) && m.means == Cash && m.direction == Outward then m.amount else 0
  }

  lemma {:induction false} CashNetIsInLessOut(moves: seq<CashMove>, session: Id)
    ensures CashNet(moves, session) == Sum(moves, CashIn(session)) - Sum(moves, CashOut(session))
  {
    if moves != [] {
      CashNetIsInLessOut(moves[..|moves| - 1], session);
    }
  }

  /** One movement more, in an open session of the branch. */
  ghost predicate MovedInOpenSession(before: Till, after: Till, branch: Id, kind: CashKind, direction: Direction, amount: Money, reference: Ref) {
    exists session :: 0 <= session < |before.sessions|
      && before.sessions[session].status.Open? && before.sessions[session].branch == branch
      && after == before.(moves := before.moves + [CashMove(Some(session), branch, kind, direction, amount, Cash, reference)])
  }

  // ------------------------------------------------------------------
  // The invariant of sessions and movements.

  predicate AtMostOneOpen(sessions: seq<Session>) {
    forall i, j | 0 <= i < j < |sessions| && sessions[i].status.Open? && sessions[j].status.Open? ::
      sessions[i].branch != sessions[j].branch
  }

  predicate MovesBelong(till: Till) {
    forall k | 0 <= k < |till.moves| ::
      && till.moves[k].amount > 0
      && (till.moves[k].session.Some? ==>
            till.moves[k].session.value < |till.sessions| && till.sessions[till.moves[k].session.value].branch == till.moves[k].branch)
  }

  /** A closed session's stored figures are the formula over the movements it has. */
  predicate ClosedFiguresHold(till: Till) {
    forall id | 0 <= id < |till.sessions| && till.sessions[id].status.Closed? ::
      && till.sessions[id].status.expected == till.sessions[id].opening + CashNet(till.moves, id)
      && till.sessions[id].status.variance == till.sessions[id].status.actual - till.sessions[id].status.expected
  }

  predicate TillInvariant(till: Till) {
    AtMostOneOpen(till.sessions) && MovesBelong(till) && ClosedFiguresHold(till)
  }

  /** Closed sessions of before are untouched in after, and no movement has joined them. */
  ghost predicate ClosedStayFinal(before: Till, after: Till) {
    && before.moves <= after.moves
    && forall id | 0 <= id < |before.sessions| && before.sessions[id].status.Closed? ::
         && id < |after.sessions| && after.sessions[id] == before.sessions[id]
         && CashNet(after.moves, id) == CashNet(before.moves, id)
         && NoneJoins(before.moves, after.moves, id)
  }

  /** No movement added since belongs to the session, whatever its payment method. */
  predicate NoneJoins(before: seq<CashMove>, after: seq<CashMove>, id: Id) {
    forall k | |before| <= k < |after| :: after[k].session != Some(id)
  }

  lemma {:induction false} FinalIsTransitive(a: Till, b: Till, c: Till)
    requires ClosedStayFinal(a, b) && ClosedStayFinal(b, c)
    ensures ClosedStayFinal(a, c)
  {
    forall id | 0 <= id < |a.sessions| && a.sessions[id].status.Closed? ensures NoneJoins(a.moves, c.moves, id) {
      forall k | |a.moves| <= k < |c.moves| ensures c.moves[k].session != Some(id) {
        if k < |b.moves| {
          assert c.moves[k] == b.moves[k];
        } else {
          assert NoneJoins(b.moves, c.moves, id);
        }
      }
    }
  }

  /** A movement may be recorded for a branch outside any session, or in its open session. */
  predicate MayRecord(till: Till, m: CashMove) {
    && m.amount > 0
    && (m.session.Some? ==>
          && m.session.value < |till.sessions|
          && till.sessions[m.session.value].status.Open? && till.sessions[m.session.value].branch == m.branch)
  }

  function Record(till: Till, m: CashMove): Till { till.(moves := till.moves + [m]) }

  lemma {:induction false} RecordKeepsTill(till: Till, m: CashMove)
    requires TillInvariant(till) && MayRecord(till, m)
    ensures TillInvariant(Record(till, m)) && ClosedStayFinal(till, Record(till, m))
  {
    var after := Record(till, m);
    assert after.moves[..|till.moves|] == till.moves;
    forall id | 0 <= id < |till.sessions| && till.sessions[id].status.Closed?
      ensures CashNet(after.moves, id) == CashNet(till.moves, id)
    {
      assert m.session != Some(id);
    }
  }

  // ------------------------------------------------------------------
  // Sessions.

  function OpenSpec(t: Tables, branch: Id, opening: Money): (Result<Id>, Tables) {
    if OpenSessionAt(t.till.sessions, branch).Some? then (Err(BadRequest), t)
    else if branch !in t.branches then (Err(ForeignKeyViolation), t)
    else if opening < 0 then (Err(CheckViolation), t)
    else (Ok(|t.till.sessions|), t.(till := t.till.(sessions := t.till.sessions + [Session(branch, opening, Open)])))
  }

  method OpenCashSession(db: Database, branch: Id, opening: Money) returns (r: Result<Id>)
    modifies db
    ensures (r, db.Contents()) == OpenSpec(old(db.Contents()), branch, opening)
  {
    var existing := OpenSessionAt(db.till.sessions, branch);
    if existing.Some? {
      return Err(BadRequest);
    }
    if branch !in db.branches {
      return Err(ForeignKeyViolation);
    }
    if opening < 0 {
      return Err(CheckViolation);
    }
    var id := |db.till.sessions|;
    db.till := db.till.(sessions := db.till.sessions + [Session(branch, opening, Open)]);
    return Ok(id);
  }

  function CloseSpec(t: Tables, id: Id, actual: Money): (Result<SessionStatus>, Tables) {
    if id >= |t.till.sessions| then (Err(NotFound), t)
    else
      var session := t.till.sessions[id];
      if session.status.Closed? then (Err(BadRequest), t)
      else
        var expected := session.opening + CashNet(t.till.moves, id);
        var closed := Closed(expected, actual, actual - expected);
        (Ok(closed), t.(till := t.till.(sessions := t.till.sessions[id := session.(status := closed)])))
  }

  /** SUM of IN and SUM of OUT over a session's CASH movements. */
  method SumSession(moves: seq<CashMove>, id: Id) returns (totalIn: int, totalOut: int)
    ensures totalIn == Sum(moves, CashIn(id)) && totalOut == Sum(moves, CashOut(id))
  {
    totalIn, totalOut := 0, 0;
    for k := 0 to |moves|
      invariant totalIn == Sum(moves[..k], CashIn(id)) && totalOut == Sum(moves[..k], CashOut(id))
    {
      assert moves[..k + 1][..k] == moves[..k];
      if moves[k].session == Some(id) && moves[k].means.Cash? {
        if moves[k].direction.Inward? {
          totalIn := totalIn + moves[k].amount;
        } else {
          totalOut := totalOut + moves[k].amount;
        }
      }
    }
    assert moves[..|moves|] == moves;
  }

  method CloseCashSession(db: Database, id: Id, actual: Money) returns (r: Result<SessionStatus>)
    modifies db
    ensures (r, db.Contents()) == CloseSpec(old(db.Contents()), id, actual)
  {
    if id >= |db.till.sessions| {
      return Err(NotFound);
    }
    var session := db.till.sessions[id];
    if session.status.Closed? {
      return Err(BadRequest);
    }
    var totalIn, totalOut := SumSession(db.till.moves, id);
    CashNetIsInLessOut(db.till.moves, id);
    var expected := session.opening + totalIn - totalOut;
    var closed := Closed(expected, actual, actual - expected);
    db.till := db.till.(sessions := db.till.sessions[id := session.(status := closed)]);
    return Ok(closed);
  }

  /** A movement entered by hand joins the branch's open session when there is one. */
  function RecordSpec(t: Tables, branch: Id, kind: CashKind, direction: Direction, amount: Money, means: Method, reference: Ref): (Result<CashMove>, Tables) {
    var move := CashMove(OpenSessionAt(t.till.sessions, branch), branch, kind, direction, amount, means, reference);
    if branch !in t.branches then (Err(ForeignKeyViolation), t)
    else if amount <= 0 then (Err(CheckViolation), t)
    else (Ok(move), t.(till := Record(t.till, move)))
  }

  method RecordCashMovement(db: Database, branch: Id, kind: CashKind, direction: Direction, amount: Money, means: Method, reference: Ref)
    returns (r: Result<CashMove>)
    modifies db
    ensures (r, db.Contents()) == RecordSpec(old(db.Contents()), branch, kind, direction, amount, means, reference)
  {
    var session := OpenSessionAt(db.till.sessions, branch);
    if branch !in db.branches {
      return Err(ForeignKeyViolation);
    }
    if amount <= 0 {
      return Err(CheckViolation);
    }
    var move := CashMove(session, branch, kind, direction, amount, means, reference);
    ghost var begin := db.Contents();
    db.till := db.till.(moves := db.till.moves + [move]);
    assert db.Contents() == begin.(till := Record(begin.till, move));
    r := Ok(move);
    assert RecordSpec(begin, branch, kind, direction, amount, means, reference) == (r, db.Contents());
  }

  lemma {:induction false} OpenKeepsTill(t: Tables, branch: Id, opening: Money)
    requires TillInvariant(t.till)
    ensures TillInvariant(OpenSpec(t, branch, opening).1.till) && ClosedStayFinal(t.till, OpenSpec(t, branch, opening).1.till)
  {
    OpenSessionIsOpen(t.till.sessions, branch);
  }

  lemma {:induction false} CloseKeepsTill(t: Tables, id: Id, actual: Money)
    requires TillInvariant(t.till)
    ensures TillInvariant(CloseSpec(t, id, actual).1.till) && ClosedStayFinal(t.till, CloseSpec(t, id, actual).1.till)
  {}

  lemma {:induction false} RecordSpecKeepsTill(t: Tables, branch: Id, kind: CashKind, direction: Direction, amount: Money, means: Method, reference: Ref)
    requires TillInvariant(t.till)
    ensures var after := RecordSpec(t, branch, kind, direction, amount, means, reference).1;
            TillInvariant(after.till) && ClosedStayFinal(t.till, after.till)
  {
    OpenSessionIsOpen(t.till.sessions, branch);
    if amount > 0 {
      RecordKeepsTill(t.till, CashMove(OpenSessionAt(t.till.sessions, branch), branch, kind, direction, amount, means, reference));
    }
  }

  // ------------------------------------------------------------------
  // Expenses.

  function ExpenseMoveOf(session: Id, id: Id, e: Expense, direction: Direction): CashMove {
    CashMove(Some(session), e.branch, ExpenseMove, direction, e.amount, Cash, ExpenseRef(id))
  }

  function ExpenseSpec(t: Tables, branch: Option<Id>, amount: Money, means: Method): (Result<Id>, Tables) {
    if amount <= 0 then (Err(BadRequest), t)
    else if branch == None then (Err(NotNullViolation), t)
    else if branch.value !in t.branches then (Err(ForeignKeyViolation), t)
    else
      var id, e := |t.expenses|, Expense(branch.value, amount, means, Completed);
      var spent := t.(expenses := t.expenses + [e]);
      if !means.Cash? then (Ok(id), spent)
      else
        match OpenSessionAt(t.till.sessions, branch.value)
        case None => (Err(Unprocessable), t)
        case Some(session) => (Ok(id), spent.(till := Record(t.till, ExpenseMoveOf(session, id, e, Outward))))
  }

  method CreateExpense(db: Database, branch: Option<Id>, amount: Money, means: Method) returns (r: Result<Id>)
    modifies db
    ensures (r, db.Contents()) == ExpenseSpec(old(db.Contents()), branch, amount, means)
  {
    if amount <= 0 {
      return Err(BadRequest);
    }
    var begin := db.Contents();
    if branch.None? {
      return Err(NotNullViolation);
    }
    if branch.value !in db.branches {
      return Err(ForeignKeyViolation);
    }
    var id := |db.expenses|;
    db.expenses := db.expenses + [Expense(branch.value, amount, means, Completed)];
    if means.Cash? {
      var session := OpenSessionAt(db.till.sessions, branch.value);
      if session.None? {
        db.Rollback(begin);
        assert db.Contents() == begin;
        return Err(Unprocessable);
      }
      db.till := db.till.(moves := db.till.moves + [CashMove(session, branch.value, ExpenseMove, Outward, amount, Cash, ExpenseRef(id))]);
    }
    return Ok(id);
  }

  function CancelSpec(t: Tables, id: Id): (Result<Expense>, Tables) {
    if id >= |t.expenses| then (Err(NotFound), t)
    else
      var e := t.expenses[id];
      var cancelled := e.(status := Cancelled);
      var marked := t.(expenses := t.expenses[id := cancelled]);
      if e.status.Cancelled? then (Err(Conflict), t)
      else if !e.means.Cash? then (Ok(cancelled), marked)
      else
        match OpenSessionAt(t.till.sessions, e.branch)
        case None => (Err(Unprocessable), t)
        case Some(session) => (Ok(cancelled), marked.(till := Record(t.till, ExpenseMoveOf(session, id, e, Inward))))
  }

  method CancelExpense(db: Database, id: Id) returns (r: Result<Expense>)
    modifies db
    ensures (r, db.Contents()) == CancelSpec(old(db.Contents()), id)
  {
    var begin := db.Contents();
    if id >= |db.expenses| {
      return Err(NotFound);
    }
    var existing := db.expenses[id];
    if existing.status.Cancelled? {
      return Err(Conflict);
    }
    var cancelled := existing.(status := Cancelled);
    db.expenses := db.expenses[id := cancelled];
    if existing.means.Cash? {
      var session := OpenSessionAt(db.till.sessions, existing.branch);
      if session.None? {
        db.Rollback(begin);
        assert db.Contents() == begin;
        return Err(Unprocessable);
      }
      db.till := db.till.(moves := db.till.moves + [CashMove(session, existing.branch, ExpenseMove, Inward, existing.amount, Cash, ExpenseRef(id))]);
    }
    return Ok(cancelled);
  }

  predicate ForExpense(m: CashMove, id: Id) { m.kind.ExpenseMove? && m.reference == ExpenseRef(id) }

  /** What the cash movements say an expense has cost, with its sign. */
  function ExpenseNet(moves: seq<CashMove>, id: Id): int {
    if moves == [] then 0
    else
      var m := moves[|moves| - 1];
      ExpenseNet(moves[..|moves| - 1], id) + (if ForExpense(m, id) then Signed(m) else 0)
  }

  function ExpectedNet(e: Expense): int {
    if e.means.Cash? && e.status.Completed? then -e.amount else 0
  }

  /** A CASH expense nets to minus its amount while it stands and to nothing once cancelled. */
  ghost predicate ExpensesNet(expenses: seq<Expense>, moves: seq<CashMove>) {
    && (forall id | 0 <= id < |expenses| :: ExpenseNet(moves, id) == ExpectedNet(expenses[id]))
    && (forall id | id >= |expenses| :: ExpenseNet(moves, id) == 0)
  }

  lemma {:induction false} ExpenseNetSnoc(moves: seq<CashMove>, m: CashMove, id: Id)
    ensures ExpenseNet(moves + [m], id) == ExpenseNet(moves, id) + (if ForExpense(m, id) then Signed(m) else 0)
  {
    assert (moves + [m])[..|moves|] == moves;
  }

  lemma {:induction false} ExpenseKeepsNet(t: Tables, branch: Option<Id>, amount: Money, means: Method)
    requires ExpensesNet(t.expenses, t.till.moves)
    ensures var after := ExpenseSpec(t, branch, amount, means).1; ExpensesNet(after.expenses, after.till.moves)
  {
    var after := ExpenseSpec(t, branch, amount, means).1;
    if |after.till.moves| > |t.till.moves| {
      forall id: Id { ExpenseNetSnoc(t.till.moves, after.till.moves[|t.till.moves|], id); }
    }
  }

  lemma {:induction false} CancelKeepsNet(t: Tables, id: Id)
    requires ExpensesNet(t.expenses, t.till.moves)
    ensures var after := CancelSpec(t, id).1; ExpensesNet(after.expenses, after.till.moves)
  {
    var after := CancelSpec(t, id).1;
    if |after.till.moves| > |t.till.moves| {
      forall e: Id { ExpenseNetSnoc(t.till.moves, after.till.moves[|t.till.moves|], e); }
    }
  }

  /** Any other movement keeps the account of expenses exactly when it is not an EXPENSE movement naming an expense. */
  lemma {:induction false} OtherMovesKeepNetIff(expenses: seq<Expense>, moves: seq<CashMove>, m: CashMove)
    requires ExpensesNet(expenses, moves) && m.amount > 0
    ensures ExpensesNet(expenses, moves + [m]) <==> !(m.kind.ExpenseMove? && m.reference.ExpenseRef?)
  {
    forall id: Id { ExpenseNetSnoc(moves, m, id); }
    if m.kind.ExpenseMove? && m.reference.ExpenseRef? {
      var id := m.reference.expense;
      assert ExpenseNet(moves + [m], id) != ExpenseNet(moves, id);
    }
  }

  /** An expense's movement in its branch's open session leaves every closed session final. */
  lemma {:induction false} ExpenseMoveKeepsTill(till: Till, session: Id, id: Id, e: Expense, direction: Direction)
    requires TillInvariant(till) && OpenSessionAt(till.sessions, e.branch) == Some(session) && e.amount > 0
    ensures var after := Record(till, ExpenseMoveOf(session, id, e, direction)); TillInvariant(after) && ClosedStayFinal(till, after)
  {
    OpenSessionIsOpen(till.sessions, e.branch);
    RecordKeepsTill(till, ExpenseMoveOf(session, id, e, direction));
  }

  lemma {:induction false} ExpenseKeepsTill(t: Tables, branch: Option<Id>, amount: Money, means: Method)
    requires TillInvariant(t.till)
    ensures var after := ExpenseSpec(t, branch, amount, means).1; TillInvariant(after.till) && ClosedStayFinal(t.till, after.till)
  {
    if amount > 0 && branch.Some? {
      match OpenSessionAt(t.till.sessions, branch.value)
      case None =>
      case Some(session) =>
        ExpenseMoveKeepsTill(t.till, session, |t.expenses|, Expense(branch.value, amount, means, Completed), Outward);
    }
  }

  lemma {:induction false} CancelledTill(t: Tables, id: Id)
    requires CancelSpec(t, id).1.till != t.till
    ensures id < |t.expenses| && OpenSessionAt(t.till.sessions, t.expenses[id].branch).Some?
    ensures CancelSpec(t, id).1.till
         == Record(t.till, ExpenseMoveOf(OpenSessionAt(t.till.sessions, t.expenses[id].branch).value, id, t.expenses[id], Inward))
  {}

  lemma {:induction false} CancelKeepsTill(t: Tables, id: Id)
    requires TillInvariant(t.till) && forall e | 0 <= e < |t.expenses| :: t.expenses[e].amount > 0
    ensures var after := CancelSpec(t, id).1; TillInvariant(after.till) && ClosedStayFinal(t.till, after.till)
  {
    if CancelSpec(t, id).1.till != t.till {
      CancelledTill(t, id);
      ExpenseMoveKeepsTill(t.till, OpenSessionAt(t.till.sessions, t.expenses[id].branch).value, id, t.expenses[id], Inward);
    }
  }
}
