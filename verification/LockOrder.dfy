/**
 * Row and advisory locks of concurrent transactions, and why sales and transfers never deadlock.
 * UUIDs and hashes are numbers here: one total order, as PostgreSQL and the sorts both see it.
 */
module LockOrder {
  import opened Wrappers

  type Id = nat

  // The classes follow the order in which a checkout reaches them.
  const ADVISORY: nat := 0
  const SALE_ROW: nat := 1
  const CUSTOMER: nat := 2
  const STOCK: nat := 3
  const RETURN_COUNTER: nat := 4
  const INVOICE_COUNTER: nat := 5
  const USER_COUNTER: nat := 6
  const UNIQUE_KEY: nat := 7

  datatype Lock = Lock(kind: nat, major: Id, minor: Id)

  datatype Claim = Claim(lock: Lock, mode: Mode)

  predicate Before(a: Lock, b: Lock) {
    || a.kind < b.kind
    || (a.kind == b.kind && a.major < b.major)
    || (a.kind == b.kind && a.major == b.major && a.minor < b.minor)
  }

  predicate Ascending(plan: seq<Claim>) {
    forall i, j | 0 <= i < j < |plan| :: Before(plan[i].lock, plan[j].lock)
  }

  // ------------------------------------------------------------------
  // Transactions acquire the locks of their plan one by one and release all of them at the end.

  datatype Txn = Txn(plan: seq<Claim>, held: nat, done: bool)

  type System = seq<Txn>

  datatype Event = Begin(plan: seq<Claim>) | Acquire(i: nat) | Commit(i: nat) | Abort(i: nat)

  predicate Holds(t: Txn, l: Lock, mode: Mode) {
    !t.done && exists k :: 0 <= k < t.held && k < |t.plan| && t.plan[k] == Claim(l, mode)
  }

  /** Shared locks (the FOR KEY SHARE of a foreign key) are compatible with each other only. */
  predicate Blocks(t: Txn, c: Claim) {
    Holds(t, c.lock, Exclusive) || (c.mode == Exclusive && Holds(t, c.lock, Shared))
  }

  predicate CanAcquire(s: System, i: nat) {
    && i < |s| && !s[i].done && s[i].held < |s[i].plan|
    && forall j | 0 <= j < |s| && j != i :: !Blocks(s[j], s[i].plan[s[i].held])
  }

  predicate CanCommit(s: System, i: nat) {
    i < |s| && !s[i].done && s[i].held == |s[i].plan|
  }

  predicate Enabled(s: System, e: Event) {
    match e
    case Begin(_) => true
    case Acquire(i) => CanAcquire(s, i)
    case Commit(i) => CanCommit(s, i)
    case Abort(i) => i < |s| && !s[i].done
  }

  function Next(s: System, e: Event): System
    requires Enabled(s, e)
  {
    match e
    case Begin(plan) => s + [Txn(plan, 0, false)]
    case Acquire(i) => s[i := s[i].(held := s[i].held + 1)]
    case Commit(i) => s[i := s[i].(done := true)]
    case Abort(i) => s[i := s[i].(done := true)]
  }

  /** The system a sequence of events leads to, if every event is enabled in turn. */
  function Run(events: seq<Event>): Option<System> {
    if events == [] then Some([])
    else
      var before := Run(events[..|events| - 1]);
      var e := events[|events| - 1];
      if before.Some? && Enabled(before.value, e) then Some(Next(before.value, e)) else None
  }

  predicate Reaches(events: seq<Event>, s: System) { Run(events) == Some(s) }

  ghost predicate PlansAscend(events: seq<Event>) {
    forall k | 0 <= k < |events| && events[k].Begin? :: Ascending(events[k].plan)
  }

  /** A lock held by two transactions is held shared by both. */
  ghost predicate LocksExclude(s: System) {
    forall i, j, l, m | 0 <= i < |s| && 0 <= j < |s| && i != j && Holds(s[i], l, Exclusive) :: !Holds(s[j], l, m)
  }

  predicate WellFormed(s: System) {
    forall i | 0 <= i < |s| :: s[i].held <= |s[i].plan| && Ascending(s[i].plan)
  }

  lemma {:induction false} ReachableIsWellFormed(events: seq<Event>, s: System)
    requires Reaches(events, s) && PlansAscend(events)
    ensures WellFormed(s)
  {
    if events != [] {
      var e := events[|events| - 1];
      var s0 := Run(events[..|events| - 1]).value;
      ReachableIsWellFormed(events[..|events| - 1], s0);
    }
  }

  /** Acquiring adds exactly the wanted lock to what a transaction holds. */
  lemma {:induction false} HoldsAfterAcquire(t: Txn, l: Lock, mode: Mode)
    requires !t.done && t.held < |t.plan|
    ensures Holds(t.(held := t.held + 1), l, mode) <==> Holds(t, l, mode) || t.plan[t.held] == Claim(l, mode)
  {
    if t.plan[t.held] == Claim(l, mode) {
      assert t.plan[t.held] == Claim(l, mode);
    }
  }

  lemma {:induction false} ExcludedAfterAcquire(s: System, i: nat)
    requires LocksExclude(s) && CanAcquire(s, i)
    ensures LocksExclude(Next(s, Acquire(i)))
  {
    var s' := Next(s, Acquire(i));
    forall j, k, l, m | 0 <= j < |s'| && 0 <= k < |s'| && j != k && Holds(s'[j], l, Exclusive)
      ensures !Holds(s'[k], l, m)
    {
      HoldsAfterAcquire(s[i], l, Exclusive);
      HoldsAfterAcquire(s[i], l, m);
    }
  }

  /** Mutual exclusion, whatever the plans are. */
  lemma {:induction false} LocksAreExclusive(events: seq<Event>, s: System)
    requires Reaches(events, s)
    ensures LocksExclude(s)
  {
    if events != [] {
      var e := events[|events| - 1];
      var s0 := Run(events[..|events| - 1]).value;
      LocksAreExclusive(events[..|events| - 1], s0);
      if e.Acquire? {
        ExcludedAfterAcquire(s0, e.i);
      }
    }
  }

  /** Among waiting transactions one wants a lock that no other wanted lock follows. */
  lemma {:induction false} LastWanted(s: System, n: nat) returns (i: nat)
    requires n <= |s|
    requires exists k :: 0 <= k < n && !s[k].done
    requires forall k | 0 <= k < n && !s[k].done :: s[k].held < |s[k].plan|
    ensures i < n && !s[i].done
    ensures forall k | 0 <= k < n && !s[k].done :: !Before(s[i].plan[s[i].held].lock, s[k].plan[s[k].held].lock)
  {
    if exists k :: 0 <= k < n - 1 && !s[k].done {
      i := LastWanted(s, n - 1);
      if !s[n - 1].done && Before(s[i].plan[s[i].held].lock, s[n - 1].plan[s[n - 1].held].lock) {
        i := n - 1;
      }
    } else {
      i := n - 1;
    }
  }

  /** What an ascending plan already holds comes before what it wants. */
  lemma {:induction false} HoldsOnlyEarlier(t: Txn, l: Lock)
    requires Ascending(t.plan) && t.held < |t.plan| && !Before(l, t.plan[t.held].lock)
    ensures forall mode :: !Holds(t, l, mode)
  {
    forall k | 0 <= k < t.held
      ensures t.plan[k].lock != l
    {
      assert Before(t.plan[k].lock, t.plan[t.held].lock);
    }
  }

  /**
   * Deadlock freedom: whenever every plan ascends and a transaction is unfinished, some
   * transaction can take its next lock or commit. Aborting does not count as progress.
   */
  lemma {:induction false} SomeoneCanStep(events: seq<Event>, s: System)
    requires Reaches(events, s) && PlansAscend(events)
    requires exists i :: 0 <= i < |s| && !s[i].done
    ensures exists i: nat :: CanAcquire(s, i) || CanCommit(s, i)
  {
    ReachableIsWellFormed(events, s);
    if forall k | 0 <= k < |s| && !s[k].done :: s[k].held < |s[k].plan| {
      var i := LastWanted(s, |s|);
      var c := s[i].plan[s[i].held];
      forall j | 0 <= j < |s| && j != i
        ensures !Blocks(s[j], c)
      {
        if !s[j].done {
          HoldsOnlyEarlier(s[j], c.lock);
        }
      }
      assert CanAcquire(s, i);
    } else {
      var k :| 0 <= k < |s| && !s[k].done && s[k].held == |s[k].plan|;
      assert CanCommit(s, k);
    }
  }

  // ------------------------------------------------------------------
  // The plans of the repository's transactions.

  /** Distinct elements in first-occurrence order: the key order of a JavaScript Map. */
  function Distinct(xs: seq<Id>): (r: seq<Id>)
    ensures forall x :: x in r <==> x in xs
    ensures forall i, j | 0 <= i < j < |r| :: r[i] != r[j]
  {
    if xs == [] then []
    else
      var rest := Distinct(xs[..|xs| - 1]);
      var x := xs[|xs| - 1];
      assert xs == xs[..|xs| - 1] + [x];
      if x in rest then rest else rest + [x]
  }

  predicate Increasing(xs: seq<Id>) {
    forall i, j | 0 <= i < j < |xs| :: xs[i] < xs[j]
  }

  function Insert(x: Id, xs: seq<Id>): (r: seq<Id>)
    requires Increasing(xs)
    ensures Increasing(r)
    ensures forall y :: y in r <==> y == x || y in xs
  {
    if xs == [] then [x]
    else if x < xs[0] then [x] + xs
    else if x == xs[0] then xs
    else
      var r := Insert(x, xs[1..]);
      assert xs == [xs[0]] + xs[1..];
      assert forall y | y in r :: xs[0] < y by {
        forall y | y in r ensures xs[0] < y {
          if y != x {
            var k :| 0 <= k < |xs[1..]| && xs[1..][k] == y;
            assert xs[k + 1] == y;
          }
        }
      }
      assert forall k | 0 <= k < |r| :: r[k] in r;
      [xs[0]] + r
  }

  /** The distinct product ids of a request, sorted. */
  function Sorted(xs: seq<Id>): (r: seq<Id>)
    ensures Increasing(r)
    ensures forall y :: y in r <==> y in xs
  {
    if xs == [] then []
    else
      assert xs == [xs[0]] + xs[1..];
      Insert(xs[0], Sorted(xs[1..]))
  }

  function StockLocks(branch: Id, products: seq<Id>): (r: seq<Claim>)
    ensures |r| == |products|
    ensures forall i | 0 <= i < |r| :: r[i] == Claim(Lock(STOCK, branch, products[i]), Exclusive)
  {
    seq(|products|, i requires 0 <= i < |products| => Claim(Lock(STOCK, branch, products[i]), Exclusive))
  }

  function Only(kind: nat, id: Id): seq<Claim> { [Claim(Lock(kind, id, 0), Exclusive)] }

  function Optional(kind: nat, id: Option<Id>, mode: Mode): (r: seq<Claim>)
    ensures |r| <= 1 && forall i | 0 <= i < |r| :: r[i].lock.kind == kind
  {
    if id.Some? then [Claim(Lock(kind, id.value, 0), mode)] else []
  }

  datatype Program =
    | Checkout(slot: Option<Id>, customer: Option<Id>, branch: Id, products: seq<Id>, counter: Id)
    | SingleTransfer(source: Id, destination: Id, product: Id, transferId: Id)
    | BatchTransfer(source: Id, destination: Id, products: seq<Id>, batchId: Id)
    | Swap(swapSlot: Id, sale: Id, customer: Option<Id>, branch: Id, cart: seq<Id>, returned: seq<Id>, returnCounter: Id, invoiceCounter: Id)

  /** A keyed request locks its slot twice: by advisory lock, and by its row of the key table at the end. */
  function LockPlan(p: Program): seq<Claim> {
    match p
    case Checkout(slot, customer, branch, products, counter) =>
      Optional(ADVISORY, slot, Exclusive) + Optional(CUSTOMER, customer, Exclusive)
      + StockLocks(branch, Sorted(products)) + Only(USER_COUNTER, counter) + Optional(UNIQUE_KEY, slot, Exclusive)
    case SingleTransfer(source, destination, product, id) =>
      var first := if source < destination then source else destination;
      var second := if source < destination then destination else source;
      StockLocks(first, [product]) + StockLocks(second, [product]) + Only(UNIQUE_KEY, id)
    case BatchTransfer(source, destination, products, id) =>
      var first := if source < destination then source else destination;
      var second := if source < destination then destination else source;
      StockLocks(first, Sorted(products)) + StockLocks(second, Sorted(products)) + Only(UNIQUE_KEY, id)
    case Swap(_, _, _, _, _, _, _, _) => EarlyClaims(p) + LateClaims(p)
  }

  /** Up to its cart; the namespace of exchanges gives them advisory locks of their own. */
  function EarlyClaims(p: Program): seq<Claim>
    requires p.Swap?
  {
    Early(Claim(Lock(ADVISORY, p.swapSlot, 1), Exclusive), Claim(Lock(SALE_ROW, p.sale, 0), Exclusive), StockLocks(p.branch, Distinct(p.cart)))
  }

  /** From the counters on: the customer by the foreign key of the inserted return, other returned goods by their UPDATE. */
  function LateClaims(p: Program): seq<Claim>
    requires p.Swap?
  {
    Late(Claim(Lock(RETURN_COUNTER, p.returnCounter, 0), Exclusive), Claim(Lock(INVOICE_COUNTER, p.invoiceCounter, 0), Exclusive),
         Optional(CUSTOMER, p.customer, Shared), StockLocks(p.branch, Distinct(Without(p.returned, p.cart))), Claim(Lock(UNIQUE_KEY, p.swapSlot, 0), Exclusive))
  }

  function Early(a: Claim, b: Claim, stock: seq<Claim>): (r: seq<Claim>)
    ensures |r| == 2 + |stock| && r[0] == a && r[1] == b && forall i | 0 <= i < |stock| :: r[2 + i] == stock[i]
  {
    [a, b] + stock
  }

  function Late(a: Claim, b: Claim, customer: seq<Claim>, stock: seq<Claim>, key: Claim): (r: seq<Claim>)
    ensures |r| == 3 + |customer| + |stock| && r[0] == a && r[1] == b && r[|r| - 1] == key
    ensures r[2..2 + |customer|] == customer && r[2 + |customer|..|r| - 1] == stock
  {
    [a, b] + customer + stock + [key]
  }

  /** What is refused before its transaction begins never locks anything. */
  predicate Starts(p: Program) {
    match p
    case Checkout(_, _, _, products, _) => products != []
    case SingleTransfer(source, destination, _, _) => source != destination
    case BatchTransfer(source, destination, products, _) => source != destination && products != []
    case Swap(_, _, _, _, cart, returned, _, _) => cart != [] && returned != []
  }

  lemma {:induction false} AscendingJoin(a: seq<Claim>, b: seq<Claim>)
    requires Ascending(a) && Ascending(b)
    requires forall i, j | 0 <= i < |a| && 0 <= j < |b| :: Before(a[i].lock, b[j].lock)
    ensures Ascending(a + b)
  {}

  /** Every sale and transfer takes its locks in the one global order. */
  lemma {:induction false} PlansFollowTheGlobalOrder(p: Program)
    requires Starts(p) && !p.Swap?
    ensures Ascending(LockPlan(p))
  {
    match p
    case Checkout(slot, customer, branch, products, counter) =>
      var a, c := Optional(ADVISORY, slot, Exclusive), Optional(CUSTOMER, customer, Exclusive);
      var s := StockLocks(branch, Sorted(products));
      AscendingJoin(a, c);
      AscendingJoin(a + c, s);
      AscendingJoin(a + c + s, Only(USER_COUNTER, counter));
      AscendingJoin(a + c + s + Only(USER_COUNTER, counter), Optional(UNIQUE_KEY, slot, Exclusive));
    case SingleTransfer(source, destination, product, id) =>
    case BatchTransfer(source, destination, products, id) =>
      var first := if source < destination then source else destination;
      var second := if source < destination then destination else source;
      var s, t := StockLocks(first, Sorted(products)), StockLocks(second, Sorted(products));
      AscendingJoin(s, t);
      AscendingJoin(s + t, Only(UNIQUE_KEY, id));
    case _ =>
  }

  // ------------------------------------------------------------------
  // Exchanges lock replacement rows in cart order, and their customer and other returned rows after the counters.

  function Without(xs: seq<Id>, ys: seq<Id>): (r: seq<Id>)
    ensures forall x :: x in r <==> x in xs && x !in ys
  {
    if xs == [] then []
    else
      assert xs == [xs[0]] + xs[1..];
      (if xs[0] in ys then [] else [xs[0]]) + Without(xs[1..], ys)
  }

  /** A walk-in exchange whose cart is sorted and covers what comes back. */
  predicate InOrder(p: Program) {
    p.Swap? ==> p.customer.None? && Increasing(Distinct(p.cart)) && forall x | x in p.returned :: x in p.cart
  }

  /** Where an exchange finds its locks. */
  ghost predicate SwapShape(p: Program, plan: seq<Claim>, d: seq<Id>, c: nat, late: seq<Id>)
    requires p.Swap?
  {
    && c == (if p.customer.Some? then 1 else 0) && |plan| == |d| + 5 + c + |late|
    && plan[0] == Claim(Lock(ADVISORY, p.swapSlot, 1), Exclusive) && plan[1] == Claim(Lock(SALE_ROW, p.sale, 0), Exclusive)
    && (forall i | 0 <= i < |d| :: plan[2 + i] == Claim(Lock(STOCK, p.branch, d[i]), Exclusive))
    && plan[|d| + 2] == Claim(Lock(RETURN_COUNTER, p.returnCounter, 0), Exclusive)
    && plan[|d| + 3] == Claim(Lock(INVOICE_COUNTER, p.invoiceCounter, 0), Exclusive)
    && (c == 1 ==> plan[|d| + 4] == Claim(Lock(CUSTOMER, p.customer.value, 0), Shared))
    && (forall i | 0 <= i < |late| :: plan[|d| + 4 + c + i] == Claim(Lock(STOCK, p.branch, late[i]), Exclusive))
    && plan[|plan| - 1] == Claim(Lock(UNIQUE_KEY, p.swapSlot, 0), Exclusive)
  }

  lemma {:induction false} EarlyShape(p: Program)
    requires p.Swap?
    ensures var early, d := EarlyClaims(p), Distinct(p.cart);
            && |early| == 2 + |d| && early[0] == Claim(Lock(ADVISORY, p.swapSlot, 1), Exclusive) && early[1] == Claim(Lock(SALE_ROW, p.sale, 0), Exclusive)
            && forall i | 0 <= i < |d| :: early[2 + i] == Claim(Lock(STOCK, p.branch, d[i]), Exclusive)
  {}

  lemma {:induction false} LateShape(p: Program, c: nat)
    requires p.Swap? && c == (if p.customer.Some? then 1 else 0)
    ensures var after, late := LateClaims(p), Distinct(Without(p.returned, p.cart));
            && |after| == 3 + c + |late|
            && after[0] == Claim(Lock(RETURN_COUNTER, p.returnCounter, 0), Exclusive) && after[1] == Claim(Lock(INVOICE_COUNTER, p.invoiceCounter, 0), Exclusive)
            && (c == 1 ==> after[2] == Claim(Lock(CUSTOMER, p.customer.value, 0), Shared))
            && (forall i | 0 <= i < |late| :: after[2 + c + i] == Claim(Lock(STOCK, p.branch, late[i]), Exclusive))
            && after[|after| - 1] == Claim(Lock(UNIQUE_KEY, p.swapSlot, 0), Exclusive)
  {
    var r, late := LateClaims(p), Distinct(Without(p.returned, p.cart));
    var customer, stock := Optional(CUSTOMER, p.customer, Shared), StockLocks(p.branch, late);
    assert |customer| == c && r[2..2 + c] == customer && r[2 + c..|r| - 1] == stock;
    if c == 1 {
      assert r[2] == r[2..2 + c][0] == customer[0];
    }
    forall i | 0 <= i < |late| ensures r[2 + c + i] == Claim(Lock(STOCK, p.branch, late[i]), Exclusive) {
      assert r[2 + c + i] == r[2 + c..|r| - 1][i] == stock[i];
    }
  }

  lemma {:induction false} SwapPlan(p: Program) returns (d: seq<Id>, c: nat, late: seq<Id>)
    requires p.Swap?
    ensures d == Distinct(p.cart) && late == Distinct(Without(p.returned, p.cart)) && SwapShape(p, LockPlan(p), d, c, late)
  {
    d, c, late := Distinct(p.cart), if p.customer.Some? then 1 else 0, Distinct(Without(p.returned, p.cart));
    EarlyShape(p);
    LateShape(p, c);
    ShapeOfParts(p, EarlyClaims(p), LateClaims(p), d, c, late);
  }

  lemma {:induction false} ShapeOfParts(p: Program, early: seq<Claim>, after: seq<Claim>, d: seq<Id>, c: nat, late: seq<Id>)
    requires p.Swap? && c == (if p.customer.Some? then 1 else 0)
    requires |early| == 2 + |d| && early[0] == Claim(Lock(ADVISORY, p.swapSlot, 1), Exclusive) && early[1] == Claim(Lock(SALE_ROW, p.sale, 0), Exclusive)
    requires forall i | 0 <= i < |d| :: early[2 + i] == Claim(Lock(STOCK, p.branch, d[i]), Exclusive)
    requires |after| == 3 + c + |late|
    requires after[0] == Claim(Lock(RETURN_COUNTER, p.returnCounter, 0), Exclusive) && after[1] == Claim(Lock(INVOICE_COUNTER, p.invoiceCounter, 0), Exclusive)
    requires c == 1 ==> after[2] == Claim(Lock(CUSTOMER, p.customer.value, 0), Shared)
    requires forall i | 0 <= i < |late| :: after[2 + c + i] == Claim(Lock(STOCK, p.branch, late[i]), Exclusive)
    requires after[|after| - 1] == Claim(Lock(UNIQUE_KEY, p.swapSlot, 0), Exclusive)
    ensures SwapShape(p, early + after, d, c, late)
  {
    var plan := early + after;
    assert forall i | 0 <= i < |early| :: plan[i] == early[i];
    assert forall i | 0 <= i < |after| :: plan[|early| + i] == after[i];
    forall i | 0 <= i < |late| ensures plan[|d| + 4 + c + i] == Claim(Lock(STOCK, p.branch, late[i]), Exclusive) {
      assert plan[|early| + (2 + c + i)] == after[2 + c + i];
    }
  }

  lemma {:induction false} LateIsDisorder(p: Program, plan: seq<Claim>, d: seq<Id>, c: nat, late: seq<Id>)
    requires p.Swap? && SwapShape(p, plan, d, c, late) && (c == 1 || late != [])
    ensures !Before(plan[|d| + 3].lock, plan[|d| + 4].lock)
  {
    if c == 0 {
      assert plan[|d| + 4 + c + 0] == Claim(Lock(STOCK, p.branch, late[0]), Exclusive);
    }
  }

  lemma {:induction false} ShapeOrder(p: Program, plan: seq<Claim>, d: seq<Id>, c: nat, late: seq<Id>)
    requires p.Swap? && SwapShape(p, plan, d, c, late)
    ensures Ascending(plan) <==> c == 0 && Increasing(d) && late == []
  {
    if c == 1 || late != [] {
      LateIsDisorder(p, plan, d, c, late);
    } else if Ascending(plan) {
      forall i, j | 0 <= i < j < |d| ensures d[i] < d[j] {
        assert Before(plan[2 + i].lock, plan[2 + j].lock);
      }
    } else if Increasing(d) {
      forall i, j | 0 <= i < j < |plan| ensures Before(plan[i].lock, plan[j].lock) {
        assert 2 <= i < 2 + |d| ==> plan[2 + (i - 2)].lock == Lock(STOCK, p.branch, d[i - 2]);
        assert 2 <= j < 2 + |d| ==> plan[2 + (j - 2)].lock == Lock(STOCK, p.branch, d[j - 2]);
      }
    }
  }

  lemma {:induction false} NothingLate(xs: seq<Id>, ys: seq<Id>)
    ensures Distinct(Without(xs, ys)) == [] <==> forall x | x in xs :: x in ys
  {
    var late := Distinct(Without(xs, ys));
    if late != [] {
      assert late[0] in late;
    }
    if exists x :: x in xs && x !in ys {
      var x :| x in xs && x !in ys;
      assert x in late;
    }
  }

  /** An exchange keeps to the global order exactly when it names no customer, its cart is sorted and no returned product is outside the cart. */
  lemma {:induction false} ExchangeOrderIff(p: Program)
    requires p.Swap?
    ensures Ascending(LockPlan(p)) <==> InOrder(p)
  {
    var d, c, late := SwapPlan(p);
    ShapeOrder(p, LockPlan(p), d, c, late);
    NothingLate(p.returned, p.cart);
  }

  ghost predicate RunsPrograms(events: seq<Event>) {
    forall k | 0 <= k < |events| && events[k].Begin? ::
      exists p :: Starts(p) && InOrder(p) && events[k].plan == LockPlan(p)
  }

  /** Any number of concurrent sales, single and batch transfers and ordered exchanges never deadlock. */
  lemma {:induction false} OrderedProgramsNeverDeadlock(events: seq<Event>, s: System)
    requires Reaches(events, s) && RunsPrograms(events)
    requires exists i :: 0 <= i < |s| && !s[i].done
    ensures exists i: nat :: CanAcquire(s, i) || CanCommit(s, i)
  {
    forall k | 0 <= k < |events| && events[k].Begin?
      ensures Ascending(events[k].plan)
    {
      var p :| Starts(p) && InOrder(p) && events[k].plan == LockPlan(p);
      if p.Swap? {
        ExchangeOrderIff(p);
      } else {
        PlansFollowTheGlobalOrder(p);
      }
    }
    SomeoneCanStep(events, s);
  }

  // ------------------------------------------------------------------
  // Every exchange out of order has a partner it can deadlock with.

  lemma {:induction false} ReachNext(events: seq<Event>, s: System, e: Event)
    requires Reaches(events, s) && Enabled(s, e)
    ensures Reaches(events + [e], Next(s, e))
  {
    assert (events + [e])[..|events|] == events;
  }

  /** The claims are on one lock and not both shared. */
  predicate Clash(a: Claim, b: Claim) { a.lock == b.lock && (a.mode == Exclusive || b.mode == Exclusive) }

  /**
   * Two plans that cross are a reachable deadlock: each first takes what the other still
   * wants, from then on neither can step.
   */
  lemma {:induction false} CrossingPlansDeadlock(p: seq<Claim>, q: seq<Claim>, m: nat, n: nat, a: nat, b: nat) returns (events: seq<Event>, s: System)
    requires a < m < |p| && b < n < |q| && Clash(p[m], q[b]) && Clash(q[n], p[a])
    requires forall i, j | 0 <= i < m && 0 <= j < n :: p[i].lock != q[j].lock
    ensures Reaches(events, s) && s == [Txn(p, m, false), Txn(q, n, false)]
    ensures forall k | 0 <= k < |events| && events[k].Begin? :: events[k].plan == p || events[k].plan == q
    ensures forall i: nat :: !CanAcquire(s, i) && !CanCommit(s, i)
  {
    events, s := [], [];
    ReachNext(events, s, Begin(p));
    events, s := events + [Begin(p)], Next(s, Begin(p));
    ReachNext(events, s, Begin(q));
    events, s := events + [Begin(q)], Next(s, Begin(q));
    for k := 0 to m
      invariant Reaches(events, s) && s == [Txn(p, k, false), Txn(q, 0, false)]
      invariant forall k | 0 <= k < |events| && events[k].Begin? :: events[k].plan == p || events[k].plan == q
    {
      assert CanAcquire(s, 0);
      ReachNext(events, s, Acquire(0));
      events, s := events + [Acquire(0)], Next(s, Acquire(0));
    }
    for k := 0 to n
      invariant Reaches(events, s) && s == [Txn(p, m, false), Txn(q, k, false)]
      invariant forall k | 0 <= k < |events| && events[k].Begin? :: events[k].plan == p || events[k].plan == q
    {
      assert forall i | 0 <= i < m :: p[i].lock != q[k].lock;
      assert CanAcquire(s, 1);
      ReachNext(events, s, Acquire(1));
      events, s := events + [Acquire(1)], Next(s, Acquire(1));
    }
    assert Holds(s[1], p[m].lock, q[b].mode) && Holds(s[0], q[n].lock, p[a].mode);
    assert Blocks(s[1], p[m]) && Blocks(s[0], q[n]);
  }

  /** Two started programs have reached a state in which neither can step. */
  ghost predicate Deadlocked(p: Program, q: Program, events: seq<Event>, s: System) {
    && Reaches(events, s) && Starts(p) && Starts(q) && |s| == 2 && !s[0].done && !s[1].done
    && s[0].plan == LockPlan(p) && s[1].plan == LockPlan(q)
    && forall i: nat :: !CanAcquire(s, i) && !CanCommit(s, i)
  }

  lemma {:induction false} PairSorted(x: Id, y: Id)
    requires x < y
    ensures Sorted([y, x]) == [x, y]
  {
    assert [y, x][1..] == [x] && [x][1..] == [];
    assert Sorted([x]) == [x];
    assert [x][1..] == [] && Insert(y, []) == [y] && Insert(y, [x]) == [x] + [y];
  }

  lemma {:induction false} OneSorted(x: Id)
    ensures Sorted([x]) == [x] && Distinct([x]) == [x]
  {
    assert [x][1..] == [] && [x][..0] == [];
  }

  lemma {:induction false} CrossCustomer(p: Program, plan: seq<Claim>, d: seq<Id>, c: nat, late: seq<Id>, other: seq<Claim>) returns (events: seq<Event>, s: System)
    requires p.Swap? && SwapShape(p, plan, d, c, late) && p.customer.Some? && d != []
    requires |other| >= 2 && other[0] == Claim(Lock(CUSTOMER, p.customer.value, 0), Exclusive) && other[1] == Claim(Lock(STOCK, p.branch, d[0]), Exclusive)
    ensures Reaches(events, s) && s == [Txn(plan, |d| + 4, false), Txn(other, 1, false)] && forall i: nat :: !CanAcquire(s, i) && !CanCommit(s, i)
  {
    assert plan[2 + 0].lock == Lock(STOCK, p.branch, d[0]);
    forall k | 0 <= k < |d| + 4 ensures plan[k].lock != other[0].lock {
      assert 2 <= k < 2 + |d| ==> plan[2 + (k - 2)].lock == Lock(STOCK, p.branch, d[k - 2]);
    }
    events, s := CrossingPlansDeadlock(plan, other, |d| + 4, 1, 2, 0);
  }

  lemma {:induction false} CustomerPlan(branch: Id, customer: Id, x: Id)
    ensures var plan := LockPlan(Checkout(None, Some(customer), branch, [x], 0));
            |plan| >= 2 && plan[0] == Claim(Lock(CUSTOMER, customer, 0), Exclusive) && plan[1] == Claim(Lock(STOCK, branch, x), Exclusive)
  {
    OneSorted(x);
    var a, c, stock := Optional(ADVISORY, None, Exclusive), Optional(CUSTOMER, Some(customer), Exclusive), StockLocks(branch, [x]);
    JoinedHead(a, c, stock, Only(USER_COUNTER, 0), Optional(UNIQUE_KEY, None, Exclusive));
  }

  lemma {:induction false} JoinedHead(a: seq<Claim>, c: seq<Claim>, stock: seq<Claim>, counter: seq<Claim>, key: seq<Claim>)
    requires a == [] && |c| == 1 && |stock| == 1
    ensures var plan := a + c + stock + counter + key; |plan| >= 2 && plan[0] == c[0] && plan[1] == stock[0]
  {}

  /** A registered customer: the exchange holds stock and wants the customer, a sale to the customer holds it and wants that stock. */
  lemma {:induction false} CustomerDeadlock(p: Program) returns (q: Program, events: seq<Event>, s: System)
    requires p.Swap? && Starts(p) && p.customer.Some?
    ensures q.Checkout? && Deadlocked(p, q, events, s)
  {
    var d, c, late := SwapPlan(p);
    assert p.cart[0] in d;
    q := Checkout(None, p.customer, p.branch, [d[0]], 0);
    CustomerPlan(p.branch, p.customer.value, d[0]);
    events, s := CrossCustomer(p, LockPlan(p), d, c, late, LockPlan(q));
  }

  lemma {:induction false} CrossStock(p: Program, plan: seq<Claim>, d: seq<Id>, c: nat, late: seq<Id>, other: seq<Claim>, i: nat, j: nat) returns (events: seq<Event>, s: System)
    requires p.Swap? && SwapShape(p, plan, d, c, late) && i < j < |d|
    requires forall k, l | 0 <= k < l < |d| :: d[k] != d[l]
    requires |other| >= 2 && other[0] == Claim(Lock(STOCK, p.branch, d[j]), Exclusive) && other[1] == Claim(Lock(STOCK, p.branch, d[i]), Exclusive)
    ensures Reaches(events, s) && s == [Txn(plan, 2 + j, false), Txn(other, 1, false)] && forall i: nat :: !CanAcquire(s, i) && !CanCommit(s, i)
  {
    forall k | 0 <= k < 2 + j ensures plan[k].lock != other[0].lock {
      assert k >= 2 ==> plan[2 + (k - 2)].lock == Lock(STOCK, p.branch, d[k - 2]);
    }
    events, s := CrossingPlansDeadlock(plan, other, 2 + j, 1, 2 + i, 0);
  }

  lemma {:induction false} WalkInPlan(branch: Id, x: Id, y: Id)
    requires x < y
    ensures var plan := LockPlan(Checkout(None, None, branch, [y, x], 0));
            |plan| >= 2 && plan[0] == Claim(Lock(STOCK, branch, x), Exclusive) && plan[1] == Claim(Lock(STOCK, branch, y), Exclusive)
  {
    PairSorted(x, y);
    var stock := StockLocks(branch, [x, y]);
    assert LockPlan(Checkout(None, None, branch, [y, x], 0)) == stock + Only(USER_COUNTER, 0);
  }

  lemma {:induction false} Descent(d: seq<Id>) returns (i: nat, j: nat)
    requires !Increasing(d) && forall k, l | 0 <= k < l < |d| :: d[k] != d[l]
    ensures i < j < |d| && d[j] < d[i]
  {
    i, j :| 0 <= i < j < |d| && d[i] >= d[j];
  }

  /** An unsorted cart: a walk-in sale of two of its products takes them in the other order. */
  lemma {:induction false} UnsortedDeadlock(p: Program) returns (q: Program, events: seq<Event>, s: System)
    requires p.Swap? && Starts(p) && !Increasing(Distinct(p.cart))
    ensures q.Checkout? && Deadlocked(p, q, events, s)
  {
    var d, c, late := SwapPlan(p);
    var i, j := Descent(d);
    q := Checkout(None, None, p.branch, [d[i], d[j]], 0);
    WalkInPlan(p.branch, d[j], d[i]);
    events, s := CrossStock(p, LockPlan(p), d, c, late, LockPlan(q), i, j);
  }

  lemma {:induction false} CrossCounter(p: Program, plan: seq<Claim>, d: seq<Id>, c: nat, late: seq<Id>, q: Program, other: seq<Claim>)
    returns (events: seq<Event>, s: System)
    requires p.Swap? && SwapShape(p, plan, d, c, late) && late != [] && late[0] !in d
    requires q.Swap? && SwapShape(q, other, [late[0]], 0, []) && q.branch == p.branch && q.returnCounter == p.returnCounter
    requires q.swapSlot != p.swapSlot && q.sale != p.sale
    ensures Reaches(events, s) && s == [Txn(plan, |d| + 4 + c, false), Txn(other, 3, false)] && forall i: nat :: !CanAcquire(s, i) && !CanCommit(s, i)
  {
    var e := [late[0]];
    assert other[2 + 0].lock == Lock(STOCK, p.branch, e[0]) && plan[|d| + 4 + c + 0] == Claim(Lock(STOCK, p.branch, late[0]), Exclusive);
    forall k | 0 <= k < |d| + 4 + c
      ensures plan[k].lock != other[0].lock && plan[k].lock != other[1].lock && plan[k].lock != other[2].lock
    {
      assert 2 <= k < 2 + |d| ==> plan[2 + (k - 2)].lock == Lock(STOCK, p.branch, d[k - 2]);
    }
    events, s := CrossingPlansDeadlock(plan, other, |d| + 4 + c, 3, |d| + 2, 2);
  }

  /** A returned product outside the cart: another exchange of the branch has that product in its cart and wants the counter. */
  lemma {:induction false} UncoveredDeadlock(p: Program, x: Id) returns (q: Program, events: seq<Event>, s: System)
    requires p.Swap? && Starts(p) && x in p.returned && x !in p.cart
    ensures q.Swap? && Deadlocked(p, q, events, s)
  {
    var d, c, late := SwapPlan(p);
    assert x in late && late[0] in late;
    q := Swap(p.swapSlot + 1, p.sale + 1, None, p.branch, [late[0]], [late[0]], p.returnCounter, p.invoiceCounter);
    OneSorted(late[0]);
    NothingLate([late[0]], [late[0]]);
    var d2, c2, late2 := SwapPlan(q);
    events, s := CrossCounter(p, LockPlan(p), d, c, late, q, LockPlan(q));
  }

  /** Every exchange that is out of order has a partner, a sale or another exchange, with which it can reach a deadlock. */
  lemma {:induction false} OutOfOrderDeadlocks(p: Program) returns (q: Program, events: seq<Event>, s: System)
    requires p.Swap? && Starts(p) && !InOrder(p)
    ensures (q.Checkout? || q.Swap?) && Deadlocked(p, q, events, s)
  {
    if p.customer.Some? {
      q, events, s := CustomerDeadlock(p);
    } else if !Increasing(Distinct(p.cart)) {
      q, events, s := UnsortedDeadlock(p);
    } else {
      var x :| x in p.returned && x !in p.cart;
      q, events, s := UncoveredDeadlock(p, x);
    }
  }
}
