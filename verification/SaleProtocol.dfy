/**
 * The idempotent checkout protocol under arbitrary interleaving: fast path, advisory lock,
 * re-check under the lock, then a commit that writes the key row, or a rollback.
 * Exchanges are included because they share the key table, under locks of their own.
 * The transaction body is a parameter, so every theorem holds for any body.
 */
module SaleProtocol {
  import opened Wrappers

  type Id = nat

  datatype Kind = Sale | Exchange

  // A branch and a client-supplied key.
  datatype Slot = Slot(branch: Id, key: Id)

  // slot is None when the key is missing or no branch could be resolved for the lookup.
  // SHA-256 is taken to be injective, so the digest of a payload is the payload itself.
  datatype Request<P> = Request(kind: Kind, slot: Option<Slot>, payload: P)

  datatype Outcome = Committed(sale: Id) | Replayed(sale: Id) | Conflict | Failed

  // Orphan is the code path after the re-check has already issued ROLLBACK.
  datatype Phase = Start | Waiting | Locked | Working | Orphan | Done(outcome: Outcome)

  datatype Thread<P> = Thread(request: Request<P>, phase: Phase)

  datatype KeyRow<P> = KeyRow(sale: Id, kind: Kind, payload: P)

  // One committed transaction, in commit order; its position is its sale id.
  datatype CommitRecord<P> = CommitRecord(thread: nat, request: Request<P>)

  datatype World<P, S> = World(
    threads: seq<Thread<P>>,
    rows: map<Slot, KeyRow<P>>,
    locks: map<int, nat>,
    commits: seq<CommitRecord<P>>,
    shop: S)

  datatype Event<P> =
    | Arrive(request: Request<P>)
    | FastPath(i: nat)
    | Acquire(i: nat)
    | Recheck(i: nat)
    | Commit(i: nat)
    | Abort(i: nat)

  // The transaction body: None when it throws. The new sale's id is passed in.
  type Body<!P, !S> = (S, Request<P>, Id) -> Option<S>

  // Both 32-bit lock keys, hashed from the namespace and the slot. Collisions are allowed.
  type LockHash = (Kind, Slot) -> int

  function Enter<P, S>(w: World<P, S>, i: nat, phase: Phase): (w': World<P, S>)
    requires i < |w.threads|
  {
    w.(threads := w.threads[i := w.threads[i].(phase := phase)])
  }

  function Release<P, S>(w: World<P, S>, i: nat): (w': World<P, S>) {
    w.(locks := map l | l in w.locks && w.locks[l] != i :: w.locks[l])
  }

  /** What a lookup that found row answers; None means that the code carries on. */
  function Answer<P(==), S>(w: World<P, S>, r: Request<P>, row: KeyRow<P>): Option<Outcome> {
    if row.kind != r.kind || row.payload != r.payload then Some(Conflict)
    else if row.sale < |w.commits| then Some(Replayed(row.sale))
    else None
  }

  function Found<P, S>(w: World<P, S>, r: Request<P>): Option<KeyRow<P>> {
    if r.slot.Some? && r.slot.value in w.rows then Some(w.rows[r.slot.value]) else None
  }

  predicate Enabled<P, S>(body: Body<P, S>, hash: LockHash, w: World<P, S>, e: Event<P>) {
    match e
    case Arrive(_) => true
    case FastPath(i) => i < |w.threads| && w.threads[i].phase == Start
    case Acquire(i) =>
      && i < |w.threads| && w.threads[i].phase == Waiting && w.threads[i].request.slot.Some?
      && hash(w.threads[i].request.kind, w.threads[i].request.slot.value) !in w.locks
    case Recheck(i) => i < |w.threads| && w.threads[i].phase == Locked
    case Commit(i) =>
      && i < |w.threads| && w.threads[i].phase == Working
      && body(w.shop, w.threads[i].request, |w.commits|).Some?
      // the exchange's plain INSERT of an existing key raises 23505; the sale's does nothing
      && (w.threads[i].request.kind == Exchange ==> Found(w, w.threads[i].request) == None)
    case Abort(i) => i < |w.threads| && w.threads[i].phase in {Working, Orphan}
  }

  function Next<P(==), S>(body: Body<P, S>, hash: LockHash, w: World<P, S>, e: Event<P>): World<P, S>
    requires Enabled(body, hash, w, e)
  {
    match e
    case Arrive(r) => w.(threads := w.threads + [Thread(r, Start)])
    case FastPath(i) =>
      var r := w.threads[i].request;
      if r.slot == None then Enter(w, i, Working)
      else if Found(w, r) == None then Enter(w, i, Waiting)
      else
        (match Answer(w, r, Found(w, r).value)
         case Some(outcome) => Enter(w, i, Done(outcome))
         case None => Enter(w, i, Waiting))
    case Acquire(i) =>
      var r := w.threads[i].request;
      Enter(w, i, Locked).(locks := w.locks[hash(r.kind, r.slot.value) := i])
    case Recheck(i) =>
      var r := w.threads[i].request;
      if Found(w, r) == None then Enter(w, i, Working)
      else
        (match Answer(w, r, Found(w, r).value)
         case Some(outcome) => Enter(Release(w, i), i, Done(outcome))
         case None => Enter(Release(w, i), i, Orphan))
    case Commit(i) =>
      var r := w.threads[i].request;
      var sale := |w.commits|;
      var rows := if r.slot.Some? && Found(w, r) == None
                  then w.rows[r.slot.value := KeyRow(sale, r.kind, r.payload)] else w.rows;
      Enter(Release(w, i), i, Done(Committed(sale))).(
        rows := rows,
        commits := w.commits + [CommitRecord(i, r)],
        shop := body(w.shop, r, sale).value)
    case Abort(i) => Enter(Release(w, i), i, Done(Failed))
  }

  function Run<P(==), S>(body: Body<P, S>, hash: LockHash, shop: S, events: seq<Event<P>>): Option<World<P, S>> {
    if events == [] then Some(World([], map[], map[], [], shop))
    else
      var before := Run(body, hash, shop, events[..|events| - 1]);
      var e := events[|events| - 1];
      if before.Some? && Enabled(body, hash, before.value, e) then Some(Next(body, hash, before.value, e)) else None
  }

  // ------------------------------------------------------------------
  // The invariant.

  /** Every key row names a committed transaction of its own slot, kind and payload. */
  ghost predicate RowsAreCommits<P(!new), S(!new)>(w: World<P, S>) {
    forall s | s in w.rows ::
      && w.rows[s].sale < |w.commits|
      && w.commits[w.rows[s].sale].request == Request(w.rows[s].kind, Some(s), w.rows[s].payload)
  }

  /** Every commit with a slot left a row for that slot, its own or an earlier one. */
  ghost predicate CommitsHaveRows<P, S>(w: World<P, S>) {
    forall c | 0 <= c < |w.commits| && w.commits[c].request.slot.Some? ::
      w.commits[c].request.slot.value in w.rows
  }

  /** At most one commit per kind and slot. */
  ghost predicate OncePerKind<P, S>(w: World<P, S>) {
    forall c, d | 0 <= c < d < |w.commits| && w.commits[c].request.slot.Some?
      && w.commits[c].request.slot == w.commits[d].request.slot ::
      w.commits[c].request.kind != w.commits[d].request.kind
  }

  predicate InTransaction<P>(t: Thread<P>) { t.phase == Locked || t.phase == Working }

  /** A keyed transaction holds its advisory lock. */
  ghost predicate HoldersLocked<P, S>(hash: LockHash, w: World<P, S>) {
    forall i | 0 <= i < |w.threads| && w.threads[i].request.slot.Some? && InTransaction(w.threads[i]) ::
      var l := hash(w.threads[i].request.kind, w.threads[i].request.slot.value);
      l in w.locks && w.locks[l] == i
  }

  /** Past the re-check, no transaction of the same kind and slot has committed. */
  ghost predicate WorkersAreFirst<P, S>(w: World<P, S>) {
    forall i, c | 0 <= i < |w.threads| && w.threads[i].phase == Working && w.threads[i].request.slot.Some?
      && 0 <= c < |w.commits| && w.commits[c].request.slot == w.threads[i].request.slot ::
      w.commits[c].request.kind != w.threads[i].request.kind
  }

  /** What each kind of outcome says about the tables. */
  predicate OutcomeHolds<P(==), S>(w: World<P, S>, i: nat)
    requires i < |w.threads|
  {
    var r := w.threads[i].request;
    match w.threads[i].phase
    case Done(Committed(sale)) => sale < |w.commits| && w.commits[sale] == CommitRecord(i, r)
    case Done(Replayed(sale)) =>
      r.slot.Some? && r.slot.value in w.rows && w.rows[r.slot.value] == KeyRow(sale, r.kind, r.payload)
    case Done(Conflict) =>
      && r.slot.Some? && r.slot.value in w.rows
      && (w.rows[r.slot.value].kind != r.kind || w.rows[r.slot.value].payload != r.payload)
    case Orphan => false
    case _ => true
  }

  ghost predicate Outcomes<P(!new), S(!new)>(w: World<P, S>) {
    forall i | 0 <= i < |w.threads| :: OutcomeHolds(w, i)
  }

  ghost predicate Invariant<P(!new), S(!new)>(hash: LockHash, w: World<P, S>) {
    RowsAreCommits(w) && CommitsHaveRows(w) && OncePerKind(w)
    && HoldersLocked(hash, w) && WorkersAreFirst(w) && Outcomes(w)
  }

  lemma {:induction false} StepKeepsInvariant<P(!new), S(!new)>(body: Body<P, S>, hash: LockHash, w: World<P, S>, e: Event<P>)
    requires Invariant(hash, w) && Enabled(body, hash, w, e)
    ensures Invariant(hash, Next(body, hash, w, e))
  {
    match e
    case Arrive(r) =>
      var w' := Next(body, hash, w, e);
      forall i | 0 <= i < |w'.threads| ensures OutcomeHolds(w', i) {
        assert i < |w.threads| ==> OutcomeHolds(w, i);
      }
    case FastPath(i) => LookupStep(body, hash, w, i, e);
    case Acquire(i) => OnlyThread(hash, w, Next(body, hash, w, e), i);
    case Recheck(i) => LookupStep(body, hash, w, i, e);
    case Abort(i) => OnlyThread(hash, w, Next(body, hash, w, e), i);
    case Commit(i) => CommitStep(body, hash, w, i);
  }

  /** Nothing but the phase and the locks of thread i differs. */
  predicate OnlyThreadMoved<P(==), S>(w: World<P, S>, w': World<P, S>, i: nat) {
    && w'.rows == w.rows && w'.commits == w.commits
    && i < |w.threads| == |w'.threads|
    && w'.threads[i].request == w.threads[i].request
    && (forall j | 0 <= j < |w.threads| && j != i :: w'.threads[j] == w.threads[j])
    && (forall l | l in w.locks && w.locks[l] != i :: l in w'.locks && w'.locks[l] == w.locks[l])
  }

  lemma {:induction false} OnlyThread<P(!new), S(!new)>(hash: LockHash, w: World<P, S>, w': World<P, S>, i: nat)
    requires Invariant(hash, w) && OnlyThreadMoved(w, w', i) && OutcomeHolds(w', i)
    requires var t := w'.threads[i]; t.request.slot.Some? && InTransaction(t) ==>
               && hash(t.request.kind, t.request.slot.value) in w'.locks
               && w'.locks[hash(t.request.kind, t.request.slot.value)] == i
               && (t.phase == Working ==> t.request.slot.value !in w.rows)
    ensures Invariant(hash, w')
  {
    forall j | 0 <= j < |w'.threads| ensures OutcomeHolds(w', j) {
      assert OutcomeHolds(w, j);
    }
  }

  lemma {:induction false} LookupStep<P(!new), S(!new)>(body: Body<P, S>, hash: LockHash, w: World<P, S>, i: nat, e: Event<P>)
    requires Invariant(hash, w) && Enabled(body, hash, w, e) && (e == FastPath(i) || e == Recheck(i))
    ensures Invariant(hash, Next(body, hash, w, e))
  {
    var r := w.threads[i].request;
    assert OutcomeHolds(w, i);
    if Found(w, r).Some? {
      assert w.rows[r.slot.value].sale < |w.commits|;
    }
    OnlyThread(hash, w, Next(body, hash, w, e), i);
  }

  /** Two transactions in progress under one slot are of different kinds: the lock keeps equals apart. */
  lemma {:induction false} HoldersDiffer<P, S>(hash: LockHash, w: World<P, S>, i: nat, j: nat)
    requires HoldersLocked(hash, w) && i != j && i < |w.threads| && j < |w.threads|
    requires InTransaction(w.threads[i]) && InTransaction(w.threads[j])
    requires w.threads[i].request.slot.Some? && w.threads[i].request.slot == w.threads[j].request.slot
    ensures w.threads[i].request.kind != w.threads[j].request.kind
  {}

  lemma {:induction false} CommitStep<P(!new), S(!new)>(body: Body<P, S>, hash: LockHash, w: World<P, S>, i: nat)
    requires Invariant(hash, w) && Enabled(body, hash, w, Commit(i))
    ensures Invariant(hash, Next(body, hash, w, Commit(i)))
  {
    var w' := Next(body, hash, w, Commit(i));
    var r := w.threads[i].request;
    forall j, c | 0 <= j < |w'.threads| && w'.threads[j].phase == Working && w'.threads[j].request.slot.Some?
      && 0 <= c < |w'.commits| && w'.commits[c].request.slot == w'.threads[j].request.slot
      ensures w'.commits[c].request.kind != w'.threads[j].request.kind
    {
      if c == |w.commits| {
        HoldersDiffer(hash, w, i, j);
      }
    }
    forall j | 0 <= j < |w'.threads|
      ensures OutcomeHolds(w', j)
    {
      assert OutcomeHolds(w, j);
    }
  }

  lemma {:induction false} ReachableInvariant<P(!new), S(!new)>(body: Body<P, S>, hash: LockHash, shop: S, events: seq<Event<P>>)
    requires Run(body, hash, shop, events).Some?
    ensures Invariant(hash, Run(body, hash, shop, events).value)
  {
    if events != [] {
      ReachableInvariant(body, hash, shop, events[..|events| - 1]);
      StepKeepsInvariant(body, hash, Run(body, hash, shop, events[..|events| - 1]).value, events[|events| - 1]);
    }
  }

  // ------------------------------------------------------------------
  // What callers can rely on, in every reachable state.

  function SuccessSale(phase: Phase): Option<Id> {
    match phase
    case Done(Committed(sale)) => Some(sale)
    case Done(Replayed(sale)) => Some(sale)
    case _ => None
  }

  /**
   * Exactly once: all successful calls of one kind under one slot name the same sale, carried
   * the same payload, and that sale is the only commit of its kind under the slot.
   */
  lemma {:induction false} SuccessesAreOneSale<P(!new), S(!new)>(body: Body<P, S>, hash: LockHash, shop: S, events: seq<Event<P>>, i: nat, j: nat)
    requires Run(body, hash, shop, events).Some?
    requires var w := Run(body, hash, shop, events).value;
             && i < |w.threads| && j < |w.threads|
             && w.threads[i].request.kind == w.threads[j].request.kind
             && w.threads[i].request.slot == w.threads[j].request.slot && w.threads[i].request.slot.Some?
             && SuccessSale(w.threads[i].phase).Some? && SuccessSale(w.threads[j].phase).Some?
    ensures var w := Run(body, hash, shop, events).value;
            var sale := SuccessSale(w.threads[i].phase).value;
            && SuccessSale(w.threads[j].phase).value == sale < |w.commits|
            && w.threads[i].request == w.threads[j].request == w.commits[sale].request
            && forall c | 0 <= c < |w.commits| && w.commits[c].request.slot == w.threads[i].request.slot
                 && w.commits[c].request.kind == w.threads[i].request.kind :: c == sale
  {
    ReachableInvariant(body, hash, shop, events);
    var w := Run(body, hash, shop, events).value;
    assert OutcomeHolds(w, i) && OutcomeHolds(w, j);
    var a, b := SuccessSale(w.threads[i].phase).value, SuccessSale(w.threads[j].phase).value;
    assert w.commits[a].request == w.threads[i].request && w.commits[b].request == w.threads[j].request;
  }

  /** The statements after the re-check's ROLLBACK that would run outside a transaction are unreachable. */
  lemma {:induction false} OrphanIsUnreachable<P(!new), S(!new)>(body: Body<P, S>, hash: LockHash, shop: S, events: seq<Event<P>>, i: nat)
    requires Run(body, hash, shop, events).Some?
    requires i < |Run(body, hash, shop, events).value.threads|
    ensures Run(body, hash, shop, events).value.threads[i].phase != Orphan
  {
    ReachableInvariant(body, hash, shop, events);
    assert OutcomeHolds(Run(body, hash, shop, events).value, i);
  }

  /** An aborted transaction, a replay and a conflict leave no key row and touch neither sales nor shop. */
  lemma {:induction false} OnlyCommitsHaveEffects<P, S>(body: Body<P, S>, hash: LockHash, w: World<P, S>, e: Event<P>)
    requires Enabled(body, hash, w, e) && !e.Commit?
    ensures var w' := Next(body, hash, w, e); w'.rows == w.rows && w'.commits == w.commits && w'.shop == w.shop
  {}

  /** Applying the committed requests one after another, without any concurrency. */
  function Sequential<P, S>(body: Body<P, S>, shop: S, commits: seq<CommitRecord<P>>): Option<S> {
    if commits == [] then Some(shop)
    else
      var n := |commits| - 1;
      match Sequential(body, shop, commits[..n])
      case None => None
      case Some(before) => body(before, commits[n].request, n)
  }

  /** The shop is what a sequential execution of the committed requests makes of it: replays add nothing. */
  lemma {:induction false} ShopIsSequential<P(!new), S(!new)>(body: Body<P, S>, hash: LockHash, shop: S, events: seq<Event<P>>)
    requires Run(body, hash, shop, events).Some?
    ensures var w := Run(body, hash, shop, events).value;
            Sequential(body, shop, w.commits) == Some(w.shop)
  {
    if events != [] {
      var before := Run(body, hash, shop, events[..|events| - 1]).value;
      var e := events[|events| - 1];
      ShopIsSequential(body, hash, shop, events[..|events| - 1]);
      if e.Commit? {
        var after := Next(body, hash, before, e);
        assert after.commits[..|after.commits| - 1] == before.commits;
      } else {
        OnlyCommitsHaveEffects(body, hash, before, e);
      }
    }
  }

  /** Once a slot has its row, a lookup replays that row's sale exactly for the same kind and payload; anything else is refused with 409. */
  lemma {:induction false} LookupAfterCommit<P(!new), S(!new)>(body: Body<P, S>, hash: LockHash, shop: S, events: seq<Event<P>>, e: Event<P>, i: nat)
    requires e == FastPath(i) || e == Recheck(i)
    requires Run(body, hash, shop, events).Some?
    requires var w := Run(body, hash, shop, events).value;
             Enabled(body, hash, w, e) && w.threads[i].request.slot.Some? && w.threads[i].request.slot.value in w.rows
    ensures var w := Run(body, hash, shop, events).value;
            var r := w.threads[i].request;
            var row := w.rows[r.slot.value];
            Next(body, hash, w, e).threads[i].phase
            == Done(if row.kind == r.kind && row.payload == r.payload then Replayed(row.sale) else Conflict)
  {
    ReachableInvariant(body, hash, shop, events);
  }

  // ------------------------------------------------------------------
  // Slots used by sales only.

  ghost predicate OnlySales<P>(events: seq<Event<P>>, s: Slot) {
    forall k | 0 <= k < |events| && events[k].Arrive? && events[k].request.slot == Some(s) :: events[k].request.kind == Sale
  }

  /** Every thread and commit of the slot is a sale's. */
  ghost predicate SalesOnly<P(!new), S(!new)>(w: World<P, S>, s: Slot) {
    && (forall i | 0 <= i < |w.threads| && w.threads[i].request.slot == Some(s) :: w.threads[i].request.kind == Sale)
    && (forall c | 0 <= c < |w.commits| && w.commits[c].request.slot == Some(s) :: w.commits[c].request.kind == Sale)
  }

  lemma {:induction false} StepIsSalesOnly<P(!new), S(!new)>(body: Body<P, S>, hash: LockHash, w: World<P, S>, e: Event<P>, s: Slot)
    requires SalesOnly(w, s) && Enabled(body, hash, w, e)
    requires e.Arrive? && e.request.slot == Some(s) ==> e.request.kind == Sale
    ensures SalesOnly(Next(body, hash, w, e), s)
  {}

  lemma {:induction false} ThreadsArrived<P(!new), S(!new)>(body: Body<P, S>, hash: LockHash, shop: S, events: seq<Event<P>>, s: Slot)
    requires Run(body, hash, shop, events).Some? && OnlySales(events, s)
    ensures SalesOnly(Run(body, hash, shop, events).value, s)
  {
    if events != [] {
      var n := |events| - 1;
      ThreadsArrived(body, hash, shop, events[..n], s);
      StepIsSalesOnly(body, hash, Run(body, hash, shop, events[..n]).value, events[n], s);
    }
  }

  /** When only sales use a slot, at most one transaction commits under it, and the key row is that transaction's. */
  lemma {:induction false} OneCommitPerSaleSlot<P(!new), S(!new)>(body: Body<P, S>, hash: LockHash, shop: S, events: seq<Event<P>>, s: Slot, c: nat)
    requires Run(body, hash, shop, events).Some? && OnlySales(events, s)
    requires var w := Run(body, hash, shop, events).value; c < |w.commits| && w.commits[c].request.slot == Some(s)
    ensures var w := Run(body, hash, shop, events).value;
            && s in w.rows && w.rows[s] == KeyRow(c, Sale, w.commits[c].request.payload)
            && forall d | 0 <= d < |w.commits| && w.commits[d].request.slot == Some(s) :: d == c
  {
    ReachableInvariant(body, hash, shop, events);
    ThreadsArrived(body, hash, shop, events, s);
    var w := Run(body, hash, shop, events).value;
    assert s in w.rows;
    assert w.commits[w.rows[s].sale].request.slot == Some(s);
  }

  // ------------------------------------------------------------------
  // Where the protection ends.

  lemma {:induction false} RunNext<P, S>(body: Body<P, S>, hash: LockHash, shop: S, events: seq<Event<P>>, e: Event<P>)
    requires Run(body, hash, shop, events).Some? && Enabled(body, hash, Run(body, hash, shop, events).value, e)
    ensures Run(body, hash, shop, events + [e]) == Some(Next(body, hash, Run(body, hash, shop, events).value, e))
  {
    assert (events + [e])[..|events|] == events;
  }

  lemma {:induction false} Advance<P, S>(body: Body<P, S>, hash: LockHash, shop: S, events: seq<Event<P>>, w: World<P, S>, e: Event<P>)
    returns (events': seq<Event<P>>, w': World<P, S>)
    requires Run(body, hash, shop, events) == Some(w) && Enabled(body, hash, w, e)
    ensures events' == events + [e] && w' == Next(body, hash, w, e)
    ensures Run(body, hash, shop, events') == Some(w')
  {
    RunNext(body, hash, shop, events, e);
    events', w' := events + [e], Next(body, hash, w, e);
  }

  /** Without a resolved slot (no key, or no branch to look it up in) a request that is accepted twice commits twice. */
  lemma {:induction false} UnkeyedRequestsRepeat<P(!new), S(!new)>(body: Body<P, S>, hash: LockHash, shop: S, r: Request<P>)
    returns (events: seq<Event<P>>, w: World<P, S>)
    requires r.slot == None && body(shop, r, 0).Some? && body(body(shop, r, 0).value, r, 1).Some?
    ensures Run(body, hash, shop, events) == Some(w)
    ensures w.commits == [CommitRecord(0, r), CommitRecord(1, r)]
  {
    events, w := [], World([], map[], map[], [], shop);
    events, w := Advance(body, hash, shop, events, w, Arrive(r));
    events, w := Advance(body, hash, shop, events, w, FastPath(0));
    events, w := Advance(body, hash, shop, events, w, Commit(0));
    events, w := Advance(body, hash, shop, events, w, Arrive(r));
    events, w := Advance(body, hash, shop, events, w, FastPath(1));
    events, w := Advance(body, hash, shop, events, w, Commit(1));
  }

  ghost predicate CommittedAs<P(!new), S(!new)>(w: World<P, S>, s: Slot, kind: Kind) {
    exists c :: 0 <= c < |w.commits| && w.commits[c].request.slot == Some(s) && w.commits[c].request.kind == kind
  }

  ghost predicate AtMostOneCommit<P(!new), S(!new)>(w: World<P, S>, s: Slot) {
    forall c, d | 0 <= c < |w.commits| && 0 <= d < |w.commits| && w.commits[c].request.slot == Some(s) && w.commits[d].request.slot == Some(s) :: c == d
  }

  /** A slot carries at most one commit exactly when a sale and an exchange have not both committed under it. */
  lemma {:induction false} OneCommitIff<P(!new), S(!new)>(body: Body<P, S>, hash: LockHash, shop: S, events: seq<Event<P>>, s: Slot)
    requires Run(body, hash, shop, events).Some?
    ensures var w := Run(body, hash, shop, events).value;
            AtMostOneCommit(w, s) <==> !(CommittedAs(w, s, Sale) && CommittedAs(w, s, Exchange))
  {
    ReachableInvariant(body, hash, shop, events);
  }

  /** A sale and an exchange both past their re-checks, each holding its own lock. */
  lemma {:induction false} BothWorking<P(!new), S(!new)>(body: Body<P, S>, hash: LockHash, shop: S, s: Slot, p: P, q: P)
    returns (events: seq<Event<P>>, w: World<P, S>)
    requires hash(Sale, s) != hash(Exchange, s)
    ensures Run(body, hash, shop, events) == Some(w)
    ensures w.threads == [Thread(Request(Sale, Some(s), p), Working), Thread(Request(Exchange, Some(s), q), Working)]
    ensures w.rows == map[] && w.commits == [] && w.shop == shop
  {
    events, w := [], World([], map[], map[], [], shop);
    events, w := Advance(body, hash, shop, events, w, Arrive(Request(Sale, Some(s), p)));
    events, w := Advance(body, hash, shop, events, w, FastPath(0));
    events, w := Advance(body, hash, shop, events, w, Acquire(0));
    events, w := Advance(body, hash, shop, events, w, Recheck(0));
    assert w.locks == map[hash(Sale, s) := 0];
    events, w := Advance(body, hash, shop, events, w, Arrive(Request(Exchange, Some(s), q)));
    events, w := Advance(body, hash, shop, events, w, FastPath(1));
    events, w := Advance(body, hash, shop, events, w, Acquire(1));
    events, w := Advance(body, hash, shop, events, w, Recheck(1));
  }

  /**
   * A sale and an exchange that share a slot can both commit, because their advisory locks
   * differ; the sale is then left without a key row, and a retry of it is refused with 409.
   */
  lemma {:induction false} SaleAndExchangeCanShareASlot<P(!new), S(!new)>(body: Body<P, S>, hash: LockHash, shop: S, s: Slot, p: P, q: P)
    returns (events: seq<Event<P>>, w: World<P, S>)
    requires hash(Sale, s) != hash(Exchange, s)
    requires var first := body(shop, Request(Exchange, Some(s), q), 0); first.Some? && body(first.value, Request(Sale, Some(s), p), 1).Some?
    ensures Run(body, hash, shop, events) == Some(w)
    ensures w.commits == [CommitRecord(1, Request(Exchange, Some(s), q)), CommitRecord(0, Request(Sale, Some(s), p))]
    ensures |w.threads| == 3 && w.threads[2] == Thread(Request(Sale, Some(s), p), Done(Conflict))
  {
    events, w := BothWorking(body, hash, shop, s, p, q);
    events, w := Advance(body, hash, shop, events, w, Commit(1));
    assert w.rows == map[s := KeyRow(0, Exchange, q)];
    events, w := Advance(body, hash, shop, events, w, Commit(0));
    events, w := Advance(body, hash, shop, events, w, Arrive(Request(Sale, Some(s), p)));
    events, w := Advance(body, hash, shop, events, w, FastPath(2));
  }

  // ------------------------------------------------------------------
  // Which branch the key is looked up in, and which branch the sale is booked on.

  /** The lookup branch computed before the transaction. */
  function LookupBranch(admin: bool, identity: Option<Id>, requested: Option<Id>): Option<Id> {
    if !admin && identity.Some? then identity
    else if requested.Some? then requested
    else identity
  }

  datatype BranchChoice = Booked(branch: Id) | Refused(status: nat)

  /** The branch resolved inside the transaction; main is the active MAIN branch, if there is one. */
  function SaleBranch(admin: bool, identity: Option<Id>, requested: Option<Id>, main: Option<Id>): BranchChoice {
    if !admin then (if identity.None? then Refused(403) else Booked(identity.value))
    else if requested.Some? then Booked(requested.value)
    else if identity.Some? then Booked(identity.value)
    else if main.Some? then Booked(main.value)
    else Refused(400)
  }

  /** A booked sale is looked up under its own branch, except for an administrator with no branch at all, whose key protects nothing. */
  lemma {:induction false} KeyProtectsUnless(admin: bool, identity: Option<Id>, requested: Option<Id>, main: Option<Id>)
    requires SaleBranch(admin, identity, requested, main).Booked?
    ensures LookupBranch(admin, identity, requested) == Some(SaleBranch(admin, identity, requested, main).branch)
       <==> !(admin && identity.None? && requested.None?)
  {}
}
