/**
 * Transfers, single and batch, are made idempotent without an advisory lock: the transfer's row is
 * inserted last under a unique key, a loser of that race rolls back and reads the winner's row, and
 * transient database errors are retried up to three attempts. The transaction body is a parameter.
 */
module BatchProtocol {
  import opened Wrappers

  type Id = nat

  const MAX_TRANSIENT_RETRIES: nat := 3

  // The fingerprint of a normalized batch is the batch (SHA-256 is taken to be injective); a single
  // transfer's payload is compared field by field.
  datatype Request<P> = Request(batch: Id, payload: P)

  datatype Outcome<R> = Committed(result: R) | Stored(result: R) | Conflict | Rejected | GaveUp

  // Inserted: the batch row is written but not yet committed, so its key is taken.
  datatype Phase<R> = Attempting | Checked | Inserted | Done(outcome: Outcome<R>)

  datatype Thread<P, R> = Thread(request: Request<P>, attempt: nat, phase: Phase<R>)

  datatype BatchRow<P, R> = BatchRow(payload: P, result: R)

  datatype CommitRecord<P, R> = CommitRecord(thread: nat, request: Request<P>, result: R)

  datatype World<P, R, S> = World(
    threads: seq<Thread<P, R>>,
    rows: map<Id, BatchRow<P, R>>,
    commits: seq<CommitRecord<P, R>>,
    shop: S)

  datatype Event<P> =
    | Arrive(request: Request<P>)
    | Lookup(i: nat)
    | Reject(i: nat)
    | Insert(i: nat)
    | Commit(i: nat)
    | Transient(i: nat)

  // The new shop and the answer, or None when a check fails and the transaction throws.
  type Body<!P, !S, !R> = (S, Request<P>) -> Option<(S, R)>

  predicate Enabled<P(==), R, S>(body: Body<P, S, R>, w: World<P, R, S>, e: Event<P>) {
    match e
    case Arrive(_) => true
    case Lookup(i) => i < |w.threads| && w.threads[i].phase.Attempting?
    case Reject(i) => i < |w.threads| && w.threads[i].phase.Checked? && body(w.shop, w.threads[i].request).None?
    case Insert(i) =>
      && i < |w.threads| && w.threads[i].phase.Checked? && body(w.shop, w.threads[i].request).Some?
      // a second insert of an uncommitted key waits for the first one to finish
      && forall j | 0 <= j < |w.threads| && w.threads[j].phase.Inserted? ::
           w.threads[j].request.batch != w.threads[i].request.batch
    case Commit(i) =>
      i < |w.threads| && w.threads[i].phase.Inserted? && body(w.shop, w.threads[i].request).Some?
    case Transient(i) => i < |w.threads| && (w.threads[i].phase.Checked? || w.threads[i].phase.Inserted?)
  }

  function Enter<P, R, S>(w: World<P, R, S>, i: nat, phase: Phase<R>): World<P, R, S>
    requires i < |w.threads|
  {
    w.(threads := w.threads[i := w.threads[i].(phase := phase)])
  }

  /** What a stored row answers: its saved result, or 409 when the payload differs. */
  function Answer<P(==), R>(row: BatchRow<P, R>, payload: P): Outcome<R> {
    if row.payload != payload then Conflict else Stored(row.result)
  }

  function Next<P(==), R, S>(body: Body<P, S, R>, w: World<P, R, S>, e: Event<P>): World<P, R, S>
    requires Enabled(body, w, e)
  {
    match e
    case Arrive(r) => w.(threads := w.threads + [Thread(r, 1, Attempting)])
    case Lookup(i) =>
      var r := w.threads[i].request;
      if r.batch in w.rows then Enter(w, i, Done(Answer(w.rows[r.batch], r.payload)))
      else Enter(w, i, Checked)
    case Reject(i) => Enter(w, i, Done(Rejected))
    case Insert(i) =>
      // 23505 sends the loser to the committed row
      var r := w.threads[i].request;
      if r.batch in w.rows then Enter(w, i, Done(Answer(w.rows[r.batch], r.payload)))
      else Enter(w, i, Inserted)
    case Commit(i) =>
      var r := w.threads[i].request;
      var (shop, result) := body(w.shop, r).value;
      Enter(w, i, Done(Committed(result))).(
        rows := w.rows[r.batch := BatchRow(r.payload, result)],
        commits := w.commits + [CommitRecord(i, r, result)],
        shop := shop)
    case Transient(i) =>
      if w.threads[i].attempt < MAX_TRANSIENT_RETRIES then
        w.(threads := w.threads[i := Thread(w.threads[i].request, w.threads[i].attempt + 1, Attempting)])
      else Enter(w, i, Done(GaveUp))
  }

  function Run<P(==), R, S>(body: Body<P, S, R>, shop: S, events: seq<Event<P>>): Option<World<P, R, S>> {
    if events == [] then Some(World([], map[], [], shop))
    else
      var before := Run(body, shop, events[..|events| - 1]);
      var e := events[|events| - 1];
      if before.Some? && Enabled(body, before.value, e) then Some(Next(body, before.value, e)) else None
  }

  // ------------------------------------------------------------------
  // The invariant.

  /** The batch table and the commit history tell the same story, one commit per batch. */
  ghost predicate OncePerBatch<P(!new), R(!new), S(!new)>(w: World<P, R, S>) {
    && (forall c | 0 <= c < |w.commits| ::
          var r := w.commits[c].request;
          r.batch in w.rows && w.rows[r.batch] == BatchRow(r.payload, w.commits[c].result))
    && (forall c, d | 0 <= c < d < |w.commits| :: w.commits[c].request.batch != w.commits[d].request.batch)
    && (forall b | b in w.rows :: exists c :: 0 <= c < |w.commits| && w.commits[c].request.batch == b)
  }

  /** An uncommitted insert owns its key: no committed row and no other insert has it. */
  ghost predicate KeysAreHeld<P, R, S>(w: World<P, R, S>) {
    && (forall i | 0 <= i < |w.threads| && w.threads[i].phase.Inserted? :: w.threads[i].request.batch !in w.rows)
    && (forall i, j | 0 <= i < j < |w.threads| && w.threads[i].phase.Inserted? && w.threads[j].phase.Inserted? ::
          w.threads[i].request.batch != w.threads[j].request.batch)
  }

  predicate ThreadHolds<P(==), R(==), S>(w: World<P, R, S>, i: nat)
    requires i < |w.threads|
  {
    var r := w.threads[i].request;
    && 1 <= w.threads[i].attempt <= MAX_TRANSIENT_RETRIES
    && match w.threads[i].phase
       case Done(Committed(result)) => r.batch in w.rows && w.rows[r.batch] == BatchRow(r.payload, result)
       case Done(Stored(result)) => r.batch in w.rows && w.rows[r.batch] == BatchRow(r.payload, result)
       case Done(Conflict) => r.batch in w.rows && w.rows[r.batch].payload != r.payload
       case _ => true
  }

  /** A call has committed once if it answered so, and never otherwise. */
  ghost predicate OncePerCall<P(!new), R(!new), S(!new)>(w: World<P, R, S>) {
    && (forall c | 0 <= c < |w.commits| ::
          && w.commits[c].thread < |w.threads|
          && w.threads[w.commits[c].thread].request == w.commits[c].request
          && w.threads[w.commits[c].thread].phase == Done(Committed(w.commits[c].result)))
    && (forall c, d | 0 <= c < d < |w.commits| :: w.commits[c].thread != w.commits[d].thread)
  }

  ghost predicate Invariant<P(!new), R(!new), S(!new)>(w: World<P, R, S>) {
    OncePerBatch(w) && KeysAreHeld(w) && OncePerCall(w) && forall i | 0 <= i < |w.threads| :: ThreadHolds(w, i)
  }

  /** Nothing but thread i differs, and it was not finished before. */
  predicate OnlyThreadMoved<P(==), R(==), S(==)>(w: World<P, R, S>, w': World<P, R, S>, i: nat) {
    && w'.rows == w.rows && w'.commits == w.commits && w'.shop == w.shop
    && i < |w.threads| == |w'.threads| && !w.threads[i].phase.Done?
    && w'.threads[i].request == w.threads[i].request
    && (forall j | 0 <= j < |w.threads| && j != i :: w'.threads[j] == w.threads[j])
  }

  lemma {:induction false} OnlyThread<P(!new), R(!new), S(!new)>(w: World<P, R, S>, w': World<P, R, S>, i: nat)
    requires Invariant(w) && OnlyThreadMoved(w, w', i) && ThreadHolds(w', i)
    requires w'.threads[i].phase.Inserted? ==>
               && w.threads[i].request.batch !in w.rows
               && forall j | 0 <= j < |w.threads| && w.threads[j].phase.Inserted? ::
                    w.threads[j].request.batch != w.threads[i].request.batch
    ensures Invariant(w')
  {
    forall j | 0 <= j < |w'.threads| ensures ThreadHolds(w', j) {
      assert ThreadHolds(w, j);
    }
    assert OncePerBatch(w');
  }

  lemma {:induction false} ArriveStep<P(!new), R(!new), S(!new)>(w: World<P, R, S>, r: Request<P>)
    requires Invariant(w)
    ensures Invariant(w.(threads := w.threads + [Thread(r, 1, Attempting)]))
  {
    var w' := w.(threads := w.threads + [Thread(r, 1, Attempting)]);
    forall i | 0 <= i < |w'.threads| ensures ThreadHolds(w', i) {
      assert i < |w.threads| ==> ThreadHolds(w, i);
    }
    assert OncePerBatch(w');
  }

  lemma {:induction false} MovedThread<P(!new), R(!new), S(!new)>(body: Body<P, S, R>, w: World<P, R, S>, e: Event<P>)
    requires Enabled(body, w, e) && !e.Arrive? && !e.Commit? && ThreadHolds(w, e.i)
    ensures OnlyThreadMoved(w, Next(body, w, e), e.i) && ThreadHolds(Next(body, w, e), e.i)
  {}

  /** Every step but a commit leaves rows, commits and the shop alone. */
  lemma {:induction false} QuietStep<P(!new), R(!new), S(!new)>(body: Body<P, S, R>, w: World<P, R, S>, e: Event<P>)
    requires Invariant(w) && Enabled(body, w, e) && !e.Commit?
    ensures Invariant(Next(body, w, e))
    ensures var w' := Next(body, w, e); w'.rows == w.rows && w'.commits == w.commits && w'.shop == w.shop
  {
    if e.Arrive? {
      ArriveStep(w, e.request);
    } else {
      MovedThread(body, w, e);
      OnlyThread(w, Next(body, w, e), e.i);
    }
  }

  lemma {:induction false} CommitTables<P(!new), R(!new), S(!new)>(body: Body<P, S, R>, w: World<P, R, S>, i: nat)
    requires Invariant(w) && Enabled(body, w, Commit(i))
    ensures OncePerBatch(Next(body, w, Commit(i)))
  {
    var w' := Next(body, w, Commit(i));
    forall b | b in w'.rows ensures exists c :: 0 <= c < |w'.commits| && w'.commits[c].request.batch == b {
      if b == w.threads[i].request.batch {
        assert w'.commits[|w.commits|].request.batch == b;
      } else {
        var c :| 0 <= c < |w.commits| && w.commits[c].request.batch == b;
        assert w'.commits[c].request.batch == b;
      }
    }
  }

  lemma {:induction false} CommitThreads<P(!new), R(!new), S(!new)>(body: Body<P, S, R>, w: World<P, R, S>, i: nat)
    requires Invariant(w) && Enabled(body, w, Commit(i))
    ensures var w' := Next(body, w, Commit(i)); KeysAreHeld(w') && OncePerCall(w')
  {}

  lemma {:induction false} CommitHolds<P(!new), R(!new), S(!new)>(body: Body<P, S, R>, w: World<P, R, S>, i: nat, j: nat)
    requires KeysAreHeld(w) && Enabled(body, w, Commit(i)) && j < |w.threads| && ThreadHolds(w, j)
    ensures ThreadHolds(Next(body, w, Commit(i)), j)
  {}

  lemma {:induction false} CommitStep<P(!new), R(!new), S(!new)>(body: Body<P, S, R>, w: World<P, R, S>, i: nat)
    requires Invariant(w) && Enabled(body, w, Commit(i))
    ensures Invariant(Next(body, w, Commit(i)))
  {
    CommitTables(body, w, i);
    CommitThreads(body, w, i);
    var w' := Next(body, w, Commit(i));
    forall j | 0 <= j < |w'.threads| ensures ThreadHolds(w', j) {
      CommitHolds(body, w, i, j);
    }
  }

  lemma {:induction false} ReachableInvariant<P(!new), R(!new), S(!new)>(body: Body<P, S, R>, shop: S, events: seq<Event<P>>)
    requires Run(body, shop, events).Some?
    ensures Invariant(Run(body, shop, events).value)
  {
    if events != [] {
      var before := Run(body, shop, events[..|events| - 1]).value;
      var e := events[|events| - 1];
      ReachableInvariant(body, shop, events[..|events| - 1]);
      if e.Commit? {
        CommitStep(body, before, e.i);
      } else {
        QuietStep(body, before, e);
      }
    }
  }

  // ------------------------------------------------------------------
  // What callers can rely on, in every reachable state.

  function SuccessResult<R>(phase: Phase<R>): Option<R> {
    match phase
    case Done(Committed(result)) => Some(result)
    case Done(Stored(result)) => Some(result)
    case _ => None
  }

  /**
   * Exactly once: all successful calls for one batch id carried the same payload and return the
   * one stored result, whatever the interleaving, retries and lost races, and one commit made it.
   */
  lemma {:induction false} SuccessesAreOneBatch<P(!new), R(!new), S(!new)>(body: Body<P, S, R>, shop: S, events: seq<Event<P>>, i: nat, j: nat)
    requires Run(body, shop, events).Some?
    requires var w := Run(body, shop, events).value;
             && i < |w.threads| && j < |w.threads| && w.threads[i].request.batch == w.threads[j].request.batch
             && SuccessResult(w.threads[i].phase).Some? && SuccessResult(w.threads[j].phase).Some?
    ensures var w := Run(body, shop, events).value;
            && w.threads[i].request == w.threads[j].request
            && SuccessResult(w.threads[i].phase) == SuccessResult(w.threads[j].phase)
            && exists c :: 0 <= c < |w.commits| && w.commits[c].request == w.threads[i].request
                 && w.commits[c].result == SuccessResult(w.threads[i].phase).value
                 && forall d | 0 <= d < |w.commits| && w.commits[d].request.batch == w.threads[i].request.batch :: d == c
  {
    ReachableInvariant(body, shop, events);
    var w := Run(body, shop, events).value;
    assert ThreadHolds(w, i) && ThreadHolds(w, j);
    var c :| 0 <= c < |w.commits| && w.commits[c].request.batch == w.threads[i].request.batch;
  }

  /** One call commits in at most one of its attempts, and only a call that answered Committed has. */
  lemma {:induction false} CallCommitsAtMostOnce<P(!new), R(!new), S(!new)>(body: Body<P, S, R>, shop: S, events: seq<Event<P>>, i: nat)
    requires Run(body, shop, events).Some? && i < |Run(body, shop, events).value.threads|
    ensures var w := Run(body, shop, events).value;
            && 1 <= w.threads[i].attempt <= MAX_TRANSIENT_RETRIES
            && (forall c, d | 0 <= c < d < |w.commits| :: !(w.commits[c].thread == i && w.commits[d].thread == i))
            && forall c | 0 <= c < |w.commits| && w.commits[c].thread == i ::
                 w.threads[i].phase == Done(Committed(w.commits[c].result))
  {
    ReachableInvariant(body, shop, events);
    assert ThreadHolds(Run(body, shop, events).value, i);
  }

  /** Applying the committed batches one after another, each answering what was stored for it. */
  predicate Sequential<P, R(==), S(==)>(body: Body<P, S, R>, shop: S, commits: seq<CommitRecord<P, R>>, final: S)
  {
    if commits == [] then final == shop
    else
      var step := body(shop, commits[0].request);
      step.Some? && step.value.1 == commits[0].result && Sequential(body, step.value.0, commits[1..], final)
  }

  lemma {:induction false} SequentialAppend<P, R, S>(body: Body<P, S, R>, shop: S, commits: seq<CommitRecord<P, R>>, middle: S, c: CommitRecord<P, R>)
    requires Sequential(body, shop, commits, middle)
    requires body(middle, c.request).Some? && body(middle, c.request).value.1 == c.result
    ensures Sequential(body, shop, commits + [c], body(middle, c.request).value.0)
    decreases |commits|
  {
    if commits == [] {
      assert (commits + [c])[1..] == [];
    } else {
      SequentialAppend(body, body(shop, commits[0].request).value.0, commits[1..], middle, c);
      assert (commits + [c])[1..] == commits[1..] + [c];
    }
  }

  /** The shop is what a sequential execution of the committed batches makes of it: losers and retries add nothing. */
  lemma {:induction false} ShopIsSequential<P(!new), R(!new), S(!new)>(body: Body<P, S, R>, shop: S, events: seq<Event<P>>)
    requires Run(body, shop, events).Some?
    ensures Sequential(body, shop, Run(body, shop, events).value.commits, Run(body, shop, events).value.shop)
  {
    if events != [] {
      var before := Run(body, shop, events[..|events| - 1]).value;
      var e := events[|events| - 1];
      ShopIsSequential(body, shop, events[..|events| - 1]);
      ReachableInvariant(body, shop, events[..|events| - 1]);
      if e.Commit? {
        var r := before.threads[e.i].request;
        SequentialAppend(body, shop, before.commits, before.shop, CommitRecord(e.i, r, body(before.shop, r).value.1));
      } else {
        QuietStep(body, before, e);
      }
    }
  }

  /** A call whose lookup comes after the commit always gets the stored result, or 409 exactly when its payload differs. */
  lemma {:induction false} LookupAfterCommit<P(!new), R(!new), S(!new)>(body: Body<P, S, R>, shop: S, events: seq<Event<P>>, i: nat, c: nat)
    requires Run(body, shop, events).Some?
    requires var w := Run(body, shop, events).value;
             && Enabled(body, w, Lookup(i)) && c < |w.commits| && w.commits[c].request.batch == w.threads[i].request.batch
    ensures var w := Run(body, shop, events).value;
            Next(body, w, Lookup(i)).threads[i].phase
            == Done(if w.commits[c].request.payload == w.threads[i].request.payload then Stored(w.commits[c].result) else Conflict)
  {
    ReachableInvariant(body, shop, events);
  }

  lemma {:induction false} Advance<P, R, S>(body: Body<P, S, R>, shop: S, events: seq<Event<P>>, w: World<P, R, S>, e: Event<P>)
    returns (events': seq<Event<P>>, w': World<P, R, S>)
    requires Run(body, shop, events) == Some(w) && Enabled(body, w, e)
    ensures events' == events + [e] && w' == Next(body, w, e)
    ensures Run(body, shop, events') == Some(w')
  {
    assert (events + [e])[..|events|] == events;
    events', w' := events + [e], Next(body, w, e);
  }

  /**
   * A duplicate that looked the batch up before its twin committed is refused with 400 exactly
   * when the twin's own effects leave too little stock to repeat them; otherwise it answers with
   * the stored result. So a caller may see an error for a batch that has in fact been applied.
   */
  lemma {:induction false} LateDuplicate<P(!new), R(!new), S(!new)>(body: Body<P, S, R>, shop: S, r: Request<P>) returns (events: seq<Event<P>>, w: World<P, R, S>)
    requires body(shop, r).Some?
    ensures Run(body, shop, events) == Some(w)
    ensures w.commits == [CommitRecord(0, r, body(shop, r).value.1)]
    ensures |w.threads| == 2 && w.threads[1].request == r
    ensures w.threads[1].phase == Done(if body(body(shop, r).value.0, r).None? then Rejected else Stored(body(shop, r).value.1))
  {
    events, w := [], World([], map[], [], shop);
    events, w := Advance(body, shop, events, w, Arrive(r));
    events, w := Advance(body, shop, events, w, Arrive(r));
    events, w := Advance(body, shop, events, w, Lookup(0));
    events, w := Advance(body, shop, events, w, Lookup(1));
    events, w := Advance(body, shop, events, w, Insert(0));
    events, w := Advance(body, shop, events, w, Commit(0));
    assert w.threads[1] == Thread(r, 1, Checked) && w.shop == body(shop, r).value.0;
    if body(w.shop, r).None? {
      events, w := Advance(body, shop, events, w, Reject(1));
    } else {
      events, w := Advance(body, shop, events, w, Insert(1));
    }
  }
}
