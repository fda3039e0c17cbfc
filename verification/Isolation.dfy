/**
 * Transactions under READ COMMITTED: each statement locks, reads, or both, in the order of the code,
 * and sees what was committed when it ran. A transaction computes with what it has seen and its
 * writes become visible at its commit. The statements and the body are parameters.
 */
module Isolation {
  import opened Wrappers

  datatype Step<G> =
    | Take(region: G, mode: Mode)   // a write, a foreign key, or FOR UPDATE of a row known to exist
    | Need(region: G)               // SELECT … FOR UPDATE of a row without which the code throws
    | Find(region: G)               // SELECT … FOR UPDATE of a row that may be missing: nothing is locked then
    | Look(region: G)               // a plain SELECT

  datatype Txn<Q, G, V> = Txn(request: Q, at: nat, held: map<G, Mode>, seen: map<G, V>, done: bool)

  datatype World<Q, G, V, S> = World(txns: seq<Txn<Q, G, V>>, commits: seq<Q>, shop: S)

  datatype Event<Q> = Begin(request: Q) | Advance(i: nat) | Commit(i: nat) | Abort(i: nat)

  // The statements of a request, the committed value of a region, whether that value is a missing
  // row, and the committed effect of a request that has seen what it has seen: None when it throws.
  datatype Program<!Q, !G, !V, !S> = Program(
    plan: Q -> seq<Step<G>>, value: (S, G) -> V, missing: V -> bool, body: (S, Q, map<G, V>) -> Option<S>)

  predicate Locks<G>(s: Step<G>) { s.Take? || s.Need? }

  function ModeOf<G>(s: Step<G>): Mode { if s.Take? then s.mode else Exclusive }

  /** Some statement certainly locks the region. */
  ghost predicate Locked<G>(plan: seq<Step<G>>, g: G) {
    exists k :: 0 <= k < |plan| && Locks(plan[k]) && plan[k].region == g
  }

  ghost predicate Compatible<Q, G, V, S>(w: World<Q, G, V, S>, i: nat, g: G, mode: Mode) {
    forall j | 0 <= j < |w.txns| && j != i && !w.txns[j].done && g in w.txns[j].held ::
      mode == Shared && w.txns[j].held[g] == Shared
  }

  predicate Unfinished<Q, G, V, S>(w: World<Q, G, V, S>, i: nat) { i < |w.txns| && !w.txns[i].done }

  ghost predicate CanAdvance<Q, G, V, S>(p: Program<Q, G, V, S>, w: World<Q, G, V, S>, i: nat) {
    && Unfinished(w, i) && w.txns[i].at < |p.plan(w.txns[i].request)|
    && match p.plan(w.txns[i].request)[w.txns[i].at]
       case Take(g, mode) => Compatible(w, i, g, mode)
       case Need(g) => Compatible(w, i, g, Exclusive) && !p.missing(p.value(w.shop, g))
       case Find(g) => p.missing(p.value(w.shop, g)) || Compatible(w, i, g, Exclusive)
       case Look(_) => true
  }

  ghost predicate CanCommit<Q, G, V, S>(p: Program<Q, G, V, S>, w: World<Q, G, V, S>, i: nat) {
    && Unfinished(w, i) && w.txns[i].at == |p.plan(w.txns[i].request)|
    && p.body(w.shop, w.txns[i].request, w.txns[i].seen).Some?
  }

  ghost predicate Enabled<Q, G, V, S>(p: Program<Q, G, V, S>, w: World<Q, G, V, S>, e: Event<Q>) {
    match e
    case Begin(_) => true
    case Advance(i) => CanAdvance(p, w, i)
    case Commit(i) => CanCommit(p, w, i)
    case Abort(i) => Unfinished(w, i)
  }

  /** One statement of a transaction. */
  function Advanced<Q, G, V, S>(p: Program<Q, G, V, S>, shop: S, t: Txn<Q, G, V>, s: Step<G>): Txn<Q, G, V> {
    var v := p.value(shop, s.region);
    match s
    case Take(g, mode) =>
      t.(at := t.at + 1, held := t.held[g := if g in t.held && t.held[g] == Exclusive then Exclusive else mode])
    case Need(g) => t.(at := t.at + 1, held := t.held[g := Exclusive], seen := t.seen[g := v])
    case Find(g) => t.(at := t.at + 1, held := if p.missing(v) then t.held else t.held[g := Exclusive], seen := t.seen[g := v])
    case Look(g) => t.(at := t.at + 1, seen := t.seen[g := v])
  }

  ghost function Next<Q, G, V, S>(p: Program<Q, G, V, S>, w: World<Q, G, V, S>, e: Event<Q>): World<Q, G, V, S>
    requires Enabled(p, w, e)
  {
    match e
    case Begin(q) => w.(txns := w.txns + [Txn(q, 0, map[], map[], false)])
    case Advance(i) => w.(txns := w.txns[i := Advanced(p, w.shop, w.txns[i], p.plan(w.txns[i].request)[w.txns[i].at])])
    case Commit(i) =>
      var t := w.txns[i];
      World(w.txns[i := t.(done := true)], w.commits + [t.request], p.body(w.shop, t.request, t.seen).value)
    case Abort(i) => w.(txns := w.txns[i := w.txns[i].(done := true)])
  }

  ghost function Run<Q, G, V, S>(p: Program<Q, G, V, S>, shop: S, events: seq<Event<Q>>): Option<World<Q, G, V, S>> {
    if events == [] then Some(World([], [], shop))
    else
      var before := Run(p, shop, events[..|events| - 1]);
      var e := events[|events| - 1];
      if before.Some? && Enabled(p, before.value, e) then Some(Next(p, before.value, e)) else None
  }

  // ------------------------------------------------------------------
  // What holds in every reachable state, whatever the plans are.

  /** Two unfinished transactions hold a region together only if both hold it shared. */
  ghost predicate LocksAgree<Q, G(!new), V, S>(w: World<Q, G, V, S>) {
    forall i, j, g | 0 <= i < |w.txns| && 0 <= j < |w.txns| && i != j && !w.txns[i].done && !w.txns[j].done
      && g in w.txns[i].held && g in w.txns[j].held :: w.txns[i].held[g] == Shared && w.txns[j].held[g] == Shared
  }

  ghost predicate HoldsExclusively<Q, G, V>(t: Txn<Q, G, V>, g: G) { g in t.held && t.held[g] == Exclusive }

  /** What statement k has left behind. */
  ghost predicate StepDone<Q, G, V, S>(p: Program<Q, G, V, S>, t: Txn<Q, G, V>, s: Step<G>) {
    && (!s.Take? ==> s.region in t.seen)
    && (Locks(s) ==> s.region in t.held && (ModeOf(s) == Exclusive ==> t.held[s.region] == Exclusive))
    && (s.Find? ==> p.missing(t.seen[s.region]) || HoldsExclusively(t, s.region))
  }

  /** A region is read by one statement only. */
  ghost predicate ReadsOnce<G>(plan: seq<Step<G>>) {
    forall k, l | 0 <= k < l < |plan| && !plan[k].Take? && !plan[l].Take? :: plan[k].region != plan[l].region
  }

  ghost predicate ReadBefore<G>(plan: seq<Step<G>>, n: nat, g: G) {
    exists k :: 0 <= k < n && k < |plan| && !plan[k].Take? && plan[k].region == g
  }

  ghost predicate TxnSound<Q, G(!new), V, S>(p: Program<Q, G, V, S>, t: Txn<Q, G, V>) {
    var plan := p.plan(t.request);
    && t.at <= |plan|
    && (forall k | 0 <= k < t.at :: StepDone(p, t, plan[k]))
    && (forall g | g in t.seen :: ReadBefore(plan, t.at, g))
  }

  ghost predicate Sound<Q, G(!new), V, S>(p: Program<Q, G, V, S>, w: World<Q, G, V, S>) {
    LocksAgree(w) && forall i | 0 <= i < |w.txns| :: TxnSound(p, w.txns[i])
  }

  ghost predicate PlansReadOnce<Q(!new), G, V, S>(p: Program<Q, G, V, S>) {
    forall q :: ReadsOnce(p.plan(q))
  }

  lemma {:induction false} AdvancedIsSound<Q, G(!new), V, S>(p: Program<Q, G, V, S>, shop: S, t: Txn<Q, G, V>)
    requires ReadsOnce(p.plan(t.request)) && TxnSound(p, t) && t.at < |p.plan(t.request)|
    ensures TxnSound(p, Advanced(p, shop, t, p.plan(t.request)[t.at]))
  {
    var plan := p.plan(t.request);
    var s, t' := plan[t.at], Advanced(p, shop, t, plan[t.at]);
    forall k | 0 <= k < t'.at ensures StepDone(p, t', plan[k]) {
      if k < t.at {
        assert StepDone(p, t, plan[k]);
      }
    }
    forall g | g in t'.seen ensures ReadBefore(plan, t'.at, g) {
      if g in t.seen {
        assert ReadBefore(plan, t.at, g);
      } else {
        assert !plan[t.at].Take? && plan[t.at].region == g;
      }
    }
  }

  lemma {:induction false} AdvanceAgrees<Q, G(!new), V, S>(p: Program<Q, G, V, S>, w: World<Q, G, V, S>, i: nat)
    requires LocksAgree(w) && CanAdvance(p, w, i)
    ensures LocksAgree(Next(p, w, Advance(i)))
  {}

  lemma {:induction false} StepIsSound<Q(!new), G(!new), V, S>(p: Program<Q, G, V, S>, w: World<Q, G, V, S>, e: Event<Q>)
    requires PlansReadOnce(p) && Sound(p, w) && Enabled(p, w, e)
    ensures Sound(p, Next(p, w, e))
  {
    var w' := Next(p, w, e);
    if e.Advance? {
      AdvanceAgrees(p, w, e.i);
      AdvancedIsSound(p, w.shop, w.txns[e.i]);
    }
    forall i | 0 <= i < |w'.txns| ensures TxnSound(p, w'.txns[i]) {
      if i < |w.txns| {
        assert TxnSound(p, w.txns[i]);
      }
    }
  }

  lemma {:induction false} ReachableIsSound<Q(!new), G(!new), V, S>(p: Program<Q, G, V, S>, shop: S, events: seq<Event<Q>>)
    requires PlansReadOnce(p) && Run(p, shop, events).Some?
    ensures Sound(p, Run(p, shop, events).value)
  {
    if events != [] {
      var n := |events| - 1;
      ReachableIsSound(p, shop, events[..n]);
      StepIsSound(p, Run(p, shop, events[..n]).value, events[n]);
    }
  }

  // ------------------------------------------------------------------
  // Serial execution.

  ghost function Regions<G>(plan: seq<Step<G>>): set<G> {
    set k | 0 <= k < |plan| && !plan[k].Take? :: plan[k].region
  }

  ghost function Reads<Q, G, V, S>(p: Program<Q, G, V, S>, shop: S, steps: seq<Step<G>>): map<G, V> {
    map g | g in Regions(steps) :: p.value(shop, g)
  }

  /** What a request reads when nothing runs beside it. */
  ghost function Snapshot<Q, G, V, S>(p: Program<Q, G, V, S>, shop: S, q: Q): map<G, V> {
    Reads(p, shop, p.plan(q))
  }

  ghost function Alone<Q, G, V, S>(p: Program<Q, G, V, S>, shop: S, q: Q): Option<S> {
    p.body(shop, q, Snapshot(p, shop, q))
  }

  ghost function Sequential<Q, G, V, S>(p: Program<Q, G, V, S>, shop: S, requests: seq<Q>): Option<S> {
    if requests == [] then Some(shop)
    else
      match Sequential(p, shop, requests[..|requests| - 1])
      case None => None
      case Some(before) => Alone(p, before, requests[|requests| - 1])
  }

  /** Run alone from a valid shop, a request leaves a valid shop and changes only regions it locks. */
  ghost predicate Framed<Q(!new), G(!new), V(!new), S(!new)>(p: Program<Q, G, V, S>, valid: S -> bool) {
    forall shop, q | valid(shop) && Alone(p, shop, q).Some? ::
      && valid(Alone(p, shop, q).value)
      && forall g :: p.value(Alone(p, shop, q).value, g) != p.value(shop, g) ==> Locked(p.plan(q), g)
  }

  ghost predicate IsFresh<Q, G(!new), V, S>(p: Program<Q, G, V, S>, shop: S, t: Txn<Q, G, V>) {
    forall g | g in t.seen :: t.seen[g] == p.value(shop, g)
  }

  ghost predicate Fresh<Q, G(!new), V, S>(p: Program<Q, G, V, S>, w: World<Q, G, V, S>) {
    forall i | 0 <= i < |w.txns| && !w.txns[i].done :: IsFresh(p, w.shop, w.txns[i])
  }

  /** A commit leaves alone what the other unfinished transactions have read. */
  ghost predicate Undisturbing<Q, G(!new), V, S>(p: Program<Q, G, V, S>, w: World<Q, G, V, S>, e: Event<Q>)
    requires Enabled(p, w, e)
  {
    e.Commit? ==>
      forall i, g | 0 <= i < |w.txns| && i != e.i && !w.txns[i].done && g in w.txns[i].seen ::
        p.value(Next(p, w, e).shop, g) == p.value(w.shop, g)
  }

  lemma {:induction false} CommitterSawAll<Q, G(!new), V, S>(p: Program<Q, G, V, S>, w: World<Q, G, V, S>, i: nat)
    requires i < |w.txns| && TxnSound(p, w.txns[i]) && IsFresh(p, w.shop, w.txns[i]) && w.txns[i].at == |p.plan(w.txns[i].request)|
    ensures w.txns[i].seen == Snapshot(p, w.shop, w.txns[i].request)
  {
    var t := w.txns[i];
    var plan := p.plan(t.request);
    forall g ensures g in t.seen <==> g in Regions(plan) {
      if g in t.seen {
        assert ReadBefore(plan, t.at, g);
      }
      if g in Regions(plan) {
        var k :| 0 <= k < |plan| && !plan[k].Take? && plan[k].region == g;
        assert StepDone(p, t, plan[k]);
      }
    }
  }

  lemma {:induction false} StepIsFresh<Q(!new), G(!new), V, S>(p: Program<Q, G, V, S>, w: World<Q, G, V, S>, e: Event<Q>)
    requires Fresh(p, w) && Enabled(p, w, e) && Undisturbing(p, w, e)
    ensures Fresh(p, Next(p, w, e))
  {
    var w' := Next(p, w, e);
    forall i | 0 <= i < |w'.txns| && !w'.txns[i].done ensures IsFresh(p, w'.shop, w'.txns[i]) {
      if i < |w.txns| {
        assert IsFresh(p, w.shop, w.txns[i]);
      }
    }
  }

  ghost predicate AllUndisturbing<Q(!new), G(!new), V, S>(p: Program<Q, G, V, S>, shop: S, events: seq<Event<Q>>) {
    forall n | 0 <= n < |events| && Run(p, shop, events[..n]).Some? && Enabled(p, Run(p, shop, events[..n]).value, events[n]) ::
      Undisturbing(p, Run(p, shop, events[..n]).value, events[n])
  }

  /** The state a run must be in for its commits to count as one after another. */
  ghost predicate Serial<Q(!new), G(!new), V(!new), S(!new)>(p: Program<Q, G, V, S>, valid: S -> bool, shop: S, w: World<Q, G, V, S>) {
    Sound(p, w) && Fresh(p, w) && valid(w.shop) && Sequential(p, shop, w.commits) == Some(w.shop)
  }

  lemma {:induction false} StepIsSerial<Q(!new), G(!new), V(!new), S(!new)>(p: Program<Q, G, V, S>, valid: S -> bool, shop: S, w: World<Q, G, V, S>, e: Event<Q>)
    requires PlansReadOnce(p) && Framed(p, valid) && Serial(p, valid, shop, w) && Enabled(p, w, e) && Undisturbing(p, w, e)
    ensures Serial(p, valid, shop, Next(p, w, e))
  {
    StepIsSound(p, w, e);
    StepIsFresh(p, w, e);
    if e.Commit? {
      CommitterSawAll(p, w, e.i);
      var q := w.txns[e.i].request;
      assert Alone(p, w.shop, q) == Some(Next(p, w, e).shop);
      assert (w.commits + [q])[..|w.commits|] == w.commits;
    }
  }

  lemma {:induction false} PrefixOfRun<Q, G, V, S>(p: Program<Q, G, V, S>, shop: S, events: seq<Event<Q>>)
    requires events != [] && Run(p, shop, events).Some?
    ensures var n := |events| - 1;
            && Run(p, shop, events[..n]).Some? && Enabled(p, Run(p, shop, events[..n]).value, events[n])
            && Run(p, shop, events) == Some(Next(p, Run(p, shop, events[..n]).value, events[n]))
            && forall m | 0 <= m <= n :: events[..n][..m] == events[..m]
  {}

  /** If no commit changes what an unfinished transaction has read, the shop is what the committed requests make of it one after another. */
  lemma {:induction false} UndisturbedIsSerial<Q(!new), G(!new), V(!new), S(!new)>(p: Program<Q, G, V, S>, valid: S -> bool, shop: S, events: seq<Event<Q>>)
    requires PlansReadOnce(p) && Framed(p, valid) && valid(shop)
    requires Run(p, shop, events).Some? && AllUndisturbing(p, shop, events)
    ensures Serial(p, valid, shop, Run(p, shop, events).value)
  {
    if events != [] {
      var n := |events| - 1;
      PrefixOfRun(p, shop, events);
      assert AllUndisturbing(p, shop, events[..n]) by {
        forall m | 0 <= m < n ensures events[..n][m] == events[m] && events[..n][..m] == events[..m] {}
      }
      UndisturbedIsSerial(p, valid, shop, events[..n]);
      StepIsSerial(p, valid, shop, Run(p, shop, events[..n]).value, events[n]);
    }
  }

  // ------------------------------------------------------------------
  // Which requests can disturb each other.

  /** Two statements that cannot both have their locks. */
  ghost predicate Collide<G>(a: seq<Step<G>>, b: seq<Step<G>>) {
    exists k, l :: 0 <= k < |a| && 0 <= l < |b| && Locks(a[k]) && Locks(b[l]) && a[k].region == b[l].region
      && !(ModeOf(a[k]) == Shared && ModeOf(b[l]) == Shared)
  }

  /**
   * Statement k of the reader reads what the writer, run alone, would change, and none of the
   * reader's locks so far keeps the writer from committing.
   */
  ghost predicate ReadsUnguarded<Q, G, V, S>(p: Program<Q, G, V, S>, shop: S, reader: Q, k: nat, writer: Q) {
    var plan := p.plan(reader);
    && k < |plan| && !plan[k].Take? && Alone(p, shop, writer).Some?
    && p.value(Alone(p, shop, writer).value, plan[k].region) != p.value(shop, plan[k].region)
    && (plan[k].Find? ==> p.missing(p.value(shop, plan[k].region)))
    && !Collide(plan[..k + 1], p.plan(writer))
  }

  /** The writer can commit over something the reader has read. */
  ghost predicate Clash<Q, G, V, S>(p: Program<Q, G, V, S>, shop: S, reader: Q, writer: Q) {
    exists k: nat :: ReadsUnguarded(p, shop, reader, k, writer)
  }

  /** No two unfinished transactions clash. */
  ghost predicate Apart<Q, G, V, S>(p: Program<Q, G, V, S>, w: World<Q, G, V, S>) {
    forall i, j | 0 <= i < |w.txns| && 0 <= j < |w.txns| && i != j && !w.txns[i].done && !w.txns[j].done ::
      !Clash(p, w.shop, w.txns[i].request, w.txns[j].request)
  }

  ghost predicate AlwaysApart<Q(!new), G, V, S>(p: Program<Q, G, V, S>, valid: S -> bool, shop: S, events: seq<Event<Q>>) {
    forall n | 0 <= n <= |events| && Run(p, shop, events[..n]).Some? && valid(Run(p, shop, events[..n]).value.shop) ::
      Apart(p, Run(p, shop, events[..n]).value)
  }

  lemma {:induction false} HeldTogether<Q, G(!new), V, S>(p: Program<Q, G, V, S>, w: World<Q, G, V, S>, i: nat, s: Step<G>, j: nat, r: Step<G>)
    requires LocksAgree(w) && Unfinished(w, i) && Unfinished(w, j) && i != j
    requires StepDone(p, w.txns[i], s) && StepDone(p, w.txns[j], r) && Locks(s) && Locks(r) && s.region == r.region
    ensures ModeOf(s) == Shared && ModeOf(r) == Shared
  {}

  /** Locks held at the same time do not collide. */
  lemma {:induction false} HeldDoNotCollide<Q, G(!new), V, S>(p: Program<Q, G, V, S>, w: World<Q, G, V, S>, i: nat, k: nat, j: nat)
    requires Sound(p, w) && Unfinished(w, i) && Unfinished(w, j) && i != j
    requires k < w.txns[i].at && w.txns[j].at == |p.plan(w.txns[j].request)|
    ensures !Collide(p.plan(w.txns[i].request)[..k + 1], p.plan(w.txns[j].request))
  {
    var a, b := p.plan(w.txns[i].request), p.plan(w.txns[j].request);
    forall m, l | 0 <= m <= k && 0 <= l < |b| && Locks(a[m]) && Locks(b[l]) && a[m].region == b[l].region
      ensures ModeOf(a[m]) == Shared && ModeOf(b[l]) == Shared
    {
      assert TxnSound(p, w.txns[i]) && TxnSound(p, w.txns[j]);
      HeldTogether(p, w, i, a[m], j, b[l]);
    }
  }

  lemma {:induction false} DisturbedIsUnguarded<Q, G(!new), V, S>(p: Program<Q, G, V, S>, w: World<Q, G, V, S>, i: nat, j: nat, g: G) returns (k: nat)
    requires Sound(p, w) && Fresh(p, w) && Unfinished(w, i) && CanCommit(p, w, j) && i != j
    requires g in w.txns[i].seen && Locked(p.plan(w.txns[j].request), g)
    ensures var plan := p.plan(w.txns[i].request);
            && k < |plan| && !plan[k].Take? && plan[k].region == g
            && (plan[k].Find? ==> p.missing(p.value(w.shop, g))) && !Collide(plan[..k + 1], p.plan(w.txns[j].request))
  {
    var a, b := p.plan(w.txns[i].request), p.plan(w.txns[j].request);
    assert TxnSound(p, w.txns[i]);
    assert ReadBefore(a, w.txns[i].at, g);
    k :| 0 <= k < w.txns[i].at && !a[k].Take? && a[k].region == g;
    HeldDoNotCollide(p, w, i, k, j);
    assert StepDone(p, w.txns[i], a[k]);
    var l :| 0 <= l < |b| && Locks(b[l]) && b[l].region == g;
    assert StepDone(p, w.txns[j], b[l]);
  }

  lemma {:induction false} ApartIsUndisturbing<Q(!new), G(!new), V(!new), S(!new)>(p: Program<Q, G, V, S>, valid: S -> bool, shop: S, w: World<Q, G, V, S>, e: Event<Q>)
    requires Framed(p, valid) && Serial(p, valid, shop, w) && Enabled(p, w, e) && Apart(p, w)
    ensures Undisturbing(p, w, e)
  {
    if e.Commit? {
      var j, w' := e.i, Next(p, w, e);
      CommitterSawAll(p, w, j);
      assert Alone(p, w.shop, w.txns[j].request) == Some(w'.shop);
      forall i, g | 0 <= i < |w.txns| && i != j && !w.txns[i].done && g in w.txns[i].seen
        ensures p.value(w'.shop, g) == p.value(w.shop, g)
      {
        if p.value(w'.shop, g) != p.value(w.shop, g) {
          var k := DisturbedIsUnguarded(p, w, i, j, g);
          assert ReadsUnguarded(p, w.shop, w.txns[i].request, k, w.txns[j].request);
        }
      }
    }
  }

  /** If no two unfinished transactions ever clash, the shop is what the committed requests make of it one after another. */
  lemma {:induction false} ApartIsSerial<Q(!new), G(!new), V(!new), S(!new)>(p: Program<Q, G, V, S>, valid: S -> bool, shop: S, events: seq<Event<Q>>)
    requires PlansReadOnce(p) && Framed(p, valid) && valid(shop)
    requires Run(p, shop, events).Some? && AlwaysApart(p, valid, shop, events)
    ensures Serial(p, valid, shop, Run(p, shop, events).value)
  {
    if events != [] {
      var n := |events| - 1;
      PrefixOfRun(p, shop, events);
      assert AlwaysApart(p, valid, shop, events[..n]) by {
        forall m | 0 <= m <= n ensures events[..n][..m] == events[..m] {}
      }
      ApartIsSerial(p, valid, shop, events[..n]);
      var w := Run(p, shop, events[..n]).value;
      assert Apart(p, w);
      ApartIsUndisturbing(p, valid, shop, w, events[n]);
      StepIsSerial(p, valid, shop, w, events[n]);
    }
  }

  // ------------------------------------------------------------------
  // A clash can be run into.

  /** The statement locks its region, given the rows there are. */
  ghost predicate LocksAt<Q, G, V, S>(p: Program<Q, G, V, S>, shop: S, s: Step<G>) {
    Locks(s) || (s.Find? && !p.missing(p.value(shop, s.region)))
  }

  /** No statement of a waits for one of b. */
  ghost predicate PassBy<Q, G, V, S>(p: Program<Q, G, V, S>, shop: S, a: seq<Step<G>>, b: seq<Step<G>>) {
    forall k, l | 0 <= k < |a| && 0 <= l < |b| && LocksAt(p, shop, a[k]) && LocksAt(p, shop, b[l]) && a[k].region == b[l].region ::
      ModeOf(a[k]) == Shared && ModeOf(b[l]) == Shared
  }

  ghost predicate NeedsMet<Q, G, V, S>(p: Program<Q, G, V, S>, shop: S, steps: seq<Step<G>>) {
    forall k | 0 <= k < |steps| && steps[k].Need? :: !p.missing(p.value(shop, steps[k].region))
  }

  /** Every lock held was taken by one of the statements, in its mode. */
  ghost predicate HeldBy<Q, G(!new), V, S>(p: Program<Q, G, V, S>, shop: S, t: Txn<Q, G, V>, steps: seq<Step<G>>) {
    forall g | g in t.held ::
      exists k :: 0 <= k < |steps| && LocksAt(p, shop, steps[k]) && steps[k].region == g && t.held[g] == ModeOf(steps[k])
  }

  /** What the others hold does not make the statements of i wait. */
  ghost predicate FreeFor<Q, G, V, S>(p: Program<Q, G, V, S>, w: World<Q, G, V, S>, i: nat, steps: seq<Step<G>>) {
    forall k | 0 <= k < |steps| && LocksAt(p, w.shop, steps[k]) :: Compatible(w, i, steps[k].region, ModeOf(steps[k]))
  }

  lemma {:induction false} RunNext<Q, G, V, S>(p: Program<Q, G, V, S>, shop: S, events: seq<Event<Q>>, w: World<Q, G, V, S>, e: Event<Q>)
    requires Run(p, shop, events) == Some(w) && Enabled(p, w, e)
    ensures Run(p, shop, events + [e]) == Some(Next(p, w, e))
  {
    assert (events + [e])[..|events|] == events;
  }

  lemma {:induction false} HeldByNext<Q, G(!new), V, S>(p: Program<Q, G, V, S>, shop: S, t: Txn<Q, G, V>, plan: seq<Step<G>>)
    requires t.at < |plan| && HeldBy(p, shop, t, plan[..t.at])
    ensures HeldBy(p, shop, Advanced(p, shop, t, plan[t.at]), plan[..t.at + 1])
  {
    var t' := Advanced(p, shop, t, plan[t.at]);
    var steps := plan[..t.at + 1];
    forall g | g in t'.held
      ensures exists k :: 0 <= k < |steps| && LocksAt(p, shop, steps[k]) && steps[k].region == g && t'.held[g] == ModeOf(steps[k])
    {
      if g in t.held && t'.held[g] == t.held[g] {
        var k :| 0 <= k < |plan[..t.at]| && LocksAt(p, shop, plan[..t.at][k]) && plan[..t.at][k].region == g && t.held[g] == ModeOf(plan[..t.at][k]);
        assert steps[k] == plan[..t.at][k];
      } else {
        assert steps[t.at] == plan[t.at];
      }
    }
  }

  lemma {:induction false} ReadsNext<Q, G(!new), V, S>(p: Program<Q, G, V, S>, shop: S, plan: seq<Step<G>>, m: nat, n: nat)
    requires m <= n < |plan|
    ensures Reads(p, shop, plan[m..n + 1])
         == if plan[n].Take? then Reads(p, shop, plan[m..n]) else Reads(p, shop, plan[m..n])[plan[n].region := p.value(shop, plan[n].region)]
  {
    var a, b := plan[m..n], plan[m..n + 1];
    forall g ensures g in Regions(b) <==> g in Regions(a) || (!plan[n].Take? && g == plan[n].region) {
      if g in Regions(a) {
        var k :| 0 <= k < |a| && !a[k].Take? && a[k].region == g;
        assert b[k] == a[k];
      }
      assert b[n - m] == plan[n];
      if g in Regions(b) {
        var k :| 0 <= k < |b| && !b[k].Take? && b[k].region == g;
        assert k < n - m ==> a[k] == b[k];
      }
    }
  }

  lemma {:induction false} StepIsFree<Q, G(!new), V, S>(p: Program<Q, G, V, S>, w: World<Q, G, V, S>, w': World<Q, G, V, S>, i: nat, steps: seq<Step<G>>, m: nat)
    requires m < |steps| && NeedsMet(p, w.shop, steps) && FreeFor(p, w, i, steps)
    requires |w'.txns| == |w.txns| && Unfinished(w', i) && w' == w.(txns := w.txns[i := w'.txns[i]])
    requires w'.txns[i].at < |p.plan(w'.txns[i].request)| && p.plan(w'.txns[i].request)[w'.txns[i].at] == steps[m]
    ensures CanAdvance(p, w', i)
  {
    if LocksAt(p, w.shop, steps[m]) {
      assert Compatible(w, i, steps[m].region, ModeOf(steps[m]));
    }
  }

  /** Only transaction i differs, by the statements from m on. */
  ghost predicate Proceeded<Q, G(!new), V, S>(p: Program<Q, G, V, S>, w: World<Q, G, V, S>, w': World<Q, G, V, S>, i: nat, n: nat)
    requires i < |w.txns| && w.txns[i].at <= n <= |p.plan(w.txns[i].request)|
  {
    var t, plan := w.txns[i], p.plan(w.txns[i].request);
    && |w'.txns| == |w.txns| && w' == w.(txns := w.txns[i := w'.txns[i]])
    && w'.txns[i].request == t.request && w'.txns[i].at == n && !w'.txns[i].done
    && w'.txns[i].seen == t.seen + Reads(p, w.shop, plan[t.at..n])
    && (HeldBy(p, w.shop, t, plan[..t.at]) ==> HeldBy(p, w.shop, w'.txns[i], plan[..n]))
  }

  lemma {:induction false} ProceedOne<Q, G(!new), V, S>(p: Program<Q, G, V, S>, w: World<Q, G, V, S>, w': World<Q, G, V, S>, i: nat, m: nat)
    requires Unfinished(w, i) && w.txns[i].at <= m < |p.plan(w.txns[i].request)|
    requires Proceeded(p, w, w', i, m) && CanAdvance(p, w', i)
    ensures Proceeded(p, w, Next(p, w', Advance(i)), i, m + 1)
  {
    var t, plan := w.txns[i], p.plan(w.txns[i].request);
    ReadsNext(p, w.shop, plan, t.at, m);
    if HeldBy(p, w.shop, t, plan[..t.at]) {
      HeldByNext(p, w.shop, w'.txns[i], plan);
    }
  }

  lemma {:induction false} ProceedOnce<Q, G(!new), V, S>(p: Program<Q, G, V, S>, shop: S, events: seq<Event<Q>>, w: World<Q, G, V, S>, w': World<Q, G, V, S>, i: nat, m: nat, n: nat)
    requires Unfinished(w, i) && w.txns[i].at <= m < n <= |p.plan(w.txns[i].request)|
    requires var steps := p.plan(w.txns[i].request)[w.txns[i].at..n]; NeedsMet(p, w.shop, steps) && FreeFor(p, w, i, steps)
    requires Run(p, shop, events) == Some(w') && Proceeded(p, w, w', i, m)
    ensures CanAdvance(p, w', i) && Run(p, shop, events + [Advance(i)]) == Some(Next(p, w', Advance(i)))
    ensures Proceeded(p, w, Next(p, w', Advance(i)), i, m + 1)
  {
    var at, plan := w.txns[i].at, p.plan(w.txns[i].request);
    assert plan[at..n][m - at] == plan[m];
    StepIsFree(p, w, w', i, plan[at..n], m - at);
    ProceedOne(p, w, w', i, m);
    RunNext(p, shop, events, w', Advance(i));
  }

  /** A transaction that nobody makes wait runs up to statement n. */
  lemma {:induction false} Proceed<Q, G(!new), V, S>(p: Program<Q, G, V, S>, shop: S, events: seq<Event<Q>>, w: World<Q, G, V, S>, i: nat, n: nat)
    returns (events': seq<Event<Q>>, w': World<Q, G, V, S>)
    requires Run(p, shop, events) == Some(w) && Unfinished(w, i) && w.txns[i].at <= n <= |p.plan(w.txns[i].request)|
    requires var steps := p.plan(w.txns[i].request)[w.txns[i].at..n]; NeedsMet(p, w.shop, steps) && FreeFor(p, w, i, steps)
    ensures Run(p, shop, events') == Some(w') && Proceeded(p, w, w', i, n)
  {
    var at, plan := w.txns[i].at, p.plan(w.txns[i].request);
    events', w' := events, w;
    assert Reads(p, w.shop, plan[at..at]) == map[];
    for m := at to n
      invariant Run(p, shop, events') == Some(w') && Proceeded(p, w, w', i, m)
    {
      ProceedOnce(p, shop, events', w, w', i, m, n);
      events', w' := events' + [Advance(i)], Next(p, w', Advance(i));
    }
  }

  /** What the reader has seen when the writer commits after its first n statements. */
  ghost function SeenAcross<Q, G, V, S>(p: Program<Q, G, V, S>, shop: S, after: S, reader: Q, n: nat): map<G, V>
    requires n <= |p.plan(reader)|
  {
    Reads(p, shop, p.plan(reader)[..n]) + Reads(p, after, p.plan(reader)[n..])
  }

  lemma {:induction false} TwoBegin<Q, G(!new), V, S>(p: Program<Q, G, V, S>, shop: S, a: Q, b: Q) returns (events: seq<Event<Q>>, w: World<Q, G, V, S>)
    ensures Run(p, shop, events) == Some(w)
    ensures w == World([Txn(a, 0, map[], map[], false), Txn(b, 0, map[], map[], false)], [], shop)
  {
    events, w := [], World([], [], shop);
    RunNext(p, shop, events, w, Begin(a));
    events, w := events + [Begin(a)], Next(p, w, Begin(a));
    RunNext(p, shop, events, w, Begin(b));
    events, w := events + [Begin(b)], Next(p, w, Begin(b));
  }

  lemma {:induction false} FromStart<Q, G(!new), V, S>(p: Program<Q, G, V, S>, shop: S, events: seq<Event<Q>>, w: World<Q, G, V, S>, i: nat, n: nat)
    returns (events': seq<Event<Q>>, w': World<Q, G, V, S>)
    requires Run(p, shop, events) == Some(w) && i < |w.txns| && w.txns[i] == Txn(w.txns[i].request, 0, map[], map[], false)
    requires var plan := p.plan(w.txns[i].request);
             n <= |plan| && NeedsMet(p, w.shop, plan[..n]) && FreeFor(p, w, i, plan[..n])
    ensures Run(p, shop, events') == Some(w') && |w'.txns| == |w.txns| && w' == w.(txns := w.txns[i := w'.txns[i]])
    ensures var t, plan := w'.txns[i], p.plan(w.txns[i].request);
            t == Txn(w.txns[i].request, n, t.held, Reads(p, w.shop, plan[..n]), false) && HeldBy(p, w.shop, t, plan[..n])
  {
    var plan := p.plan(w.txns[i].request);
    assert plan[0..n] == plan[..n];
    events', w' := Proceed(p, shop, events, w, i, n);
  }

  lemma {:induction false} PassersAreFree<Q, G(!new), V, S>(p: Program<Q, G, V, S>, w: World<Q, G, V, S>, a: seq<Step<G>>, b: seq<Step<G>>)
    requires |w.txns| == 2 && HeldBy(p, w.shop, w.txns[0], a) && PassBy(p, w.shop, a, b)
    ensures FreeFor(p, w, 1, b)
  {
    forall l | 0 <= l < |b| && LocksAt(p, w.shop, b[l]) ensures Compatible(w, 1, b[l].region, ModeOf(b[l])) {
      if b[l].region in w.txns[0].held {
        var k :| 0 <= k < |a| && LocksAt(p, w.shop, a[k]) && a[k].region == b[l].region && w.txns[0].held[b[l].region] == ModeOf(a[k]);
      }
    }
  }

  /** The reader has run its first n statements and the writer all of its own. */
  lemma {:induction false} WriterIsReady<Q, G(!new), V, S>(p: Program<Q, G, V, S>, shop: S, reader: Q, n: nat, writer: Q)
    returns (events: seq<Event<Q>>, w: World<Q, G, V, S>)
    requires n <= |p.plan(reader)| && PassBy(p, shop, p.plan(reader)[..n], p.plan(writer))
    requires NeedsMet(p, shop, p.plan(reader)[..n]) && NeedsMet(p, shop, p.plan(writer))
    ensures Run(p, shop, events) == Some(w) && |w.txns| == 2 && w == World(w.txns, [], shop)
    ensures w.txns[0] == Txn(reader, n, w.txns[0].held, Reads(p, shop, p.plan(reader)[..n]), false)
    ensures w.txns[1] == Txn(writer, |p.plan(writer)|, w.txns[1].held, Snapshot(p, shop, writer), false)
  {
    events, w := TwoBegin(p, shop, reader, writer);
    events, w := FromStart(p, shop, events, w, 0, n);
    var b := p.plan(writer);
    assert b[..|b|] == b;
    PassersAreFree(p, w, p.plan(reader)[..n], b);
    events, w := FromStart(p, shop, events, w, 1, |b|);
  }

  /** Left alone, an unfinished transaction runs to its end. */
  lemma {:induction false} ReaderEnds<Q, G(!new), V, S>(p: Program<Q, G, V, S>, shop: S, events: seq<Event<Q>>, w: World<Q, G, V, S>)
    returns (events': seq<Event<Q>>, w': World<Q, G, V, S>)
    requires Run(p, shop, events) == Some(w) && |w.txns| == 2 && w.txns[1].done && !w.txns[0].done
    requires w.txns[0].at <= |p.plan(w.txns[0].request)| && NeedsMet(p, w.shop, p.plan(w.txns[0].request)[w.txns[0].at..])
    ensures Run(p, shop, events') == Some(w') && |w'.txns| == 2 && w'.commits == w.commits && w'.shop == w.shop
    ensures var t, plan := w.txns[0], p.plan(w.txns[0].request);
            w'.txns[0] == Txn(t.request, |plan|, w'.txns[0].held, t.seen + Reads(p, w.shop, plan[t.at..]), false)
  {
    var plan := p.plan(w.txns[0].request);
    assert plan[w.txns[0].at..|plan|] == plan[w.txns[0].at..];
    events', w' := Proceed(p, shop, events, w, 0, |plan|);
  }

  /**
   * The writer overtakes the reader: a run in which it commits between the reader's first n
   * statements and the rest, whenever those n statements do not make it wait.
   */
  lemma {:induction false} WriterOvertakes<Q, G(!new), V, S>(p: Program<Q, G, V, S>, shop: S, reader: Q, n: nat, writer: Q)
    returns (events: seq<Event<Q>>, w: World<Q, G, V, S>)
    requires n <= |p.plan(reader)| && PassBy(p, shop, p.plan(reader)[..n], p.plan(writer))
    requires NeedsMet(p, shop, p.plan(reader)[..n]) && NeedsMet(p, shop, p.plan(writer)) && Alone(p, shop, writer).Some?
    requires var after := Alone(p, shop, writer).value;
             NeedsMet(p, after, p.plan(reader)[n..]) && p.body(after, reader, SeenAcross(p, shop, after, reader, n)).Some?
    ensures Run(p, shop, events) == Some(w) && w.commits == [writer, reader]
    ensures var after := Alone(p, shop, writer).value;
            p.body(after, reader, SeenAcross(p, shop, after, reader, n)) == Some(w.shop)
  {
    events, w := WriterIsReady(p, shop, reader, n, writer);
    RunNext(p, shop, events, w, Commit(1));
    events, w := events + [Commit(1)], Next(p, w, Commit(1));
    events, w := ReaderEnds(p, shop, events, w);
    RunNext(p, shop, events, w, Commit(0));
    events, w := events + [Commit(0)], Next(p, w, Commit(0));
  }

  /** The writer commits when the reader's remaining statements, if any, read nothing. */
  lemma {:induction false} WriterOvertakesReadings<Q, G(!new), V, S>(p: Program<Q, G, V, S>, shop: S, after: S, reader: Q, n: nat, writer: Q)
    returns (events: seq<Event<Q>>, w: World<Q, G, V, S>)
    requires n <= |p.plan(reader)| && PassBy(p, shop, p.plan(reader)[..n], p.plan(writer))
    requires NeedsMet(p, shop, p.plan(reader)) && NeedsMet(p, shop, p.plan(writer)) && Alone(p, shop, writer) == Some(after)
    requires forall k | n <= k < |p.plan(reader)| :: p.plan(reader)[k].Take?
    requires p.body(after, reader, Snapshot(p, shop, reader)).Some?
    ensures Run(p, shop, events) == Some(w) && w.commits == [writer, reader]
    ensures p.body(after, reader, Snapshot(p, shop, reader)) == Some(w.shop)
  {
    var plan := p.plan(reader);
    assert Reads(p, after, plan[n..]) == map[];
    assert Reads(p, shop, plan[..n]) == Reads(p, shop, plan) by {
      forall g ensures g in Regions(plan[..n]) <==> g in Regions(plan) {
        if g in Regions(plan) {
          var k :| 0 <= k < |plan| && !plan[k].Take? && plan[k].region == g;
          assert plan[..n][k] == plan[k];
        }
      }
    }
    assert SeenAcross(p, shop, after, reader, n) == Snapshot(p, shop, reader);
    events, w := WriterOvertakes(p, shop, reader, n, writer);
  }
}
