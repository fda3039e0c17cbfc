/** Stock rows, the movement log beside them, and what every stock-writing step keeps. */
module StockLog {
  import opened Wrappers
  import opened Tables

  /** The quantity on a shelf; a missing row reads as zero. */
  function QuantityAt(stock: map<Shelf, int>, shelf: Shelf): int {
    if shelf in stock then stock[shelf] else 0
  }

  /** Writes a stock row and the movement that records the change. */
  function Post(inv: Inventory, shelf: Shelf, kind: MoveKind, quantity: int, resulting: int, reference: Ref): Inventory {
    Inventory(inv.stock[shelf := resulting],
              inv.moves + [Movement(shelf, kind, quantity, QuantityAt(inv.stock, shelf), resulting, reference)])
  }

  // ------------------------------------------------------------------
  // The log is a faithful account of the stock.

  /** One movement applied to a quantity; stock never goes below zero. */
  function Apply(q: int, kind: MoveKind, quantity: int): int {
    Max(0, if kind.In? || kind.TransferIn? then q + quantity else q - quantity)
  }

  /** Replays the movements of one shelf from empty. */
  function Replay(moves: seq<Movement>, shelf: Shelf): int {
    if moves == [] then 0
    else
      var m := moves[|moves| - 1];
      var before := Replay(moves[..|moves| - 1], shelf);
      if m.shelf == shelf then Apply(before, m.kind, m.quantity) else before
  }

  /** The resulting stock of the latest movement of a shelf, zero when there is none. */
  function LastResult(moves: seq<Movement>, shelf: Shelf): int {
    if moves == [] then 0
    else if moves[|moves| - 1].shelf == shelf then moves[|moves| - 1].resulting
    else LastResult(moves[..|moves| - 1], shelf)
  }

  /** Each movement starts where the previous one of its shelf ended, and passes the schema's CHECKs. */
  predicate Chained(moves: seq<Movement>) {
    if moves == [] then true
    else
      var earlier, m := moves[..|moves| - 1], moves[|moves| - 1];
      && Chained(earlier)
      && m.previous == LastResult(earlier, m.shelf)
      && m.quantity > 0 && m.previous >= 0 && m.resulting >= 0
  }

  lemma {:induction false} ChainedAt(moves: seq<Movement>, i: nat)
    requires Chained(moves) && i < |moves|
    ensures moves[i].previous == LastResult(moves[..i], moves[i].shelf)
    ensures moves[i].quantity > 0 && moves[i].previous >= 0 && moves[i].resulting >= 0
  {
    if i < |moves| - 1 {
      ChainedAt(moves[..|moves| - 1], i);
      assert moves[..|moves| - 1][..i] == moves[..i];
    }
  }

  /** The chain is unbroken and replaying it gives the stock, which is nowhere negative. */
  ghost predicate Faithful(inv: Inventory) {
    && Chained(inv.moves)
    && (forall shelf :: Replay(inv.moves, shelf) == QuantityAt(inv.stock, shelf) == LastResult(inv.moves, shelf))
    && (forall shelf | shelf in inv.stock :: inv.stock[shelf] >= 0)
  }

  lemma {:induction false} PostKeepsFaithful(inv: Inventory, shelf: Shelf, kind: MoveKind, quantity: int, resulting: int, reference: Ref)
    requires Faithful(inv) && quantity > 0
    requires resulting == Apply(QuantityAt(inv.stock, shelf), kind, quantity)
    ensures Faithful(Post(inv, shelf, kind, quantity, resulting, reference))
  {
    var after := Post(inv, shelf, kind, quantity, resulting, reference);
    assert after.moves[..|inv.moves|] == inv.moves;
    forall s
      ensures Replay(after.moves, s) == QuantityAt(after.stock, s) == LastResult(after.moves, s)
    {
      assert Replay(inv.moves, s) == QuantityAt(inv.stock, s);
    }
  }

  lemma {:induction false} FaithfulIsNonNegative(inv: Inventory, shelf: Shelf)
    requires Faithful(inv)
    ensures QuantityAt(inv.stock, shelf) >= 0
  {}

  /** Adding units to a shelf, or taking out no more than it holds, with the matching movement. */
  lemma {:induction false} InOrOutKeepsFaithful(inv: Inventory, shelf: Shelf, kind: MoveKind, quantity: int, resulting: int, reference: Ref)
    requires Faithful(inv) && quantity > 0 && resulting >= 0
    requires resulting == QuantityAt(inv.stock, shelf) + if kind.Out? || kind.TransferOut? then -quantity else quantity
    ensures Faithful(Post(inv, shelf, kind, quantity, resulting, reference))
  {
    PostKeepsFaithful(inv, shelf, kind, quantity, resulting, reference);
  }

  /** Creating an empty stock row changes no quantity. */
  lemma {:induction false} EmptyRowKeepsFaithful(inv: Inventory, shelf: Shelf)
    requires Faithful(inv) && shelf !in inv.stock
    ensures Faithful(inv.(stock := inv.stock[shelf := 0]))
  {
    var after := inv.(stock := inv.stock[shelf := 0]);
    forall s
      ensures Replay(after.moves, s) == QuantityAt(after.stock, s) == LastResult(after.moves, s)
    {
      assert Replay(inv.moves, s) == QuantityAt(inv.stock, s);
    }
  }

  // ------------------------------------------------------------------
  // Deducting and restoring request lines.

  /** UPDATE quantity = quantity - n with its OUT movement. */
  function Deduct(inv: Inventory, branch: Id, p: Portion, reference: Ref): Result<Inventory> {
    var shelf := Shelf(p.product, branch);
    if shelf !in inv.stock then Err(ServerError)
    else if inv.stock[shelf] - p.quantity < 0 then Err(CheckViolation)
    else Ok(Post(inv, shelf, Out, p.quantity, inv.stock[shelf] - p.quantity, reference))
  }

  /** UPDATE quantity = quantity + n with its IN movement; missing tells how a lost row fails. */
  function Restore(inv: Inventory, branch: Id, p: Portion, reference: Ref, missing: Failure): Result<Inventory> {
    var shelf := Shelf(p.product, branch);
    if shelf !in inv.stock then Err(missing)
    else Ok(Post(inv, shelf, In, p.quantity, inv.stock[shelf] + p.quantity, reference))
  }

  function DeductAll(inv: Inventory, branch: Id, ps: seq<Portion>, reference: Ref): Result<Inventory>
    decreases |ps|
  {
    if ps == [] then Ok(inv)
    else
      var next :- Deduct(inv, branch, ps[0], reference);
      DeductAll(next, branch, ps[1..], reference)
  }

  function RestoreAll(inv: Inventory, branch: Id, ps: seq<Portion>, reference: Ref, missing: Failure): Result<Inventory>
    decreases |ps|
  {
    if ps == [] then Ok(inv)
    else
      var next :- Restore(inv, branch, ps[0], reference, missing);
      RestoreAll(next, branch, ps[1..], reference, missing)
  }

  /** Units of one product in a request, over all its lines. */
  function Wanted(ps: seq<Portion>, product: Id): int {
    if ps == [] then 0
    else (if ps[0].product == product then ps[0].quantity else 0) + Wanted(ps[1..], product)
  }

  predicate Positive(ps: seq<Portion>) { forall i | 0 <= i < |ps| :: ps[i].quantity > 0 }

  /** The check made before any row is written: per product, not per line. */
  predicate Available(stock: map<Shelf, int>, branch: Id, ps: seq<Portion>) {
    forall i | 0 <= i < |ps| ::
      Shelf(ps[i].product, branch) in stock && Wanted(ps, ps[i].product) <= stock[Shelf(ps[i].product, branch)]
  }

  lemma {:induction false} WantedNonNegative(ps: seq<Portion>, product: Id)
    requires Positive(ps)
    ensures Wanted(ps, product) >= 0
    ensures forall i | 0 <= i < |ps| && ps[i].product == product :: Wanted(ps, product) >= ps[i].quantity
  {
    if ps != [] {
      WantedNonNegative(ps[1..], product);
      forall i | 0 <= i < |ps| && ps[i].product == product
        ensures Wanted(ps, product) >= ps[i].quantity
      {
        assert i > 0 ==> ps[1..][i - 1] == ps[i];
      }
    }
  }

  /** Stock with the request taken out of one branch. */
  ghost predicate IsDeducted(before: map<Shelf, int>, after: map<Shelf, int>, branch: Id, ps: seq<Portion>) {
    && after.Keys == before.Keys
    && forall s | s in before :: after[s] == before[s] - (if s.branch == branch then Wanted(ps, s.product) else 0)
  }

  ghost predicate IsRestored(before: map<Shelf, int>, after: map<Shelf, int>, branch: Id, ps: seq<Portion>) {
    && after.Keys == before.Keys
    && forall s | s in before :: after[s] == before[s] + (if s.branch == branch then Wanted(ps, s.product) else 0)
  }

  lemma {:induction false} AvailableTail(inv: Inventory, branch: Id, ps: seq<Portion>, reference: Ref)
    requires ps != [] && Positive(ps) && Deduct(inv, branch, ps[0], reference).Ok?
    ensures Available(inv.stock, branch, ps)
       <==> Available(Deduct(inv, branch, ps[0], reference).value.stock, branch, ps[1..])
  {
    var after := Deduct(inv, branch, ps[0], reference).value;
    var tail := ps[1..];
    if Available(inv.stock, branch, ps) {
      forall i | 0 <= i < |tail|
        ensures Shelf(tail[i].product, branch) in after.stock && Wanted(tail, tail[i].product) <= after.stock[Shelf(tail[i].product, branch)]
      {
        assert tail[i] == ps[i + 1];
      }
    }
    if Available(after.stock, branch, tail) {
      forall i | 0 <= i < |ps|
        ensures Shelf(ps[i].product, branch) in inv.stock && Wanted(ps, ps[i].product) <= inv.stock[Shelf(ps[i].product, branch)]
      {
        var p := ps[i].product;
        if i > 0 {
          assert tail[i - 1] == ps[i];
        } else if k :| 0 <= k < |tail| && tail[k].product == p {
          assert Wanted(tail, tail[k].product) <= after.stock[Shelf(p, branch)];
        } else {
          WantedAbsent(tail, p);
        }
      }
    }
  }

  lemma {:induction false} WantedAbsent(ps: seq<Portion>, product: Id)
    requires forall i | 0 <= i < |ps| :: ps[i].product != product
    ensures Wanted(ps, product) == 0
  {
    if ps != [] {
      WantedAbsent(ps[1..], product);
    }
  }

  /**
   * The aggregated check is exactly what line-by-line deduction needs: no line ever finds its row
   * missing or drives it below zero if and only if the per-product totals were available, however
   * the lines of a product are placed. The stock then drops by those totals.
   */
  lemma {:induction false} AggregateCheckIsExact(inv: Inventory, branch: Id, ps: seq<Portion>, reference: Ref)
    requires Positive(ps)
    ensures DeductAll(inv, branch, ps, reference).Ok? <==> Available(inv.stock, branch, ps)
    ensures DeductAll(inv, branch, ps, reference).Ok? ==>
              IsDeducted(inv.stock, DeductAll(inv, branch, ps, reference).value.stock, branch, ps)
    decreases |ps|
  {
    if ps != [] {
      WantedNonNegative(ps, ps[0].product);
      assert Available(inv.stock, branch, ps) ==> Wanted(ps, ps[0].product) <= inv.stock[Shelf(ps[0].product, branch)];
      var first := Deduct(inv, branch, ps[0], reference);
      if first.Ok? {
        AvailableTail(inv, branch, ps, reference);
        AggregateCheckIsExact(first.value, branch, ps[1..], reference);
      }
    }
  }

  lemma {:induction false} RestoreAllAdds(inv: Inventory, branch: Id, ps: seq<Portion>, reference: Ref, missing: Failure)
    requires RestoreAll(inv, branch, ps, reference, missing).Ok?
    ensures IsRestored(inv.stock, RestoreAll(inv, branch, ps, reference, missing).value.stock, branch, ps)
    decreases |ps|
  {
    if ps != [] {
      RestoreAllAdds(Restore(inv, branch, ps[0], reference, missing).value, branch, ps[1..], reference, missing);
    }
  }

  /** Returned goods put back first never spoil the availability of replacements checked before. */
  lemma {:induction false} AvailableAfterRestore(inv: Inventory, branch: Id, back: seq<Portion>, out: seq<Portion>, reference: Ref, missing: Failure)
    requires Positive(back) && Available(inv.stock, branch, out)
    requires RestoreAll(inv, branch, back, reference, missing).Ok?
    ensures Available(RestoreAll(inv, branch, back, reference, missing).value.stock, branch, out)
  {
    RestoreAllAdds(inv, branch, back, reference, missing);
    forall product { WantedNonNegative(back, product); }
  }

  lemma {:induction false} DeductKeepsFaithful(inv: Inventory, branch: Id, p: Portion, reference: Ref)
    requires Faithful(inv) && p.quantity > 0 && Deduct(inv, branch, p, reference).Ok?
    ensures Faithful(Deduct(inv, branch, p, reference).value)
  {
    var shelf := Shelf(p.product, branch);
    InOrOutKeepsFaithful(inv, shelf, Out, p.quantity, inv.stock[shelf] - p.quantity, reference);
  }

  lemma {:induction false} DeductAllKeepsFaithful(inv: Inventory, branch: Id, ps: seq<Portion>, reference: Ref)
    requires Faithful(inv) && Positive(ps) && DeductAll(inv, branch, ps, reference).Ok?
    ensures Faithful(DeductAll(inv, branch, ps, reference).value)
    decreases |ps|
  {
    if ps != [] {
      DeductKeepsFaithful(inv, branch, ps[0], reference);
      DeductAllKeepsFaithful(Deduct(inv, branch, ps[0], reference).value, branch, ps[1..], reference);
    }
  }

  lemma {:induction false} RestoreKeepsFaithful(inv: Inventory, branch: Id, p: Portion, reference: Ref, missing: Failure)
    requires Faithful(inv) && p.quantity > 0 && Restore(inv, branch, p, reference, missing).Ok?
    ensures Faithful(Restore(inv, branch, p, reference, missing).value)
  {
    var shelf := Shelf(p.product, branch);
    FaithfulIsNonNegative(inv, shelf);
    InOrOutKeepsFaithful(inv, shelf, In, p.quantity, inv.stock[shelf] + p.quantity, reference);
  }

  lemma {:induction false} RestoreAllKeepsFaithful(inv: Inventory, branch: Id, ps: seq<Portion>, reference: Ref, missing: Failure)
    requires Faithful(inv) && Positive(ps) && RestoreAll(inv, branch, ps, reference, missing).Ok?
    ensures Faithful(RestoreAll(inv, branch, ps, reference, missing).value)
    decreases |ps|
  {
    if ps != [] {
      RestoreKeepsFaithful(inv, branch, ps[0], reference, missing);
      RestoreAllKeepsFaithful(Restore(inv, branch, ps[0], reference, missing).value, branch, ps[1..], reference, missing);
    }
  }

  /** One movement per portion, in order, at its shelf and under one reference. */
  ghost predicate LogsPortions(before: seq<Movement>, after: seq<Movement>, branch: Id, kind: MoveKind, ps: seq<Portion>, reference: Ref) {
    && |after| == |before| + |ps| && before <= after
    && forall i | 0 <= i < |ps| ::
         var m := after[|before| + i];
         m.shelf == Shelf(ps[i].product, branch) && m.kind == kind && m.quantity == ps[i].quantity && m.reference == reference
  }

  lemma {:induction false} DeductionsAreLogged(inv: Inventory, branch: Id, ps: seq<Portion>, reference: Ref)
    requires DeductAll(inv, branch, ps, reference).Ok?
    ensures LogsPortions(inv.moves, DeductAll(inv, branch, ps, reference).value.moves, branch, Out, ps, reference)
    decreases |ps|
  {
    if ps != [] {
      DeductionsAreLogged(Deduct(inv, branch, ps[0], reference).value, branch, ps[1..], reference);
      LogsAnother(inv.moves, Deduct(inv, branch, ps[0], reference).value.moves, DeductAll(inv, branch, ps, reference).value.moves, branch, Out, ps, reference);
    }
  }

  lemma {:induction false} RestorationsAreLogged(inv: Inventory, branch: Id, ps: seq<Portion>, reference: Ref, missing: Failure)
    requires RestoreAll(inv, branch, ps, reference, missing).Ok?
    ensures LogsPortions(inv.moves, RestoreAll(inv, branch, ps, reference, missing).value.moves, branch, In, ps, reference)
    decreases |ps|
  {
    if ps != [] {
      var next := Restore(inv, branch, ps[0], reference, missing).value;
      RestorationsAreLogged(next, branch, ps[1..], reference, missing);
      LogsAnother(inv.moves, next.moves, RestoreAll(inv, branch, ps, reference, missing).value.moves, branch, In, ps, reference);
    }
  }

  lemma {:induction false} LogsAnother(before: seq<Movement>, mid: seq<Movement>, after: seq<Movement>, branch: Id, kind: MoveKind, ps: seq<Portion>, reference: Ref)
    requires ps != [] && LogsPortions(before, mid, branch, kind, ps[..1], reference) && LogsPortions(mid, after, branch, kind, ps[1..], reference)
    ensures LogsPortions(before, after, branch, kind, ps, reference)
  {
    forall i | 0 <= i < |ps|
      ensures var m := after[|before| + i];
              m.shelf == Shelf(ps[i].product, branch) && m.kind == kind && m.quantity == ps[i].quantity && m.reference == reference
    {
      if i > 0 {
        assert after[|mid| + (i - 1)] == after[|before| + i] && ps[1..][i - 1] == ps[i];
      } else {
        assert after[|before|] == mid[|before| + 0] && ps[..1][0] == ps[0];
      }
    }
  }

  // ------------------------------------------------------------------
  // The check itself: totals per product in a Map, then one row lookup per product.

  lemma {:induction false} WantedSnoc(ps: seq<Portion>, p: Portion, product: Id)
    ensures Wanted(ps + [p], product) == Wanted(ps, product) + (if p.product == product then p.quantity else 0)
  {
    if ps == [] {
      assert ps + [p] == [p] && [p][1..] == [];
    } else {
      assert (ps + [p])[1..] == ps[1..] + [p];
      WantedSnoc(ps[1..], p, product);
    }
  }

  method CheckAvailable(db: Database, branch: Id, ps: seq<Portion>) returns (ok: bool)
    ensures ok <==> Available(db.inventory.stock, branch, ps)
  {
    var totals: map<Id, int>, order: seq<Id> := map[], [];
    for i := 0 to |ps|
      invariant forall product :: product in totals <==> exists j :: 0 <= j < i && ps[j].product == product
      invariant forall product | product in totals :: totals[product] == Wanted(ps[..i], product)
      invariant forall product :: product in order <==> product in totals
    {
      assert ps[..i + 1] == ps[..i] + [ps[i]];
      forall product { WantedSnoc(ps[..i], ps[i], product); }
      var product := ps[i].product;
      if product in totals {
        totals := totals[product := totals[product] + ps[i].quantity];
      } else {
        WantedAbsent(ps[..i], product);
        totals := totals[product := ps[i].quantity];
        order := order + [product];
      }
    }
    assert ps[..|ps|] == ps;
    for k := 0 to |order|
      invariant forall j | 0 <= j < k :: Shelf(order[j], branch) in db.inventory.stock && totals[order[j]] <= db.inventory.stock[Shelf(order[j], branch)]
    {
      var shelf := Shelf(order[k], branch);
      if shelf !in db.inventory.stock || db.inventory.stock[shelf] < totals[order[k]] {
        assert order[k] in order;
        var j :| 0 <= j < |ps| && ps[j].product == order[k];
        return false;
      }
    }
    forall i | 0 <= i < |ps|
      ensures Shelf(ps[i].product, branch) in db.inventory.stock && Wanted(ps, ps[i].product) <= db.inventory.stock[Shelf(ps[i].product, branch)]
    {
      assert ps[i].product in order;
    }
    return true;
  }
}
