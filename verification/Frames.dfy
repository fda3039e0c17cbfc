/** What the transactions outside the workshop leave alone: the stock and the cash accounted to repair jobs. */
module Frames {
  import opened Wrappers
  import opened Tables
  import opened StockLog
  import opened StockTransfer
  import opened ProductStock
  import opened CashDesk
  import opened Checkout
  import opened RepairLaws

  /** No stock row disappears and no job takes or gives back a unit. */
  ghost predicate QuietStock(before: Inventory, after: Inventory) {
    && before.stock.Keys <= after.stock.Keys
    && forall job: Id, product: Id :: NetTaken(after.moves, job, product) == NetTaken(before.moves, job, product)
  }

  lemma {:induction false} PostIsQuiet(inv: Inventory, shelf: Shelf, kind: MoveKind, quantity: int, resulting: int, reference: Ref)
    requires !reference.JobRef?
    ensures QuietStock(inv, Post(inv, shelf, kind, quantity, resulting, reference))
  {
    var m := Movement(shelf, kind, quantity, QuantityAt(inv.stock, shelf), resulting, reference);
    forall job: Id, product: Id { NetTakenSnoc(inv.moves, m, job, product); }
  }

  lemma {:induction false} DeductAllIsQuiet(inv: Inventory, branch: Id, ps: seq<Portion>, reference: Ref)
    requires !reference.JobRef? && DeductAll(inv, branch, ps, reference).Ok?
    ensures QuietStock(inv, DeductAll(inv, branch, ps, reference).value)
    decreases |ps|
  {
    if ps != [] {
      var shelf := Shelf(ps[0].product, branch);
      PostIsQuiet(inv, shelf, Out, ps[0].quantity, inv.stock[shelf] - ps[0].quantity, reference);
      DeductAllIsQuiet(Deduct(inv, branch, ps[0], reference).value, branch, ps[1..], reference);
    }
  }

  lemma {:induction false} RestoreAllIsQuiet(inv: Inventory, branch: Id, ps: seq<Portion>, reference: Ref, missing: Failure)
    requires !reference.JobRef? && RestoreAll(inv, branch, ps, reference, missing).Ok?
    ensures QuietStock(inv, RestoreAll(inv, branch, ps, reference, missing).value)
    decreases |ps|
  {
    if ps != [] {
      var shelf := Shelf(ps[0].product, branch);
      PostIsQuiet(inv, shelf, In, ps[0].quantity, inv.stock[shelf] + ps[0].quantity, reference);
      RestoreAllIsQuiet(Restore(inv, branch, ps[0], reference, missing).value, branch, ps[1..], reference, missing);
    }
  }

  lemma {:induction false} WriteAllIsQuiet(inv: Inventory, branch: Id, lines: seq<PreparedLine>, reference: Ref)
    requires !reference.JobRef? && WriteAll(inv, branch, lines, reference).Ok?
    ensures QuietStock(inv, WriteAll(inv, branch, lines, reference).value)
  {
    WriteAllDeducts(inv, branch, lines, reference);
    DeductAllIsQuiet(inv, branch, Portions(lines), reference);
  }

  lemma {:induction false} MoveOneIsQuiet(inv: Inventory, source: Id, destination: Id, item: Portion, reference: Ref)
    requires !reference.JobRef?
    ensures QuietStock(inv, MoveOne(inv, source, destination, item, reference))
  {
    var from, to := Shelf(item.product, source), Shelf(item.product, destination);
    var sent := Post(inv, from, TransferOut, item.quantity, QuantityAt(inv.stock, from) - item.quantity, reference);
    PostIsQuiet(inv, from, TransferOut, item.quantity, QuantityAt(inv.stock, from) - item.quantity, reference);
    PostIsQuiet(sent, to, TransferIn, item.quantity, QuantityAt(sent.stock, to) + item.quantity, reference);
  }

  lemma {:induction false} MoveAllIsQuiet(inv: Inventory, source: Id, destination: Id, items: seq<Portion>, reference: Ref)
    requires !reference.JobRef?
    ensures QuietStock(inv, MoveAll(inv, source, destination, items, reference))
    decreases |items|
  {
    if items != [] {
      MoveOneIsQuiet(inv, source, destination, items[0], reference);
      MoveAllIsQuiet(MoveOne(inv, source, destination, items[0], reference), source, destination, items[1..], reference);
    }
  }

  lemma {:induction false} OpenAllIsQuiet(products: map<Id, Product>, inv: Inventory, branch: Id, items: seq<Portion>)
    requires OpenAll(products, inv, branch, items).Ok?
    ensures QuietStock(inv, OpenAll(products, inv, branch, items).value)
    decreases |items|
  {
    if items != [] {
      var shelf := Shelf(items[0].product, branch);
      var resulting := QuantityAt(inv.stock, shelf) + items[0].quantity;
      PostIsQuiet(inv, shelf, In, items[0].quantity, resulting, NoRef);
      OpenAllIsQuiet(products, Post(inv, shelf, In, items[0].quantity, resulting, NoRef), branch, items[1..]);
    }
  }

  /** Cash movements are as before, or one more that is not a repair job's. */
  ghost predicate QuietTill(before: Till, after: Till) {
    || after.moves == before.moves
    || (|after.moves| == |before.moves| + 1 && after.moves[..|before.moves|] == before.moves && forall job: Id :: !IsJobMoney(after.moves[|before.moves|], job))
  }

  /** The workshop untouched, stock and till quiet: the account of repair jobs still stands. */
  lemma {:induction false} QuietKeepsRepair(t: Tables, after: Tables)
    requires RepairInvariant(t) && CashAgrees(t) && after.workshop == t.workshop
    requires QuietStock(t.inventory, after.inventory) && QuietTill(t.till, after.till)
    ensures RepairInvariant(after) && CashAgrees(after)
  {
    forall id | id in after.workshop.parts ensures PartSound(after, id) {
      assert PartSound(t, id);
    }
    forall job: Id, product: Id
      ensures NetTaken(after.inventory.moves, job, product) == Deducted(after.workshop.parts, job, product, after.workshop.nextPart)
    {
      assert NetTaken(t.inventory.moves, job, product) == Deducted(t.workshop.parts, job, product, t.workshop.nextPart);
    }
    forall job: Id ensures JobCash(after.till.moves, job) == CashExpected(after.workshop, job) {
      assert JobCash(t.till.moves, job) == CashExpected(t.workshop, job);
      if after.till.moves != t.till.moves {
        var m := after.till.moves[|t.till.moves|];
        assert after.till.moves == t.till.moves + [m];
        JobCashSnoc(t.till.moves, m, job);
      }
    }
  }
}
