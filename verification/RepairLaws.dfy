/** The life of a repair job over any run. */
module RepairLaws {
  import opened Wrappers
  import opened Tables
  import opened StockLog
  import opened CashDesk
  import opened Sales
  import opened ProductStock
  import opened Repair

  // ------------------------------------------------------------------
  // Stock taken by jobs.

  function TakenBy(m: Movement, job: Id, product: Id): int {
    if m.reference != JobRef(job) || m.shelf.product != product then 0
    else if m.kind.Out? then m.quantity
    else if m.kind.In? then -m.quantity
    else 0
  }

  /** Units of a product that movements say a job took and did not give back. */
  function NetTaken(moves: seq<Movement>, job: Id, product: Id): int {
    if moves == [] then 0 else NetTaken(moves[..|moves| - 1], job, product) + TakenBy(moves[|moves| - 1], job, product)
  }

  function DeductedPart(parts: map<Id, Part>, id: Id, job: Id, product: Id): int {
    if id in parts && parts[id].job == job && parts[id].stockDeducted && parts[id].product == Some(product) then parts[id].quantity else 0
  }

  /** Units of a product in the job's parts marked stock_deducted. */
  function Deducted(parts: map<Id, Part>, job: Id, product: Id, upTo: nat): int {
    if upTo == 0 then 0 else Deducted(parts, job, product, upTo - 1) + DeductedPart(parts, upTo - 1, job, product)
  }

  predicate PartSound(t: Tables, id: Id)
    requires id in t.workshop.parts
  {
    var w, p := t.workshop, t.workshop.parts[id];
    && id < w.nextPart && p.job < |w.jobs| && p.quantity > 0
    && (p.stockDeducted <==> TakesStock(w.jobs[p.job].branch, p.product))
    && (p.stockDeducted ==> Shelf(p.product.value, w.jobs[p.job].branch.value) in t.inventory.stock)
  }

  ghost predicate PartsAgree(t: Tables) {
    && (forall id | id in t.workshop.parts :: PartSound(t, id))
    && forall job: Id, product: Id :: NetTaken(t.inventory.moves, job, product) == Deducted(t.workshop.parts, job, product, t.workshop.nextPart)
  }

  // ------------------------------------------------------------------
  // Delivery.

  predicate JobSound(w: Workshop, job: Id)
    requires job < |w.jobs|
  {
    var j := w.jobs[job];
    if j.status.Delivered? then
      && j.invoice.Some? && j.branch.Some?
      && j.settlement == (if Remaining(w, job) <= 0 then SettlementPaid else SettlementCredit)
      && (j.customer.None? ==> Remaining(w, job) <= 0)
    else j.invoice.None? && j.settlement == SettlementUnpaid
  }

  predicate JobsSound(w: Workshop) { forall job | 0 <= job < |w.jobs| :: JobSound(w, job) }

  predicate PaymentsSound(w: Workshop) {
    forall k | 0 <= k < |w.payments| :: w.payments[k].job < |w.jobs| && w.payments[k].amount > 0
  }

  predicate DeliveredFrom(w: Workshop, job: Id, branch: Id, number: nat) {
    job < |w.jobs| && w.jobs[job].branch == Some(branch) && w.jobs[job].invoice == Some(number)
  }

  /** Each counter stands just past the numbers its branch used, and no number is used twice anywhere. */
  ghost predicate InvoicesSound(w: Workshop) {
    && (forall i, j | 0 <= i < j < |w.jobs| && w.jobs[i].invoice.Some? :: w.jobs[i].invoice != w.jobs[j].invoice)
    && (forall j | 0 <= j < |w.jobs| && w.jobs[j].invoice.Some? :: w.jobs[j].branch.Some?
          && 1 <= w.jobs[j].invoice.value < NextInvoice(w, w.jobs[j].branch.value))
    && (forall b | b in w.invoiceNext :: w.invoiceNext[b] >= 2 && exists j :: DeliveredFrom(w, j, b, 1))
  }

  ghost predicate RepairInvariant(t: Tables) {
    PartsAgree(t) && JobsSound(t.workshop) && PaymentsSound(t.workshop) && InvoicesSound(t.workshop)
  }

  // ------------------------------------------------------------------
  // How totals react.

  lemma {:induction false} PartsTotalSame(a: map<Id, Part>, b: map<Id, Part>, job: Id, upTo: nat)
    requires forall id | 0 <= id < upTo :: PartPrice(a, id, job) == PartPrice(b, id, job)
    ensures PartsTotal(a, job, upTo) == PartsTotal(b, job, upTo)
  {
    if upTo > 0 {
      PartsTotalSame(a, b, job, upTo - 1);
    }
  }

  lemma {:induction false} DeductedSame(a: map<Id, Part>, b: map<Id, Part>, job: Id, product: Id, upTo: nat)
    requires forall id | 0 <= id < upTo :: DeductedPart(a, id, job, product) == DeductedPart(b, id, job, product)
    ensures Deducted(a, job, product, upTo) == Deducted(b, job, product, upTo)
  {
    if upTo > 0 {
      DeductedSame(a, b, job, product, upTo - 1);
    }
  }

  lemma {:induction false} DeductedWithout(parts: map<Id, Part>, gone: Id, job: Id, product: Id, upTo: nat)
    requires gone in parts && gone < upTo
    ensures Deducted(parts - {gone}, job, product, upTo) == Deducted(parts, job, product, upTo) - DeductedPart(parts, gone, job, product)
  {
    if gone == upTo - 1 {
      DeductedSame(parts, parts - {gone}, job, product, upTo - 1);
    } else {
      DeductedWithout(parts, gone, job, product, upTo - 1);
    }
  }

  lemma {:induction false} NetTakenSnoc(moves: seq<Movement>, m: Movement, job: Id, product: Id)
    ensures NetTaken(moves + [m], job, product) == NetTaken(moves, job, product) + TakenBy(m, job, product)
  {
    assert (moves + [m])[..|moves|] == moves;
  }

  /** A job none of whose parts, charges or payments changed owes what it owed. */
  predicate SameAccount(before: Workshop, after: Workshop, job: Id) {
    && job < |before.jobs| && job < |after.jobs| && after.jobs[job] == before.jobs[job]
    && before.nextPart <= after.nextPart
    && (forall id | 0 <= id < after.nextPart :: PartPrice(after.parts, id, job) == PartPrice(before.parts, id, job))
    && (forall id | before.nextPart <= id < after.nextPart :: PartPrice(before.parts, id, job) == 0)
    && PaidTotal(after.payments, job) == PaidTotal(before.payments, job)
  }

  lemma {:induction false} PartsTotalBeyond(parts: map<Id, Part>, job: Id, from: nat, upTo: nat)
    requires from <= upTo && forall id | from <= id < upTo :: PartPrice(parts, id, job) == 0
    ensures PartsTotal(parts, job, upTo) == PartsTotal(parts, job, from)
  {
    if from < upTo {
      PartsTotalBeyond(parts, job, from, upTo - 1);
    }
  }

  lemma {:induction false} SameAccountKeepsJob(before: Workshop, after: Workshop, job: Id)
    requires SameAccount(before, after, job) && JobSound(before, job)
    ensures Remaining(after, job) == Remaining(before, job) && JobSound(after, job)
  {
    PartsTotalSame(before.parts, after.parts, job, after.nextPart);
    PartsTotalBeyond(before.parts, job, before.nextPart, after.nextPart);
  }

  // ------------------------------------------------------------------
  // Each operation keeps the invariant.

  lemma {:induction false} StatusKeepsRepair(t: Tables, job: Id, stage: nat)
    requires RepairInvariant(t)
    ensures RepairInvariant(StatusSpec(t, job, stage).1)
  {
    var after := StatusSpec(t, job, stage).1;
    if StatusSpec(t, job, stage).0.Ok? {
      forall j | 0 <= j < |after.workshop.jobs| ensures JobSound(after.workshop, j) {
        if j != job {
          assert JobSound(t.workshop, j);
          SameAccountKeepsJob(t.workshop, after.workshop, j);
        } else {
          assert JobSound(t.workshop, j);
        }
      }
      InvoicesUntouched(t.workshop, after.workshop);
    }
  }

  /** Numbers, branches and counters as before. */
  lemma {:induction false} InvoicesUntouched(before: Workshop, after: Workshop)
    requires InvoicesSound(before) && after.invoiceNext == before.invoiceNext && |after.jobs| >= |before.jobs|
    requires forall j | 0 <= j < |before.jobs| :: after.jobs[j].invoice == before.jobs[j].invoice && after.jobs[j].branch == before.jobs[j].branch
    requires forall j | |before.jobs| <= j < |after.jobs| :: after.jobs[j].invoice.None?
    ensures InvoicesSound(after)
  {
    forall b | b in after.invoiceNext ensures exists j :: DeliveredFrom(after, j, b, 1) {
      var j :| DeliveredFrom(before, j, b, 1);
      assert DeliveredFrom(after, j, b, 1);
    }
  }

  /** A payment for a job still open leaves every other job's account alone. */
  lemma {:induction false} PaymentKeepsJobs(before: Workshop, after: Workshop, pay: JobPay)
    requires JobsSound(before) && PaymentsSound(before) && after == before.(payments := before.payments + [pay])
    requires pay.job < |before.jobs| && pay.amount > 0 && !before.jobs[pay.job].status.Delivered?
    ensures JobsSound(after) && PaymentsSound(after)
  {
    forall j | 0 <= j < |after.jobs| ensures JobSound(after, j) {
      assert JobSound(before, j);
      if j != pay.job {
        PaidTotalSnoc(before.payments, pay, j);
        SameAccountKeepsJob(before, after, j);
      }
    }
  }

  lemma {:induction false} PayKeepsRepair(t: Tables, job: Id, pay: JobPayment)
    requires RepairInvariant(t)
    ensures RepairInvariant(JobPaymentSpec(t, job, pay).1)
  {
    var after := JobPaymentSpec(t, job, pay).1;
    if JobPaymentSpec(t, job, pay).0.Ok? {
      PaymentKeepsJobs(t.workshop, after.workshop, JobPay(job, pay.amount, pay.means));
      InvoicesUntouched(t.workshop, after.workshop);
    }
  }

  lemma {:induction false} NoPaymentsYet(payments: seq<JobPay>, job: Id)
    requires forall k | 0 <= k < |payments| :: payments[k].job != job
    ensures PaidTotal(payments, job) == 0
  {
    if payments != [] {
      NoPaymentsYet(payments[..|payments| - 1], job);
    }
  }

  lemma {:induction false} BookingKeepsJobs(before: Workshop, after: Workshop, branch: Option<Id>, customer: Option<Id>)
    requires JobsSound(before) && PaymentsSound(before) && InvoicesSound(before)
    requires after == before.(jobs := before.jobs + [NewJob(branch, customer)])
    ensures JobsSound(after) && PaymentsSound(after) && InvoicesSound(after)
  {
    forall j | 0 <= j < |after.jobs| ensures JobSound(after, j) {
      if j < |before.jobs| {
        assert JobSound(before, j);
        assert forall id | 0 <= id < after.nextPart :: PartPrice(after.parts, id, j) == PartPrice(before.parts, id, j);
        SameAccountKeepsJob(before, after, j);
      }
    }
    InvoicesUntouched(before, after);
  }

  lemma {:induction false} CreateKeepsRepair(t: Tables, branch: Option<Id>, customer: Option<Id>, advance: Option<JobPayment>)
    requires RepairInvariant(t)
    ensures RepairInvariant(CreateSpec(t, branch, customer, advance).1)
  {
    var (r, after) := CreateSpec(t, branch, customer, advance);
    if r.Ok? {
      var booked := t.workshop.(jobs := t.workshop.jobs + [NewJob(branch, customer)]);
      BookingKeepsJobs(t.workshop, booked, branch, customer);
      if advance.Some? && advance.value.amount > 0 {
        var pay := JobPay(|t.workshop.jobs|, advance.value.amount, advance.value.means);
        PaymentKeepsJobs(booked, after.workshop, pay);
        InvoicesUntouched(booked, after.workshop);
      }
      forall id | id in after.workshop.parts ensures PartSound(after, id) {
        assert PartSound(t, id);
      }
    }
  }

  lemma {:induction false} NextPartIsFree(t: Tables)
    requires PartsAgree(t)
    ensures t.workshop.nextPart !in t.workshop.parts
  {
    forall id | id in t.workshop.parts ensures id < t.workshop.nextPart {
      assert PartSound(t, id);
    }
  }

  lemma {:induction false} AddPartKeepsAgreement(t: Tables, job: Id, dto: PartDto)
    requires PartsAgree(t)
    ensures PartsAgree(AddPartSpec(t, job, dto).1)
  {
    var (r, after) := AddPartSpec(t, job, dto);
    if r.Ok? {
      var n := t.workshop.nextPart;
      NextPartIsFree(t);
      forall id | id in after.workshop.parts ensures PartSound(after, id) {
        if id != n { assert PartSound(t, id); }
      }
      forall j: Id, product: Id
        ensures NetTaken(after.inventory.moves, j, product) == Deducted(after.workshop.parts, j, product, n + 1)
      {
        DeductedSame(t.workshop.parts, after.workshop.parts, j, product, n);
        assert NetTaken(t.inventory.moves, j, product) == Deducted(t.workshop.parts, j, product, n);
        if TakesStock(t.workshop.jobs[job].branch, dto.product) {
          NetTakenSnoc(t.inventory.moves, after.inventory.moves[|t.inventory.moves|], j, product);
        }
      }
    }
  }

  lemma {:induction false} AddPartKeepsJobs(t: Tables, job: Id, dto: PartDto)
    requires RepairInvariant(t)
    ensures var w := AddPartSpec(t, job, dto).1.workshop; JobsSound(w) && PaymentsSound(w) && InvoicesSound(w)
  {
    var (r, after) := AddPartSpec(t, job, dto);
    if r.Ok? {
      var n := t.workshop.nextPart;
      NextPartIsFree(t);
      forall j | 0 <= j < |after.workshop.jobs| ensures JobSound(after.workshop, j) {
        assert JobSound(t.workshop, j);
        if j != job {
          SameAccountKeepsJob(t.workshop, after.workshop, j);
        }
      }
      InvoicesUntouched(t.workshop, after.workshop);
    }
  }

  lemma {:induction false} AddPartKeepsRepair(t: Tables, job: Id, dto: PartDto)
    requires RepairInvariant(t)
    ensures RepairInvariant(AddPartSpec(t, job, dto).1)
  {
    AddPartKeepsAgreement(t, job, dto);
    AddPartKeepsJobs(t, job, dto);
  }

  lemma {:induction false} RemovePartKeepsAgreement(t: Tables, job: Id, part: Id)
    requires PartsAgree(t)
    ensures PartsAgree(RemovePartSpec(t, job, part).1)
  {
    var (r, after) := RemovePartSpec(t, job, part);
    if r.Ok? {
      var n, p := t.workshop.nextPart, t.workshop.parts[part];
      assert PartSound(t, part);
      forall id | id in after.workshop.parts ensures PartSound(after, id) {
        assert PartSound(t, id);
      }
      forall j: Id, product: Id
        ensures NetTaken(after.inventory.moves, j, product) == Deducted(after.workshop.parts, j, product, n)
      {
        DeductedWithout(t.workshop.parts, part, j, product, n);
        assert NetTaken(t.inventory.moves, j, product) == Deducted(t.workshop.parts, j, product, n);
        if p.stockDeducted {
          NetTakenSnoc(t.inventory.moves, after.inventory.moves[|t.inventory.moves|], j, product);
        }
      }
    }
  }

  lemma {:induction false} RemovePartKeepsRepair(t: Tables, job: Id, part: Id)
    requires RepairInvariant(t)
    ensures RepairInvariant(RemovePartSpec(t, job, part).1)
  {
    var (r, after) := RemovePartSpec(t, job, part);
    RemovePartKeepsAgreement(t, job, part);
    if r.Ok? {
      forall j | 0 <= j < |after.workshop.jobs| ensures JobSound(after.workshop, j) {
        assert JobSound(t.workshop, j);
        if j != job {
          SameAccountKeepsJob(t.workshop, after.workshop, j);
        }
      }
      InvoicesUntouched(t.workshop, after.workshop);
    }
  }

  lemma {:induction false} DeliveryKeepsJobs(t: Tables, job: Id, dto: DeliveryDto)
    requires RepairInvariant(t) && DeliverSpec(t, job, dto).0.Ok?
    ensures var w := DeliverSpec(t, job, dto).1.workshop; JobsSound(w) && PaymentsSound(w)
  {
    var w, after := t.workshop, DeliverSpec(t, job, dto).1.workshop;
    forall j | 0 <= j < |after.jobs| ensures JobSound(after, j) {
      assert JobSound(w, j);
      if j != job {
        if HasSettlement(dto) {
          PaidTotalSnoc(w.payments, JobPay(job, dto.settlement.value.amount, dto.settlement.value.means), j);
        }
        SameAccountKeepsJob(w, after, j);
      }
    }
  }

  /** Marking one more job with its branch's next number, when no job anywhere has that number. */
  lemma {:induction false} MarkingKeepsInvoices(before: Workshop, after: Workshop, job: Id, branch: Id)
    requires InvoicesSound(before) && job < |before.jobs| == |after.jobs|
    requires before.jobs[job].invoice.None? && !InvoiceTaken(before, NextInvoice(before, branch))
    requires DeliveredFrom(after, job, branch, NextInvoice(before, branch))
    requires after.invoiceNext == before.invoiceNext[branch := NextInvoice(before, branch) + 1]
    requires forall j | 0 <= j < |before.jobs| && j != job ::
               after.jobs[j].invoice == before.jobs[j].invoice && after.jobs[j].branch == before.jobs[j].branch
    ensures InvoicesSound(after)
  {
    forall b | b in after.invoiceNext ensures after.invoiceNext[b] >= 2 && exists j :: DeliveredFrom(after, j, b, 1) {
      if b in before.invoiceNext {
        var j :| DeliveredFrom(before, j, b, 1);
        assert DeliveredFrom(after, j, b, 1);
      } else {
        assert DeliveredFrom(after, job, b, 1);
      }
    }
  }

  lemma {:induction false} DeliveryKeepsInvoices(t: Tables, job: Id, dto: DeliveryDto)
    requires RepairInvariant(t) && DeliverSpec(t, job, dto).0.Ok?
    ensures InvoicesSound(DeliverSpec(t, job, dto).1.workshop)
  {
    assert JobSound(t.workshop, job);
    MarkingKeepsInvoices(t.workshop, DeliverSpec(t, job, dto).1.workshop, job, t.workshop.jobs[job].branch.value);
  }

  lemma {:induction false} DeliverKeepsRepair(t: Tables, job: Id, dto: DeliveryDto)
    requires RepairInvariant(t)
    ensures RepairInvariant(DeliverSpec(t, job, dto).1)
  {
    var (r, after) := DeliverSpec(t, job, dto);
    if r.Ok? {
      DeliveryKeepsJobs(t, job, dto);
      DeliveryKeepsInvoices(t, job, dto);
      forall id | id in after.workshop.parts ensures PartSound(after, id) {
        assert PartSound(t, id);
      }
    }
  }

  // ------------------------------------------------------------------
  // Laws of single jobs.

  /** Adding a part and removing it again puts every shelf and the list of parts back as they were. */
  lemma {:induction false} AddThenRemoveRestores(t: Tables, job: Id, dto: PartDto)
    requires AddPartSpec(t, job, dto).0.Ok? && t.workshop.nextPart !in t.workshop.parts
    ensures var (added, between) := AddPartSpec(t, job, dto);
            var (removed, after) := RemovePartSpec(between, job, added.value);
            && removed.Ok? && after.inventory.stock == t.inventory.stock && after.workshop.parts == t.workshop.parts
            && (TakesStock(t.workshop.jobs[job].branch, dto.product) ==>
                  between.inventory.stock == t.inventory.stock[Shelf(dto.product.value, t.workshop.jobs[job].branch.value) :=
                    t.inventory.stock[Shelf(dto.product.value, t.workshop.jobs[job].branch.value)] - dto.quantity])
  {
    var between := AddPartSpec(t, job, dto).1;
    assert between.workshop.parts - {t.workshop.nextPart} == t.workshop.parts;
  }

  /** Every delivered job keeps its row, its parts and its payments. */
  ghost predicate DeliveredFrozen(before: Workshop, after: Workshop) {
    && |before.jobs| <= |after.jobs| && before.payments <= after.payments
    && forall job | 0 <= job < |before.jobs| && before.jobs[job].status.Delivered? ::
         && after.jobs[job] == before.jobs[job]
         && (forall id :: id in before.parts && before.parts[id].job == job <==> id in after.parts && after.parts[id].job == job)
         && (forall id | id in before.parts && before.parts[id].job == job :: after.parts[id] == before.parts[id])
         && (forall k | |before.payments| <= k < |after.payments| :: after.payments[k].job != job)
  }

  lemma {:induction false} FrozenIsTransitive(a: Workshop, b: Workshop, c: Workshop)
    requires DeliveredFrozen(a, b) && DeliveredFrozen(b, c)
    ensures DeliveredFrozen(a, c)
  {
    forall job | 0 <= job < |a.jobs| && a.jobs[job].status.Delivered?
      ensures forall k | |a.payments| <= k < |c.payments| :: c.payments[k].job != job
    {
      forall k | |a.payments| <= k < |c.payments| ensures c.payments[k].job != job {
        if k < |b.payments| { assert c.payments[k] == b.payments[k]; }
      }
    }
  }

  lemma {:induction false} BookingFreezes(t: Tables, branch: Option<Id>, customer: Option<Id>, advance: Option<JobPayment>)
    ensures DeliveredFrozen(t.workshop, CreateSpec(t, branch, customer, advance).1.workshop)
  {}

  lemma {:induction false} StatusFreezes(t: Tables, job: Id, stage: nat)
    ensures DeliveredFrozen(t.workshop, StatusSpec(t, job, stage).1.workshop)
  {}

  lemma {:induction false} PaymentFreezes(t: Tables, job: Id, pay: JobPayment)
    ensures DeliveredFrozen(t.workshop, JobPaymentSpec(t, job, pay).1.workshop)
  {}

  lemma {:induction false} AddPartFreezes(t: Tables, job: Id, dto: PartDto)
    requires PartsAgree(t)
    ensures DeliveredFrozen(t.workshop, AddPartSpec(t, job, dto).1.workshop)
  {
    var n := t.workshop.nextPart;
    NextPartIsFree(t);
  }

  lemma {:induction false} RemovePartFreezes(t: Tables, job: Id, part: Id)
    ensures DeliveredFrozen(t.workshop, RemovePartSpec(t, job, part).1.workshop)
  {}

  lemma {:induction false} DeliveryFreezes(t: Tables, job: Id, dto: DeliveryDto)
    ensures DeliveredFrozen(t.workshop, DeliverSpec(t, job, dto).1.workshop)
  {}

  /** A delivered job is PAID exactly when nothing remains to pay, otherwise on CREDIT, and never on CREDIT for a walk-in. */
  lemma {:induction false} SettlementMeansBalance(t: Tables, job: Id)
    requires RepairInvariant(t) && job < |t.workshop.jobs| && t.workshop.jobs[job].status.Delivered?
    ensures var j := t.workshop.jobs[job];
            && (j.settlement == SettlementPaid <==> Remaining(t.workshop, job) <= 0)
            && (j.settlement == SettlementCredit <==> Remaining(t.workshop, job) > 0)
            && (j.customer.None? ==> j.settlement == SettlementPaid)
  {
    assert JobSound(t.workshop, job);
  }

  /** Invoice numbers count up in each branch but must be unique over all, so all delivered jobs are of one branch. */
  lemma {:induction false} OneBranchDelivers(w: Workshop, i: Id, j: Id)
    requires InvoicesSound(w) && i < |w.jobs| && j < |w.jobs| && w.jobs[i].invoice.Some? && w.jobs[j].invoice.Some?
    ensures w.jobs[i].branch == w.jobs[j].branch
  {
    var a, b := w.jobs[i].branch.value, w.jobs[j].branch.value;
    var first :| DeliveredFrom(w, first, a, 1);
    var other :| DeliveredFrom(w, other, b, 1);
    assert first == other;
  }

  predicate OnlyBranch(w: Workshop, branch: Id) {
    forall k | 0 <= k < |w.jobs| && w.jobs[k].invoice.Some? :: w.jobs[k].branch == Some(branch)
  }

  /**
   * A delivery that passes every other check commits exactly when no job of another branch has ever
   * been delivered: the first number of a second branch collides with that of the first.
   */
  lemma {:induction false} SecondBranchNeverDelivers(t: Tables, job: Id, dto: DeliveryDto)
    requires RepairInvariant(t) && CheckDelivery(t, job, dto).Ok?
    ensures DeliverSpec(t, job, dto).0.Ok? <==> OnlyBranch(t.workshop, t.workshop.jobs[job].branch.value)
    ensures DeliverSpec(t, job, dto).0.Err? ==> DeliverSpec(t, job, dto).0 == Err(UniqueViolation)
  {
    var w, branch := t.workshop, t.workshop.jobs[job].branch.value;
    if branch in w.invoiceNext {
      NumberedBranchIsOnly(w, branch);
    } else if k :| 0 <= k < |w.jobs| && w.jobs[k].invoice.Some? && w.jobs[k].branch != Some(branch) {
      var first :| DeliveredFrom(w, first, w.jobs[k].branch.value, 1);
      assert InvoiceTaken(w, 1);
    }
  }

  lemma {:induction false} NumberedBranchIsOnly(w: Workshop, branch: Id)
    requires InvoicesSound(w) && branch in w.invoiceNext
    ensures OnlyBranch(w, branch)
  {
    var own :| DeliveredFrom(w, own, branch, 1);
    forall k | 0 <= k < |w.jobs| && w.jobs[k].invoice.Some? ensures w.jobs[k].branch == Some(branch) {
      OneBranchDelivers(w, k, own);
    }
  }

  // ------------------------------------------------------------------
  // Stock and till.

  lemma {:induction false} AddPartKeepsStock(t: Tables, job: Id, dto: PartDto)
    requires StockInvariant(t)
    ensures StockInvariant(AddPartSpec(t, job, dto).1)
  {
    if AddPartSpec(t, job, dto).0.Ok? && TakesStock(t.workshop.jobs[job].branch, dto.product) {
      var shelf := Shelf(dto.product.value, t.workshop.jobs[job].branch.value);
      InOrOutKeepsFaithful(t.inventory, shelf, Out, dto.quantity, t.inventory.stock[shelf] - dto.quantity, JobRef(job));
    }
  }

  lemma {:induction false} RemovePartKeepsStock(t: Tables, job: Id, part: Id)
    requires StockInvariant(t) && PartsAgree(t)
    ensures StockInvariant(RemovePartSpec(t, job, part).1)
  {
    if RemovePartSpec(t, job, part).0.Ok? {
      var p, branch := t.workshop.parts[part], t.workshop.jobs[job].branch;
      assert PartSound(t, part);
      if p.stockDeducted {
        var shelf := Shelf(p.product.value, branch.value);
        FaithfulIsNonNegative(t.inventory, shelf);
        InOrOutKeepsFaithful(t.inventory, shelf, In, p.quantity, t.inventory.stock[shelf] + p.quantity, JobRef(job));
      }
    }
  }

  lemma {:induction false} TakingKeepsTill(till: Till, expenses: seq<Expense>, branch: Option<Id>, job: Id, pay: JobPayment, kind: CashKind)
    requires TillInvariant(till) && ExpensesNet(expenses, till.moves) && !kind.ExpenseMove? && TakePayment(till, branch, job, pay, kind).Some?
    ensures var after := TakePayment(till, branch, job, pay, kind).value;
            TillInvariant(after) && ClosedStayFinal(till, after) && ExpensesNet(expenses, after.moves)
  {
    if pay.means.Cash? && branch.Some? {
      BookCashKeepsTill(till, expenses, branch.value, kind, Inward, pay.amount, JobRef(job));
    }
  }

  ghost predicate TillKept(t: Tables, after: Tables) {
    TillInvariant(after.till) && ClosedStayFinal(t.till, after.till) && ExpensesNet(after.expenses, after.till.moves)
  }

  lemma {:induction false} CreateKeepsTill(t: Tables, branch: Option<Id>, customer: Option<Id>, advance: Option<JobPayment>)
    requires TillInvariant(t.till) && ExpensesNet(t.expenses, t.till.moves)
    ensures TillKept(t, CreateSpec(t, branch, customer, advance).1)
  {
    if CreateSpec(t, branch, customer, advance).0.Ok? && advance.Some? && advance.value.amount > 0 {
      TakingKeepsTill(t.till, t.expenses, branch, |t.workshop.jobs|, advance.value, RepairAdvance);
    }
  }

  lemma {:induction false} PayKeepsTill(t: Tables, job: Id, pay: JobPayment)
    requires TillInvariant(t.till) && ExpensesNet(t.expenses, t.till.moves)
    ensures TillKept(t, JobPaymentSpec(t, job, pay).1)
  {
    if JobPaymentSpec(t, job, pay).0.Ok? {
      TakingKeepsTill(t.till, t.expenses, t.workshop.jobs[job].branch, job, pay, RepairAdvance);
    }
  }

  lemma {:induction false} DeliverKeepsTill(t: Tables, job: Id, dto: DeliveryDto)
    requires TillInvariant(t.till) && ExpensesNet(t.expenses, t.till.moves)
    ensures TillKept(t, DeliverSpec(t, job, dto).1)
  {
    if DeliverSpec(t, job, dto).0.Ok? && HasSettlement(dto) {
      TakingKeepsTill(t.till, t.expenses, t.workshop.jobs[job].branch, job, dto.settlement.value, RepairSettlement);
    }
  }

  // ------------------------------------------------------------------
  // The till's account of a job.

  predicate IsJobMoney(m: CashMove, job: Id) { (m.kind.RepairAdvance? || m.kind.RepairSettlement?) && m.reference == JobRef(job) }

  /** Money the cash movements say came in for a job. */
  function JobCash(moves: seq<CashMove>, job: Id): Money {
    if moves == [] then 0
    else
      var m := moves[|moves| - 1];
      JobCash(moves[..|moves| - 1], job) + (if IsJobMoney(m, job) then Signed(m) else 0)
  }

  /** The job's CASH payments. */
  function CashPaid(payments: seq<JobPay>, job: Id): Money {
    if payments == [] then 0
    else
      var p := payments[|payments| - 1];
      CashPaid(payments[..|payments| - 1], job) + (if p.job == job && p.means.Cash? then p.amount else 0)
  }

  function CashExpected(w: Workshop, job: Id): Money {
    if job < |w.jobs| && w.jobs[job].branch.Some? then CashPaid(w.payments, job) else 0
  }

  /** The till holds exactly the CASH payments of jobs that have a branch. */
  ghost predicate CashAgrees(t: Tables) { forall job: Id :: JobCash(t.till.moves, job) == CashExpected(t.workshop, job) }

  lemma {:induction false} JobCashSnoc(moves: seq<CashMove>, m: CashMove, job: Id)
    ensures JobCash(moves + [m], job) == JobCash(moves, job) + (if IsJobMoney(m, job) then Signed(m) else 0)
  {
    assert (moves + [m])[..|moves|] == moves;
  }

  /** Any other movement keeps the account of jobs exactly when it is not a repair payment naming a job. */
  lemma {:induction false} OtherMovesKeepCashIff(t: Tables, after: Tables, m: CashMove)
    requires CashAgrees(t) && m.amount > 0 && after.workshop == t.workshop && after.till.moves == t.till.moves + [m]
    ensures CashAgrees(after) <==> !((m.kind.RepairAdvance? || m.kind.RepairSettlement?) && m.reference.JobRef?)
  {
    forall job: Id { JobCashSnoc(t.till.moves, m, job); }
    if (m.kind.RepairAdvance? || m.kind.RepairSettlement?) && m.reference.JobRef? {
      var job := m.reference.job;
      assert JobCash(t.till.moves, job) == CashExpected(t.workshop, job);
      assert JobCash(after.till.moves, job) != CashExpected(after.workshop, job);
    }
  }

  lemma {:induction false} CashPaidSnoc(payments: seq<JobPay>, p: JobPay, job: Id)
    ensures CashPaid(payments + [p], job) == CashPaid(payments, job) + (if p.job == job && p.means.Cash? then p.amount else 0)
  {
    assert (payments + [p])[..|payments|] == payments;
  }

  predicate SameBranches(before: Workshop, after: Workshop) {
    |after.jobs| == |before.jobs| && forall j | 0 <= j < |before.jobs| :: after.jobs[j].branch == before.jobs[j].branch
  }

  lemma {:induction false} PaymentKeepsCash(t: Tables, after: Tables, job: Id, pay: JobPayment, kind: CashKind)
    requires CashAgrees(t) && job < |t.workshop.jobs| && SameBranches(t.workshop, after.workshop)
    requires pay.amount > 0 && (kind.RepairAdvance? || kind.RepairSettlement?)
    requires TakePayment(t.till, t.workshop.jobs[job].branch, job, pay, kind) == Some(after.till)
    requires after.workshop.payments == t.workshop.payments + [JobPay(job, pay.amount, pay.means)]
    ensures CashAgrees(after)
  {
    forall j: Id ensures JobCash(after.till.moves, j) == CashExpected(after.workshop, j) {
      assert JobCash(t.till.moves, j) == CashExpected(t.workshop, j);
      CashPaidSnoc(t.workshop.payments, JobPay(job, pay.amount, pay.means), j);
      if after.till != t.till {
        JobCashSnoc(t.till.moves, after.till.moves[|t.till.moves|], j);
      }
    }
  }

  lemma {:induction false} NoCashYet(payments: seq<JobPay>, job: Id)
    requires forall k | 0 <= k < |payments| :: payments[k].job != job
    ensures CashPaid(payments, job) == 0
  {
    if payments != [] {
      NoCashYet(payments[..|payments| - 1], job);
    }
  }

  lemma {:induction false} CreateKeepsCash(t: Tables, branch: Option<Id>, customer: Option<Id>, advance: Option<JobPayment>)
    requires CashAgrees(t) && PaymentsSound(t.workshop)
    ensures CashAgrees(CreateSpec(t, branch, customer, advance).1)
  {
    var (r, after) := CreateSpec(t, branch, customer, advance);
    if r.Ok? {
      var job := |t.workshop.jobs|;
      var booked := t.(workshop := t.workshop.(jobs := t.workshop.jobs + [NewJob(branch, customer)]));
      NoCashYet(t.workshop.payments, job);
      forall j: Id ensures JobCash(booked.till.moves, j) == CashExpected(booked.workshop, j) {
        assert JobCash(t.till.moves, j) == CashExpected(t.workshop, j);
      }
      if advance.Some? && advance.value.amount > 0 {
        PaymentKeepsCash(booked, after, job, advance.value, RepairAdvance);
      }
    }
  }

  lemma {:induction false} PayKeepsCash(t: Tables, job: Id, pay: JobPayment)
    requires CashAgrees(t)
    ensures CashAgrees(JobPaymentSpec(t, job, pay).1)
  {
    if JobPaymentSpec(t, job, pay).0.Ok? {
      PaymentKeepsCash(t, JobPaymentSpec(t, job, pay).1, job, pay, RepairAdvance);
    }
  }

  lemma {:induction false} DeliverKeepsCash(t: Tables, job: Id, dto: DeliveryDto)
    requires CashAgrees(t)
    ensures CashAgrees(DeliverSpec(t, job, dto).1)
  {
    var (r, after) := DeliverSpec(t, job, dto);
    if r.Ok? {
      if HasSettlement(dto) {
        PaymentKeepsCash(t, after, job, dto.settlement.value, RepairSettlement);
      } else {
        SameMoneyKeepsCash(t, after);
      }
    }
  }

  lemma {:induction false} SameMoneyKeepsCash(t: Tables, after: Tables)
    requires CashAgrees(t) && after.till.moves == t.till.moves
    requires after.workshop.payments == t.workshop.payments && SameBranches(t.workshop, after.workshop)
    ensures CashAgrees(after)
  {
    forall j: Id ensures JobCash(after.till.moves, j) == CashExpected(after.workshop, j) {
      assert JobCash(t.till.moves, j) == CashExpected(t.workshop, j);
    }
  }
}
