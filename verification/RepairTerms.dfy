/** What the workshop books, takes, charges and delivers, told by its requests. */
module RepairTerms {
  import opened Wrappers
  import opened Sums
  import opened Tables
  import opened StockLog
  import opened CashDesk
  import opened Sales
  import opened Repair
  import opened RepairLaws
  import opened TillLaws

  // ------------------------------------------------------------------
  // What a job owes.

  function IdsBelow(n: nat): (r: seq<Id>)
    ensures |r| == n && forall i | 0 <= i < n :: r[i] == i
  {
    seq(n, i requires 0 <= i < n => i)
  }

  function PartCharge(parts: map<Id, Part>, job: Id): Id -> Money {
    (id: Id) => if id in parts && parts[id].job == job then parts[id].price * parts[id].quantity else 0
  }

  function PaymentFor(job: Id): JobPay -> Money { (p: JobPay) => if p.job == job then p.amount else 0 }

  lemma {:induction false} PartsAreSummed(parts: map<Id, Part>, job: Id, n: nat)
    ensures PartsTotal(parts, job, n) == Sum(IdsBelow(n), PartCharge(parts, job))
  {
    if n > 0 {
      PartsAreSummed(parts, job, n - 1);
      assert IdsBelow(n)[..n - 1] == IdsBelow(n - 1);
    }
  }

  lemma {:induction false} PaymentsAreSummed(payments: seq<JobPay>, job: Id)
    ensures PaidTotal(payments, job) == Sum(payments, PaymentFor(job))
  {
    if payments != [] {
      PaymentsAreSummed(payments[..|payments| - 1], job);
    }
  }

  lemma {:induction false} LabourIsSummed(labour: seq<Money>)
    ensures LabourTotal(labour) == Sum(labour, (m: Money) => m)
  {
    if labour != [] {
      LabourIsSummed(labour[..|labour| - 1]);
    }
  }

  /** A job owes its parts, its labour and its additional charges, less its discount and its payments. */
  lemma {:induction false} WhatAJobOwes(w: Workshop, job: Id)
    requires job < |w.jobs|
    ensures var j := w.jobs[job];
            Remaining(w, job) + j.discount + Sum(w.payments, PaymentFor(job))
            == Sum(IdsBelow(w.nextPart), PartCharge(w.parts, job)) + Sum(j.labour, (m: Money) => m) + j.additional
  {
    PartsAreSummed(w.parts, job, w.nextPart);
    PaymentsAreSummed(w.payments, job);
    LabourIsSummed(w.jobs[job].labour);
  }

  // ------------------------------------------------------------------
  // Booking, status and payments.

  /** CASH for a job with a branch needs an open session there and goes into it; other money touches no till. */
  ghost predicate Banked(before: Till, after: Till, branch: Option<Id>, kind: CashKind, pay: JobPayment, job: Id) {
    if pay.means == Cash && branch.Some? then MovedInOpenSession(before, after, branch.value, kind, Inward, pay.amount, JobRef(job)) else after == before
  }

  predicate CanTake(till: Till, branch: Option<Id>, pay: JobPayment) { pay.means == Cash && branch.Some? ==> !NoneOpen(till, branch.value) }

  lemma {:induction false} TakesIff(till: Till, branch: Option<Id>, job: Id, pay: JobPayment, kind: CashKind)
    requires pay.amount > 0
    ensures TakePayment(till, branch, job, pay, kind).Some? <==> CanTake(till, branch, pay)
    ensures TakePayment(till, branch, job, pay, kind).Some? ==> Banked(till, TakePayment(till, branch, job, pay, kind).value, branch, kind, pay, job)
  {
    if branch.Some? {
      OpenSessionIsOpen(till.sessions, branch.value);
    }
  }

  /** A job starts unpaid, unnumbered and without charges; a positive advance is one payment of it, banked as such. */
  lemma {:induction false} BookingStartsAJob(t: Tables, branch: Option<Id>, customer: Option<Id>, advance: Option<JobPayment>)
    ensures var (r, after) := CreateSpec(t, branch, customer, advance);
            var job, paid := |t.workshop.jobs|, advance.Some? && advance.value.amount > 0;
            && (r.Ok? <==> (branch.Some? ==> branch.value in t.branches) && (paid ==> CanTake(t.till, branch, advance.value)))
            && (r.Err? ==> after == t && r.failure == if branch.Some? && branch.value !in t.branches then ForeignKeyViolation else Unprocessable)
            && (r.Ok? ==>
                  && r.value == job && after == t.(till := after.till, workshop := after.workshop)
                  && after.workshop == t.workshop.(
                       jobs := t.workshop.jobs + [Job(branch, customer, Working(0), [], 0, 0, None, SettlementUnpaid)],
                       payments := t.workshop.payments + (if paid then [JobPay(job, advance.value.amount, advance.value.means)] else []))
                  && if paid then Banked(t.till, after.till, branch, RepairAdvance, advance.value, job) else after.till == t.till)
  {
    assert t.workshop.payments + [] == t.workshop.payments;
    if advance.Some? && advance.value.amount > 0 {
      TakesIff(t.till, branch, |t.workshop.jobs|, advance.value, RepairAdvance);
    }
  }

  /** A status other than Delivered is set on any job not delivered, and nothing else of it changes. */
  lemma {:induction false} StatusIsSet(t: Tables, job: Id, stage: nat)
    ensures var (r, after) := StatusSpec(t, job, stage);
            && (r.Ok? <==> stage < 11 && job < |t.workshop.jobs| && t.workshop.jobs[job].status != Delivered)
            && (r.Err? ==> after == t && r.failure == if stage >= 11 then BadRequest else if job >= |t.workshop.jobs| then NotFound else Conflict)
            && (r.Ok? ==> after == t.(workshop := t.workshop.(jobs := t.workshop.jobs[job := t.workshop.jobs[job].(status := Working(stage))])))
  {}

  /** A payment joins the job's payments and is banked, while the job is not delivered. */
  lemma {:induction false} JobPaymentIsTaken(t: Tables, job: Id, pay: JobPayment)
    ensures var (r, after) := JobPaymentSpec(t, job, pay);
            && (r.Ok? <==>
                  && pay.amount > 0 && job < |t.workshop.jobs| && t.workshop.jobs[job].status != Delivered
                  && CanTake(t.till, t.workshop.jobs[job].branch, pay))
            && (r.Err? ==>
                  && after == t
                  && r.failure == if pay.amount <= 0 then BadRequest else if job >= |t.workshop.jobs| then NotFound
                                  else if t.workshop.jobs[job].status == Delivered then Conflict else Unprocessable)
            && (r.Ok? ==>
                  && after == t.(till := after.till, workshop := t.workshop.(payments := t.workshop.payments + [JobPay(job, pay.amount, pay.means)]))
                  && Banked(t.till, after.till, t.workshop.jobs[job].branch, RepairAdvance, pay, job))
  {
    if pay.amount > 0 && job < |t.workshop.jobs| {
      TakesIff(t.till, t.workshop.jobs[job].branch, job, pay, RepairAdvance);
    }
  }

  // ------------------------------------------------------------------
  // Parts.

  predicate LacksStock(t: Tables, branch: Option<Id>, dto: PartDto) {
    dto.product.Some? && branch.Some? &&
      var shelf := Shelf(dto.product.value, branch.value);
      shelf !in t.inventory.stock || t.inventory.stock[shelf] < dto.quantity
  }

  /**
   * A part is written down under the next id. A catalogue product of a job with a branch comes off
   * that branch's shelf, which must hold it, with an OUT movement of the job; any other part is only written down.
   */
  lemma {:induction false} PartIsFitted(t: Tables, job: Id, dto: PartDto)
    ensures var (r, after) := AddPartSpec(t, job, dto);
            && (r.Ok? <==>
                  && dto.quantity > 0 && job < |t.workshop.jobs| && t.workshop.jobs[job].status != Delivered
                  && (dto.product.Some? ==> dto.product.value in t.products)
                  && (dto.product.Some? && t.workshop.jobs[job].branch.Some? ==>
                        var shelf := Shelf(dto.product.value, t.workshop.jobs[job].branch.value);
                        shelf in t.inventory.stock && dto.quantity <= t.inventory.stock[shelf]))
            && (r.Err? ==>
                  && after == t
                  && r.failure == if dto.quantity <= 0 then BadRequest else if job >= |t.workshop.jobs| then NotFound
                                  else if t.workshop.jobs[job].status == Delivered then Conflict
                                  else if LacksStock(t, t.workshop.jobs[job].branch, dto) then Unprocessable else ForeignKeyViolation)
            && (r.Ok? ==>
                  var w, branch := t.workshop, t.workshop.jobs[job].branch;
                  var taken := dto.product.Some? && branch.Some?;
                  && r.value == w.nextPart && after == t.(inventory := after.inventory, workshop := after.workshop)
                  && after.workshop == w.(parts := w.parts[w.nextPart := Part(job, dto.product, dto.quantity, dto.price, taken)], nextPart := w.nextPart + 1)
                  && if taken then
                       var shelf := Shelf(dto.product.value, branch.value);
                       var q := t.inventory.stock[shelf];
                       after.inventory == Inventory(t.inventory.stock[shelf := q - dto.quantity],
                                                    t.inventory.moves + [Movement(shelf, Out, dto.quantity, q, q - dto.quantity, JobRef(job))])
                     else after.inventory == t.inventory)
  {}

  /** A part of a job not delivered is struck out; units that were taken go back to their shelf, if it is still there. */
  lemma {:induction false} PartIsPulled(t: Tables, job: Id, part: Id)
    ensures var (r, after) := RemovePartSpec(t, job, part);
            var w := t.workshop;
            && (r.Ok? <==> job < |w.jobs| && w.jobs[job].status != Delivered && part in w.parts && w.parts[part].job == job)
            && (r.Err? ==> after == t && r.failure == if job < |w.jobs| && w.jobs[job].status == Delivered then Conflict else NotFound)
            && (r.Ok? ==>
                  var p, branch := w.parts[part], w.jobs[job].branch;
                  && after == t.(inventory := after.inventory, workshop := w.(parts := w.parts - {part}))
                  && if p.stockDeducted && p.product.Some? && branch.Some? && Shelf(p.product.value, branch.value) in t.inventory.stock then
                       var shelf := Shelf(p.product.value, branch.value);
                       var q := t.inventory.stock[shelf];
                       after.inventory == Inventory(t.inventory.stock[shelf := q + p.quantity],
                                                    t.inventory.moves + [Movement(shelf, In, p.quantity, q, q + p.quantity, JobRef(job))])
                     else after.inventory == t.inventory)
  {}

  // ------------------------------------------------------------------
  // Delivery.

  /** The workshop with the charges and the settlement of a delivery in it: what was sent replaces what was there. */
  function Settled(w: Workshop, job: Id, dto: DeliveryDto): Workshop
    requires job < |w.jobs|
  {
    var j := w.jobs[job];
    w.(jobs := w.jobs[job := j.(additional := if dto.additional.Some? then dto.additional.value else j.additional,
                                discount := if dto.discount.Some? then dto.discount.value else j.discount)],
       payments := w.payments + (if Settles(dto) then [JobPay(job, dto.settlement.value.amount, dto.settlement.value.means)] else []))
  }

  predicate Settles(dto: DeliveryDto) { dto.settlement.Some? && dto.settlement.value.amount > 0 }

  lemma {:induction false} ClosingIsSettled(w: Workshop, job: Id, dto: DeliveryDto)
    requires job < |w.jobs|
    ensures Closing(w, job, dto) == Settled(w, job, dto)
  {
    assert w.payments + [] == w.payments;
  }

  /** The job has a branch, its settlement can be banked, and a walk-in is left owing nothing. */
  predicate MayDeliver(t: Tables, job: Id, dto: DeliveryDto)
    requires job < |t.workshop.jobs|
  {
    var j := t.workshop.jobs[job];
    && j.branch.Some? && (Settles(dto) ==> CanTake(t.till, j.branch, dto.settlement.value))
    && (j.customer.None? ==> Remaining(Settled(t.workshop, job, dto), job) <= 0)
  }

  /**
   * A job with a branch, not yet delivered, is delivered when its settlement can be banked, a walk-in
   * is left owing nothing, and the next number of its branch is free.
   */
  lemma {:induction false} DeliveryIsAcceptedIff(t: Tables, job: Id, dto: DeliveryDto)
    ensures var (r, after) := DeliverSpec(t, job, dto);
            && (r.Ok? <==>
                  && job < |t.workshop.jobs| && t.workshop.jobs[job].status != Delivered && MayDeliver(t, job, dto)
                  && forall k | 0 <= k < |t.workshop.jobs| :: t.workshop.jobs[k].invoice != Some(NextInvoice(t.workshop, t.workshop.jobs[job].branch.value)))
            && (r.Err? ==>
                  && after == t
                  && r.failure == if job >= |t.workshop.jobs| then NotFound else if t.workshop.jobs[job].status == Delivered then Conflict
                                  else if MayDeliver(t, job, dto) then UniqueViolation else Unprocessable)
  {
    if job < |t.workshop.jobs| {
      ClosingIsSettled(t.workshop, job, dto);
      if Settles(dto) && t.workshop.jobs[job].branch.Some? {
        TakesIff(t.till, t.workshop.jobs[job].branch, job, dto.settlement.value, RepairSettlement);
      }
    }
  }

  /** A delivered job has its charges, its settlement and its branch's next number, and says whether anything is left to pay. */
  lemma {:induction false} DeliveryClosesTheJob(t: Tables, job: Id, dto: DeliveryDto)
    requires DeliverSpec(t, job, dto).0.Ok?
    ensures var (r, after) := DeliverSpec(t, job, dto);
            var branch := t.workshop.jobs[job].branch.value;
            var w := Settled(t.workshop, job, dto);
            && r.value == (if branch in t.workshop.invoiceNext then t.workshop.invoiceNext[branch] else 1)
            && after == t.(till := after.till, workshop := after.workshop)
            && after.workshop == w.(
                 jobs := w.jobs[job := w.jobs[job].(status := Delivered, invoice := Some(r.value),
                                                    settlement := if Remaining(w, job) <= 0 then SettlementPaid else SettlementCredit)],
                 invoiceNext := t.workshop.invoiceNext[branch := r.value + 1])
            && if Settles(dto) then Banked(t.till, after.till, Some(branch), RepairSettlement, dto.settlement.value, job) else after.till == t.till
  {
    ClosingIsSettled(t.workshop, job, dto);
    if Settles(dto) {
      TakesIff(t.till, t.workshop.jobs[job].branch, job, dto.settlement.value, RepairSettlement);
    }
  }
}
