/** Repair jobs: parts that take stock, payments, delivery and settlement. */
module Repair {
  import opened Wrappers
  import opened Tables
  import opened StockLog
  import opened CashDesk
  import opened Sales

  datatype JobPayment = JobPayment(amount: Money, means: Method)
  datatype PartDto = PartDto(product: Option<Id>, quantity: int, price: Money)
  datatype DeliveryDto = DeliveryDto(discount: Option<Money>, additional: Option<Money>, settlement: Option<JobPayment>)

  // ------------------------------------------------------------------
  // The totals of a job.

  function PartPrice(parts: map<Id, Part>, id: Id, job: Id): Money {
    if id in parts && parts[id].job == job then parts[id].quantity * parts[id].price else 0
  }

  /** Parts with an id below upTo. */
  function PartsTotal(parts: map<Id, Part>, job: Id, upTo: nat): Money {
    if upTo == 0 then 0 else PartsTotal(parts, job, upTo - 1) + PartPrice(parts, upTo - 1, job)
  }

  function LabourTotal(labour: seq<Money>): Money {
    if labour == [] then 0 else LabourTotal(labour[..|labour| - 1]) + labour[|labour| - 1]
  }

  function PayFor(p: JobPay, job: Id): Money { if p.job == job then p.amount else 0 }

  function PaidTotal(payments: seq<JobPay>, job: Id): Money {
    if payments == [] then 0 else PaidTotal(payments[..|payments| - 1], job) + PayFor(payments[|payments| - 1], job)
  }

  /** grandTotal - totalPaid of the job. */
  function Remaining(w: Workshop, job: Id): Money
    requires job < |w.jobs|
  {
    var j := w.jobs[job];
    PartsTotal(w.parts, job, w.nextPart) + LabourTotal(j.labour) + j.additional - j.discount - PaidTotal(w.payments, job)
  }

  method SumJob(db: Database, job: Id) returns (parts: Money, paid: Money)
    ensures parts == PartsTotal(db.workshop.parts, job, db.workshop.nextPart)
    ensures paid == PaidTotal(db.workshop.payments, job)
  {
    parts, paid := 0, 0;
    var w := db.workshop;
    for id := 0 to w.nextPart
      invariant parts == PartsTotal(w.parts, job, id)
    {
      if id in w.parts && w.parts[id].job == job {
        parts := parts + w.parts[id].quantity * w.parts[id].price;
      }
    }
    for k := 0 to |w.payments|
      invariant paid == PaidTotal(w.payments[..k], job)
    {
      assert w.payments[..k + 1][..k] == w.payments[..k];
      if w.payments[k].job == job {
        paid := paid + w.payments[k].amount;
      }
    }
    assert w.payments[..|w.payments|] == w.payments;
  }

  method SumLabour(labour: seq<Money>) returns (total: Money)
    ensures total == LabourTotal(labour)
  {
    total := 0;
    for k := 0 to |labour|
      invariant total == LabourTotal(labour[..k])
    {
      assert labour[..k + 1][..k] == labour[..k];
      total := total + labour[k];
    }
    assert labour[..|labour|] == labour;
  }

  // ------------------------------------------------------------------
  // Payments.

  /** CASH for a job with a branch needs that branch's open session; other money needs none. */
  function TakePayment(till: Till, branch: Option<Id>, job: Id, pay: JobPayment, kind: CashKind): Option<Till> {
    if pay.means.Cash? && branch.Some? then BookCash(till, branch.value, kind, Inward, pay.amount, JobRef(job)) else Some(till)
  }

  method ReceivePayment(db: Database, branch: Option<Id>, job: Id, pay: JobPayment, kind: CashKind) returns (ok: bool)
    requires pay.amount > 0
    modifies db
    ensures ok <==> TakePayment(old(db.till), branch, job, pay, kind).Some?
    ensures ok ==> db.Contents() == old(db.Contents()).(
                     till := TakePayment(old(db.till), branch, job, pay, kind).value,
                     workshop := old(db.workshop).(payments := old(db.workshop.payments) + [JobPay(job, pay.amount, pay.means)]))
  {
    if pay.means.Cash? && branch.Some? {
      ok := MoveCash(db, branch.value, kind, Inward, pay.amount, JobRef(job));
      if !ok {
        return;
      }
    }
    db.workshop := db.workshop.(payments := db.workshop.payments + [JobPay(job, pay.amount, pay.means)]);
    return true;
  }

  function NewJob(branch: Option<Id>, customer: Option<Id>): Job {
    Job(branch, customer, Working(0), [], 0, 0, None, SettlementUnpaid)
  }

  function CreateSpec(t: Tables, branch: Option<Id>, customer: Option<Id>, advance: Option<JobPayment>): (Result<Id>, Tables) {
    var job := |t.workshop.jobs|;
    var booked := t.workshop.(jobs := t.workshop.jobs + [NewJob(branch, customer)]);
    if branch.Some? && branch.value !in t.branches then (Err(ForeignKeyViolation), t)
    else if advance.None? || advance.value.amount <= 0 then (Ok(job), t.(workshop := booked))
    else
      match TakePayment(t.till, branch, job, advance.value, RepairAdvance)
      case None => (Err(Unprocessable), t)
      case Some(till) =>
        (Ok(job), t.(till := till, workshop := booked.(payments := booked.payments + [JobPay(job, advance.value.amount, advance.value.means)])))
  }

  method CreateRepairJob(db: Database, branch: Option<Id>, customer: Option<Id>, advance: Option<JobPayment>) returns (r: Result<Id>)
    modifies db
    ensures (r, db.Contents()) == CreateSpec(old(db.Contents()), branch, customer, advance)
  {
    var begin := db.Contents();
    var job := |db.workshop.jobs|;
    if branch.Some? && branch.value !in db.branches {
      return Err(ForeignKeyViolation);
    }
    db.workshop := db.workshop.(jobs := db.workshop.jobs + [Job(branch, customer, Working(0), [], 0, 0, None, SettlementUnpaid)]);
    if advance.Some? && advance.value.amount > 0 {
      var ok := ReceivePayment(db, branch, job, advance.value, RepairAdvance);
      if !ok {
        db.Rollback(begin);
        return Err(Unprocessable);
      }
    }
    return Ok(job);
  }

  const STAGES := 11   // the statuses a caller may set; Delivered is not among them

  function StatusSpec(t: Tables, job: Id, stage: nat): (Result<bool>, Tables) {
    if stage >= STAGES then (Err(BadRequest), t)
    else if job >= |t.workshop.jobs| then (Err(NotFound), t)
    else if t.workshop.jobs[job].status.Delivered? then (Err(Conflict), t)
    else (Ok(true), t.(workshop := t.workshop.(jobs := t.workshop.jobs[job := t.workshop.jobs[job].(status := Working(stage))])))
  }

  method UpdateRepairStatus(db: Database, job: Id, stage: nat) returns (r: Result<bool>)
    modifies db
    ensures (r, db.Contents()) == StatusSpec(old(db.Contents()), job, stage)
  {
    if stage >= STAGES {
      return Err(BadRequest);
    }
    if job >= |db.workshop.jobs| {
      return Err(NotFound);
    }
    var row := db.workshop.jobs[job];
    if row.status.Delivered? {
      return Err(Conflict);
    }
    db.workshop := db.workshop.(jobs := db.workshop.jobs[job := row.(status := Working(stage))]);
    return Ok(true);
  }

  function JobPaymentSpec(t: Tables, job: Id, pay: JobPayment): (Result<bool>, Tables) {
    if pay.amount <= 0 then (Err(BadRequest), t)
    else if job >= |t.workshop.jobs| then (Err(NotFound), t)
    else if t.workshop.jobs[job].status.Delivered? then (Err(Conflict), t)
    else
      match TakePayment(t.till, t.workshop.jobs[job].branch, job, pay, RepairAdvance)
      case None => (Err(Unprocessable), t)
      case Some(till) =>
        (Ok(true), t.(till := till, workshop := t.workshop.(payments := t.workshop.payments + [JobPay(job, pay.amount, pay.means)])))
  }

  method AddRepairPayment(db: Database, job: Id, pay: JobPayment) returns (r: Result<bool>)
    modifies db
    ensures (r, db.Contents()) == JobPaymentSpec(old(db.Contents()), job, pay)
  {
    if pay.amount <= 0 {
      return Err(BadRequest);
    }
    var begin := db.Contents();
    if job >= |db.workshop.jobs| {
      return Err(NotFound);
    }
    if db.workshop.jobs[job].status.Delivered? {
      return Err(Conflict);
    }
    var ok := ReceivePayment(db, db.workshop.jobs[job].branch, job, pay, RepairAdvance);
    if !ok {
      db.Rollback(begin);
      return Err(Unprocessable);
    }
    return Ok(true);
  }

  // ------------------------------------------------------------------
  // Parts.

  predicate TakesStock(branch: Option<Id>, product: Option<Id>) { branch.Some? && product.Some? }

  /** The stock after a part is taken out of it, when it is a catalogue product and the job has a branch. */
  function TakePart(inv: Inventory, branch: Option<Id>, job: Id, dto: PartDto): Result<Inventory> {
    if !TakesStock(branch, dto.product) then Ok(inv)
    else
      var shelf := Shelf(dto.product.value, branch.value);
      if shelf !in inv.stock || inv.stock[shelf] < dto.quantity then Err(Unprocessable)
      else Ok(Post(inv, shelf, Out, dto.quantity, inv.stock[shelf] - dto.quantity, JobRef(job)))
  }

  function AddPartSpec(t: Tables, job: Id, dto: PartDto): (Result<Id>, Tables) {
    if dto.quantity <= 0 then (Err(BadRequest), t)
    else if job >= |t.workshop.jobs| then (Err(NotFound), t)
    else if t.workshop.jobs[job].status.Delivered? then (Err(Conflict), t)
    else
      var branch, w := t.workshop.jobs[job].branch, t.workshop;
      match TakePart(t.inventory, branch, job, dto)
      case Err(e) => (Err(e), t)
      case Ok(inv) =>
        if dto.product.Some? && dto.product.value !in t.products then (Err(ForeignKeyViolation), t)
        else
          var part := Part(job, dto.product, dto.quantity, dto.price, TakesStock(branch, dto.product));
          (Ok(w.nextPart), t.(inventory := inv, workshop := w.(parts := w.parts[w.nextPart := part], nextPart := w.nextPart + 1)))
  }

  method AddRepairPart(db: Database, job: Id, dto: PartDto) returns (r: Result<Id>)
    modifies db
    ensures (r, db.Contents()) == AddPartSpec(old(db.Contents()), job, dto)
  {
    if dto.quantity <= 0 {
      return Err(BadRequest);
    }
    var begin := db.Contents();
    if job >= |db.workshop.jobs| {
      return Err(NotFound);
    }
    var row := db.workshop.jobs[job];
    if row.status.Delivered? {
      return Err(Conflict);
    }
    var deducted := false;
    if dto.product.Some? && row.branch.Some? {
      var shelf := Shelf(dto.product.value, row.branch.value);
      if shelf !in db.inventory.stock {
        return Err(Unprocessable);
      }
      var current := db.inventory.stock[shelf];
      if current < dto.quantity {
        return Err(Unprocessable);
      }
      db.inventory := db.inventory.(stock := db.inventory.stock[shelf := current - dto.quantity]);
      db.inventory := db.inventory.(moves := db.inventory.moves + [Movement(shelf, Out, dto.quantity, current, current - dto.quantity, JobRef(job))]);
      deducted := true;
    }
    if dto.product.Some? && dto.product.value !in db.products {
      db.Rollback(begin);
      return Err(ForeignKeyViolation);
    }
    var id := db.workshop.nextPart;
    db.workshop := db.workshop.(parts := db.workshop.parts[id := Part(job, dto.product, dto.quantity, dto.price, deducted)], nextPart := id + 1);
    return Ok(id);
  }

  /** The stock after a part's units are put back, when they were taken and the row is still there. */
  function PutBack(inv: Inventory, branch: Option<Id>, job: Id, part: Part): Inventory {
    if !part.stockDeducted || !TakesStock(branch, part.product) then inv
    else
      var shelf := Shelf(part.product.value, branch.value);
      if shelf !in inv.stock then inv
      else Post(inv, shelf, In, part.quantity, inv.stock[shelf] + part.quantity, JobRef(job))
  }

  function RemovePartSpec(t: Tables, job: Id, part: Id): (Result<bool>, Tables) {
    var w := t.workshop;
    if job >= |w.jobs| then (Err(NotFound), t)
    else if w.jobs[job].status.Delivered? then (Err(Conflict), t)
    else if part !in w.parts || w.parts[part].job != job then (Err(NotFound), t)
    else (Ok(true), t.(inventory := PutBack(t.inventory, w.jobs[job].branch, job, w.parts[part]), workshop := w.(parts := w.parts - {part})))
  }

  method RemoveRepairPart(db: Database, job: Id, part: Id) returns (r: Result<bool>)
    modifies db
    ensures (r, db.Contents()) == RemovePartSpec(old(db.Contents()), job, part)
  {
    if job >= |db.workshop.jobs| {
      return Err(NotFound);
    }
    var row := db.workshop.jobs[job];
    if row.status.Delivered? {
      return Err(Conflict);
    }
    if part !in db.workshop.parts || db.workshop.parts[part].job != job {
      return Err(NotFound);
    }
    var p := db.workshop.parts[part];
    if p.stockDeducted && p.product.Some? && row.branch.Some? {
      var shelf := Shelf(p.product.value, row.branch.value);
      if shelf in db.inventory.stock {
        var current := db.inventory.stock[shelf];
        db.inventory := db.inventory.(stock := db.inventory.stock[shelf := current + p.quantity]);
        db.inventory := db.inventory.(moves := db.inventory.moves + [Movement(shelf, In, p.quantity, current, current + p.quantity, JobRef(job))]);
      }
    }
    db.workshop := db.workshop.(parts := db.workshop.parts - {part});
    return Ok(true);
  }

  // ------------------------------------------------------------------
  // Delivery.

  function NextInvoice(w: Workshop, branch: Id): nat { if branch in w.invoiceNext then w.invoiceNext[branch] else 1 }

  /** Numbers come from the branch's counter, but the index that keeps them unique spans all branches. */
  predicate InvoiceTaken(w: Workshop, number: nat) {
    exists k :: 0 <= k < |w.jobs| && w.jobs[k].invoice == Some(number)
  }

  predicate HasSettlement(dto: DeliveryDto) { dto.settlement.Some? && dto.settlement.value.amount > 0 }

  function SettlementTill(till: Till, branch: Id, job: Id, dto: DeliveryDto): Option<Till> {
    if HasSettlement(dto) then TakePayment(till, Some(branch), job, dto.settlement.value, RepairSettlement) else Some(till)
  }

  function Charged(j: Job, dto: DeliveryDto): Job {
    j.(additional := if dto.additional.Some? then dto.additional.value else j.additional,
       discount := if dto.discount.Some? then dto.discount.value else j.discount)
  }

  /** The workshop once charges and settlement are in, before the job is marked. */
  function Closing(w: Workshop, job: Id, dto: DeliveryDto): Workshop
    requires job < |w.jobs|
  {
    w.(jobs := w.jobs[job := Charged(w.jobs[job], dto)],
       payments := if HasSettlement(dto) then w.payments + [JobPay(job, dto.settlement.value.amount, dto.settlement.value.means)] else w.payments)
  }

  function Delivery(w: Workshop, job: Id, dto: DeliveryDto, number: nat, branch: Id): Workshop
    requires job < |w.jobs|
  {
    var closing := Closing(w, job, dto);
    var settlement := if Remaining(closing, job) <= 0 then SettlementPaid else SettlementCredit;
    closing.(jobs := closing.jobs[job := closing.jobs[job].(status := Delivered, invoice := Some(number), settlement := settlement)],
             invoiceNext := w.invoiceNext[branch := number + 1])
  }

  /** The checks before the job row is marked; what they accept is the till after the settlement. */
  function CheckDelivery(t: Tables, job: Id, dto: DeliveryDto): Result<Till> {
    var w := t.workshop;
    if job >= |w.jobs| then Err(NotFound)
    else if w.jobs[job].status.Delivered? then Err(Conflict)
    else if w.jobs[job].branch.None? then Err(Unprocessable)
    else
      match SettlementTill(t.till, w.jobs[job].branch.value, job, dto)
      case None => Err(Unprocessable)
      case Some(till) => if w.jobs[job].customer.None? && Remaining(Closing(w, job, dto), job) > 0 then Err(Unprocessable) else Ok(till)
  }

  function DeliverSpec(t: Tables, job: Id, dto: DeliveryDto): (Result<nat>, Tables) {
    match CheckDelivery(t, job, dto)
    case Err(e) => (Err(e), t)
    case Ok(till) =>
      var branch := t.workshop.jobs[job].branch.value;
      var number := NextInvoice(t.workshop, branch);
      if InvoiceTaken(t.workshop, number) then (Err(UniqueViolation), t)
      else (Ok(number), t.(till := till, workshop := Delivery(t.workshop, job, dto, number, branch)))
  }

  method IsInvoiceTaken(w: Workshop, number: nat) returns (taken: bool)
    ensures taken <==> InvoiceTaken(w, number)
  {
    for k := 0 to |w.jobs|
      invariant forall i | 0 <= i < k :: w.jobs[i].invoice != Some(number)
    {
      if w.jobs[k].invoice == Some(number) {
        return true;
      }
    }
    return false;
  }

  lemma {:induction false} PaidTotalSnoc(payments: seq<JobPay>, p: JobPay, job: Id)
    ensures PaidTotal(payments + [p], job) == PaidTotal(payments, job) + PayFor(p, job)
  {
    assert (payments + [p])[..|payments|] == payments;
  }

  method CompleteRepairJob(db: Database, job: Id, dto: DeliveryDto) returns (r: Result<nat>)
    modifies db
    ensures (r, db.Contents()) == DeliverSpec(old(db.Contents()), job, dto)
  {
    var begin := db.Contents();
    if job >= |db.workshop.jobs| {
      return Err(NotFound);
    }
    var row := db.workshop.jobs[job];
    if row.status.Delivered? {
      return Err(Conflict);
    }
    if row.branch.None? {
      return Err(Unprocessable);
    }
    var branch := row.branch.value;
    var number := NextInvoice(db.workshop, branch);
    var partsTotal, totalPaid := SumJob(db, job);
    var labourTotal := SumLabour(row.labour);
    var charged := Charged(row, dto);
    var netTotal := partsTotal + labourTotal + charged.additional - charged.discount;
    db.workshop := db.workshop.(invoiceNext := db.workshop.invoiceNext[branch := number + 1]);
    if HasSettlement(dto) {
      PaidTotalSnoc(db.workshop.payments, JobPay(job, dto.settlement.value.amount, dto.settlement.value.means), job);
      var ok := ReceivePayment(db, Some(branch), job, dto.settlement.value, RepairSettlement);
      if !ok {
        db.Rollback(begin);
        return Err(Unprocessable);
      }
      totalPaid := totalPaid + dto.settlement.value.amount;
    }
    var outstanding := netTotal - totalPaid;
    assert outstanding == Remaining(Closing(begin.workshop, job, dto), job);
    if row.customer.None? && outstanding > 0 {
      db.Rollback(begin);
      return Err(Unprocessable);
    }
    var taken := IsInvoiceTaken(begin.workshop, number);
    if taken {
      db.Rollback(begin);
      return Err(UniqueViolation);
    }
    var settlement := if outstanding <= 0 then SettlementPaid else SettlementCredit;
    db.workshop := db.workshop.(jobs := db.workshop.jobs[job := charged.(status := Delivered, invoice := Some(number), settlement := settlement)]);
    assert db.workshop.jobs == Delivery(begin.workshop, job, dto, number, branch).jobs;
    return Ok(number);
  }
}
