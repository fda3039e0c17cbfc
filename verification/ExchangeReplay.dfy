/** Answering a repeated exchange from what the first one stored. */
module ExchangeReplay {
  import opened Wrappers
  import opened Tables
  import opened StockLog
  import opened CashDesk
  import opened CustomerLedger
  import opened Checkout
  import opened Bookkeeping
  import opened Sales
  import opened Returns
  import opened Exchange

  // ------------------------------------------------------------------
  // Selecting rows.

  function Select<T>(rows: seq<T>, wanted: T -> bool): seq<T> {
    if rows == [] then []
    else
      var last := rows[|rows| - 1];
      Select(rows[..|rows| - 1], wanted) + (if wanted(last) then [last] else [])
  }

  lemma {:induction false} SelectNone<T>(rows: seq<T>, wanted: T -> bool)
    requires forall k | 0 <= k < |rows| :: !wanted(rows[k])
    ensures Select(rows, wanted) == []
  {
    if rows != [] {
      SelectNone(rows[..|rows| - 1], wanted);
    }
  }

  lemma {:induction false} SelectAppend<T>(rows: seq<T>, more: seq<T>, wanted: T -> bool)
    ensures Select(rows + more, wanted) == Select(rows, wanted) + Select(more, wanted)
  {
    if more == [] {
      assert rows + more == rows;
    } else {
      var n := |more| - 1;
      assert (rows + more)[..|rows + more| - 1] == rows + more[..n];
      SelectAppend(rows, more[..n], wanted);
      assert Select(rows, wanted) + (Select(more[..n], wanted) + (if wanted(more[n]) then [more[n]] else []))
          == (Select(rows, wanted) + Select(more[..n], wanted)) + (if wanted(more[n]) then [more[n]] else []);
    }
  }

  lemma {:induction false} SelectAll<T>(rows: seq<T>, wanted: T -> bool)
    requires forall k | 0 <= k < |rows| :: wanted(rows[k])
    ensures Select(rows, wanted) == rows
  {
    if rows != [] {
      SelectAll(rows[..|rows| - 1], wanted);
    }
  }

  /** Rows of a document, appended together to others, are what selects them. */
  lemma {:induction false} SelectOwn<T>(before: seq<T>, own: seq<T>, wanted: T -> bool)
    requires forall k | 0 <= k < |before| :: !wanted(before[k])
    requires forall k | 0 <= k < |own| :: wanted(own[k])
    ensures Select(before + own, wanted) == own
  {
    SelectAppend(before, own, wanted);
    SelectNone(before, wanted);
    SelectAll(own, wanted);
  }

  /** Rows of other documents added later change nothing. */
  lemma {:induction false} SelectGrown<T>(rows: seq<T>, later: seq<T>, wanted: T -> bool)
    requires rows <= later && forall k | |rows| <= k < |later| :: !wanted(later[k])
    ensures Select(later, wanted) == Select(rows, wanted)
  {
    assert later == rows + later[|rows|..];
    SelectAppend(rows, later[|rows|..], wanted);
    SelectNone(later[|rows|..], wanted);
  }

  function PaymentOf(sale: Id): SalePay -> bool { (p: SalePay) => p.sale == sale }
  function LineOf(sale: Id): SaleLine -> bool { (l: SaleLine) => l.sale == sale }
  function ReturnLineOf(ret: Id): ReturnLine -> bool { (r: ReturnLine) => r.ret == ret }
  function EntryOf(customer: Id, reference: Ref, kind: EntryKind): LedgerEntry -> bool {
    (e: LedgerEntry) => e.customer == customer && e.reference == reference && e.kind == kind
  }
  function LinkedTo(invoice: Number, sale: Id): SalesReturn -> bool {
    (r: SalesReturn) => r.notes == LinkedInvoice(invoice) && r.sale == sale
  }

  /** The first payment that offsets a return, and the return number it names. */
  function FindOffset(rows: seq<SalePay>): Option<Number> {
    if rows == [] then None
    else if rows[0].means.Other? && rows[0].offset.Some? then rows[0].offset
    else FindOffset(rows[1..])
  }

  function FindReturn(refunds: seq<SalesReturn>, number: Number, sale: Id): Option<Id> {
    if refunds == [] then None
    else
      var n := |refunds| - 1;
      if refunds[n].number == number && refunds[n].sale == sale then Some(n) else FindReturn(refunds[..n], number, sale)
  }

  lemma {:induction false} FindUnique(refunds: seq<SalesReturn>, i: Id)
    requires i < |refunds|
    requires forall a, b | 0 <= a < b < |refunds| :: refunds[a].number != refunds[b].number
    ensures FindReturn(refunds, refunds[i].number, refunds[i].sale) == Some(i)
  {
    var n := |refunds| - 1;
    if i < n {
      FindUnique(refunds[..n], i);
    }
  }

  /** The return behind a replacement sale: by its offset payment, else by its notes, else by the invoice in a return's notes. */
  function Locate(b: Books, sale: Id, original: Id): Option<Id>
    requires sale < |b.sales|
  {
    var offset := FindOffset(Select(b.payments, PaymentOf(sale)));
    var byPayment := if offset.Some? then FindReturn(b.refunds, offset.value, original) else None;
    var notes := b.sales[sale].notes;
    var byNotes := if notes.AgainstReturn? then FindReturn(b.refunds, notes.number, original) else None;
    if byPayment.Some? then byPayment
    else if byNotes.Some? then byNotes
    else
      var linked := Select(b.refunds, LinkedTo(b.sales[sale].invoice, original));
      if |linked| == 1 then FindReturn(b.refunds, linked[0].number, original) else None
  }

  function LastBalance(ledger: seq<LedgerEntry>, customer: Id, reference: Ref, kind: EntryKind): Option<Money> {
    var entries := Select(ledger, EntryOf(customer, reference, kind));
    if entries == [] then None else Some(entries[|entries| - 1].balanceAfter)
  }

  datatype ReplayAnswer = NoSale | Unlinked | Replayed(reply: ExchangeReply)

  function BalanceOf(t: Tables, saleId: Id, ret: Id, difference: Money, refund: Option<RefundMethod>): Option<Money>
    requires saleId < |t.books.sales|
  {
    var customer := t.books.sales[saleId].customer;
    if customer.None? then None
    else if difference > 0 then LastBalance(t.ledger, customer.value, SaleRef(saleId), SaleEntry)
    else if difference < 0 && refund == Some(RefundCredit) then LastBalance(t.ledger, customer.value, ReturnRef(ret), ReturnEntry)
    else None
  }

  function Answer(t: Tables, saleId: Id, ret: Id): ExchangeReply
    requires saleId < |t.books.sales| && ret < |t.books.refunds|
  {
    var sale, row := t.books.sales[saleId], t.books.refunds[ret];
    var difference := sale.total - row.total;
    var refund := if difference < 0 then Some(row.refund) else None;
    ExchangeReply(row, ret, Select(t.books.returnLines, ReturnLineOf(ret)),
                  sale, saleId, Select(t.books.lines, LineOf(saleId)), Select(t.books.payments, PaymentOf(saleId)),
                  Max(sale.total - sale.paid, 0), difference, SettlementOf(difference), refund,
                  if refund == Some(RefundCash) then Some(-difference) else None,
                  BalanceOf(t, saleId, ret, difference, refund))
  }

  function Reconstruct(t: Tables, saleId: Id, original: Id): ReplayAnswer {
    if saleId >= |t.books.sales| then NoSale
    else
      match Locate(t.books, saleId, original)
      case None => Unlinked
      case Some(ret) => if ret < |t.books.refunds| then Replayed(Answer(t, saleId, ret)) else Unlinked
  }

  // ------------------------------------------------------------------
  // The replay does not change as the tables grow.

  /** The offset payment leads to the return. */
  predicate FoundByOffset(b: Books, sale: Id, original: Id, ret: Id) {
    var offset := FindOffset(Select(b.payments, PaymentOf(sale)));
    offset.Some? && FindReturn(b.refunds, offset.value, original) == Some(ret)
  }

  lemma {:induction false} FoundReturnIsThere(refunds: seq<SalesReturn>, number: Number, sale: Id)
    ensures var found := FindReturn(refunds, number, sale);
            found.Some? ==> found.value < |refunds| && refunds[found.value].number == number && refunds[found.value].sale == sale
  {
    if refunds != [] {
      FoundReturnIsThere(refunds[..|refunds| - 1], number, sale);
    }
  }

  lemma {:induction false} FoundStaysFound(now: Tables, later: Tables, sale: Id, original: Id, ret: Id)
    requires Grows(now, later) && NumbersAreUnique(later.books) && sale < |now.books.sales|
    requires FoundByOffset(now.books, sale, original, ret)
    ensures ret < |now.books.refunds| && FoundByOffset(later.books, sale, original, ret)
    ensures Locate(now.books, sale, original) == Locate(later.books, sale, original) == Some(ret)
  {
    var offset := FindOffset(Select(now.books.payments, PaymentOf(sale)));
    SelectGrown(now.books.payments, later.books.payments, PaymentOf(sale));
    FoundReturnIsThere(now.books.refunds, offset.value, original);
    assert later.books.refunds[ret] == now.books.refunds[ret];
    FindUnique(later.books.refunds, ret);
  }

  lemma {:induction false} LastBalanceStays(now: Tables, later: Tables, customer: Id, reference: Ref, kind: EntryKind)
    requires Grows(now, later)
    requires (reference.SaleRef? && reference.sale < |now.books.sales|) || (reference.ReturnRef? && reference.ret < |now.books.refunds|)
    ensures LastBalance(later.ledger, customer, reference, kind) == LastBalance(now.ledger, customer, reference, kind)
  {
    SelectGrown(now.ledger, later.ledger, EntryOf(customer, reference, kind));
  }

  lemma {:induction false} AnswerStays(now: Tables, later: Tables, sale: Id, ret: Id)
    requires Grows(now, later) && sale < |now.books.sales| && ret < |now.books.refunds|
    ensures Answer(later, sale, ret) == Answer(now, sale, ret)
  {
    SelectGrown(now.books.payments, later.books.payments, PaymentOf(sale));
    SelectGrown(now.books.lines, later.books.lines, LineOf(sale));
    SelectGrown(now.books.returnLines, later.books.returnLines, ReturnLineOf(ret));
    assert later.books.sales[sale] == now.books.sales[sale];
    assert later.books.refunds[ret] == now.books.refunds[ret];
    var customer := now.books.sales[sale].customer;
    if customer.Some? {
      LastBalanceStays(now, later, customer.value, SaleRef(sale), SaleEntry);
      LastBalanceStays(now, later, customer.value, ReturnRef(ret), ReturnEntry);
    }
  }

  /** Once the offset payment leads to a return, every later replay answers the same. */
  lemma {:induction false} ReplayIsStable(now: Tables, later: Tables, sale: Id, original: Id, ret: Id)
    requires Grows(now, later) && NumbersAreUnique(later.books) && sale < |now.books.sales|
    requires FoundByOffset(now.books, sale, original, ret)
    ensures ret < |now.books.refunds|
    ensures Reconstruct(later, sale, original) == Reconstruct(now, sale, original) == Replayed(Answer(now, sale, ret))
  {
    FoundStaysFound(now, later, sale, original, ret);
    AnswerStays(now, later, sale, ret);
  }

  // ------------------------------------------------------------------
  // Right after an exchange, the replay answers what the exchange answered.

  lemma {:induction false} SettledRowsAreOwn(t: Tables, dto: ExchangeDto, p: Plan, sale: Id, ret: Id, number: Number)
    requires Settle(t, dto, p, sale, ret, number).Ok?
    ensures var rows := Settle(t, dto, p, sale, ret, number).value.rows;
            && rows != [] && rows[0].means.Other? && rows[0].offset == Some(number)
            && (forall k | 0 <= k < |rows| :: rows[k].sale == sale)
            && (forall k | 0 < k < |rows| :: rows[k].offset == None)
  {}

  predicate IsOffset(row: SalePay) { row.means.Other? && row.offset.Some? }

  lemma {:induction false} FindOffsetFinds(rows: seq<SalePay>)
    ensures FindOffset(rows).Some? <==> exists row :: row in rows && IsOffset(row)
    ensures FindOffset(rows).Some? ==> exists row :: row in rows && IsOffset(row) && row.offset == FindOffset(rows)
  {
    if rows != [] {
      FindOffsetFinds(rows[1..]);
      assert rows[0] in rows;
      assert forall row :: row in rows <==> row == rows[0] || row in rows[1..];
    }
  }

  /** Rows read back in any order name the same return, the offset being the only one of its kind. */
  lemma {:induction false} OffsetInAnyOrder(t: Tables, dto: ExchangeDto, p: Plan, sale: Id, ret: Id, number: Number, rows: seq<SalePay>)
    requires Settle(t, dto, p, sale, ret, number).Ok?
    requires multiset(rows) == multiset(Settle(t, dto, p, sale, ret, number).value.rows)
    ensures FindOffset(rows) == Some(number)
  {
    var stored := Settle(t, dto, p, sale, ret, number).value.rows;
    SettledRowsAreOwn(t, dto, p, sale, ret, number);
    FindOffsetFinds(rows);
    forall row ensures row in rows <==> row in stored {
      assert row in rows <==> row in multiset(rows);
      assert row in stored <==> row in multiset(stored);
    }
    assert stored[0] in rows;
  }

  /** A settlement writes at most one ledger entry, for its own document, and answers with its balance. */
  lemma {:induction false} SettledEntries(t: Tables, dto: ExchangeDto, p: Plan, sale: Id, ret: Id, number: Number)
    requires Settle(t, dto, p, sale, ret, number).Ok?
    ensures var s := Settle(t, dto, p, sale, ret, number).value;
            t.ledger <= s.ledger &&
            var own := s.ledger[|t.ledger|..];
            && |own| <= 1
            && s.balanceAfter == (if own == [] then None else Some(own[0].balanceAfter))
            && (own != [] ==> p.customer.Some? && own[0].customer == p.customer.value)
            && (own != [] && Difference(p) > 0 ==> own[0].reference == SaleRef(sale) && own[0].kind == SaleEntry)
            && (own != [] && Difference(p) <= 0 ==> own[0].reference == ReturnRef(ret) && own[0].kind == ReturnEntry)
            && (Difference(p) <= 0 ==> (own != [] <==> p.refund == Some(RefundCredit) && p.customer.Some?))
  {}

  ghost predicate Exchanged(t: Tables, dto: ExchangeDto) {
    ExchangeSpec(t, dto).0.Ok? && RowsBelong(t.books) && NumbersAreUnique(t.books) && LedgerBelongs(t)
  }

  lemma {:induction false} PaymentsReplayed(t: Tables, dto: ExchangeDto)
    requires Exchanged(t, dto)
    ensures Select(ExchangeSpec(t, dto).1.books.payments, PaymentOf(|t.books.sales|)) == ExchangeSpec(t, dto).0.value.payments
  {
    var p, own := PrepareExchange(t, dto).value, ExchangeSpec(t, dto).0.value.payments;
    SettledRowsAreOwn(t, dto, p, |t.books.sales|, |t.books.refunds|, ReturnNumber(t.books, p, dto.period));
    SelectOwn(t.books.payments, own, PaymentOf(|t.books.sales|));
  }

  lemma {:induction false} LinesReplayed(t: Tables, dto: ExchangeDto)
    requires Exchanged(t, dto)
    ensures var (r, after) := ExchangeSpec(t, dto);
            && Select(after.books.lines, LineOf(|t.books.sales|)) == r.value.lines
            && Select(after.books.returnLines, ReturnLineOf(|t.books.refunds|)) == r.value.returnLines
  {
    SelectOwn(t.books.lines, ExchangeSpec(t, dto).0.value.lines, LineOf(|t.books.sales|));
    SelectOwn(t.books.returnLines, ExchangeSpec(t, dto).0.value.returnLines, ReturnLineOf(|t.books.refunds|));
  }

  lemma {:induction false} FindLast(refunds: seq<SalesReturn>, header: SalesReturn)
    ensures FindReturn(refunds + [header], header.number, header.sale) == Some(|refunds|)
  {}

  lemma {:induction false} ReturnFound(t: Tables, dto: ExchangeDto)
    requires Exchanged(t, dto)
    ensures FoundByOffset(ExchangeSpec(t, dto).1.books, |t.books.sales|, dto.sale, |t.books.refunds|)
  {
    var p := PrepareExchange(t, dto).value;
    PaymentsReplayed(t, dto);
    SettledRowsAreOwn(t, dto, p, |t.books.sales|, |t.books.refunds|, ReturnNumber(t.books, p, dto.period));
    FindLast(t.books.refunds, ReturnHeader(t.books, dto, p));
  }

  /** One document's entries, at most one of them, are the ones found. */
  lemma {:induction false} BalanceFound(ledger: seq<LedgerEntry>, own: seq<LedgerEntry>, customer: Id, reference: Ref, kind: EntryKind)
    requires forall k | 0 <= k < |ledger| :: ledger[k].reference != reference
    requires forall k | 0 <= k < |own| :: EntryOf(customer, reference, kind)(own[k])
    ensures LastBalance(ledger + own, customer, reference, kind) == if own == [] then None else Some(own[|own| - 1].balanceAfter)
  {
    SelectOwn(ledger, own, EntryOf(customer, reference, kind));
  }

  lemma {:induction false} SettledBalanceFound(t: Tables, dto: ExchangeDto, p: Plan, number: Number)
    requires LedgerBelongs(t)
    requires Settle(t, dto, p, |t.books.sales|, |t.books.refunds|, number).Ok?
    ensures var s := Settle(t, dto, p, |t.books.sales|, |t.books.refunds|, number).value;
            s.balanceAfter ==
              if p.customer.None? then None
              else if Difference(p) > 0 then LastBalance(s.ledger, p.customer.value, SaleRef(|t.books.sales|), SaleEntry)
              else if p.refund == Some(RefundCredit) then LastBalance(s.ledger, p.customer.value, ReturnRef(|t.books.refunds|), ReturnEntry)
              else None
  {
    SettledEntries(t, dto, p, |t.books.sales|, |t.books.refunds|, number);
    var ledger := Settle(t, dto, p, |t.books.sales|, |t.books.refunds|, number).value.ledger;
    var own := ledger[|t.ledger|..];
    assert ledger == t.ledger + own;
    if p.customer.Some? {
      if Difference(p) > 0 {
        BalanceFound(t.ledger, own, p.customer.value, SaleRef(|t.books.sales|), SaleEntry);
      } else if p.refund == Some(RefundCredit) {
        BalanceFound(t.ledger, own, p.customer.value, ReturnRef(|t.books.refunds|), ReturnEntry);
      }
    }
  }

  /** The two stored rows carry the figures of an answer. */
  predicate Carry(sale: Sale, row: SalesReturn, first: ExchangeReply) {
    && sale == first.sale && row == first.salesReturn.(notes := row.notes)
    && first.difference == sale.total - row.total && first.credit == Max(sale.total - sale.paid, 0)
    && first.settlement == SettlementOf(first.difference)
    && first.refund == (if first.difference < 0 then Some(row.refund) else None)
    && first.cashRefunded == (if first.refund == Some(RefundCash) then Some(-first.difference) else None)
  }

  lemma {:induction false} RowsCarryTheAnswer(t: Tables, dto: ExchangeDto)
    requires ExchangeSpec(t, dto).0.Ok?
    ensures var (r, after) := ExchangeSpec(t, dto);
            && |after.books.sales| == |t.books.sales| + 1 && |after.books.refunds| == |t.books.refunds| + 1
            && r.value.saleId == |t.books.sales| && r.value.ret == |t.books.refunds|
            && Carry(after.books.sales[|t.books.sales|], after.books.refunds[|t.books.refunds|], r.value)
            && after.books.refunds[|t.books.refunds|].notes == (if dto.notes.NoNotes? then LinkedInvoice(r.value.sale.invoice) else dto.notes)
            && r.value.salesReturn.notes == dto.notes
  {}

  lemma {:induction false} AnswerFromRows(after: Tables, first: ExchangeReply)
    requires first.saleId < |after.books.sales| && first.ret < |after.books.refunds|
    requires Carry(after.books.sales[first.saleId], after.books.refunds[first.ret], first)
    requires Select(after.books.payments, PaymentOf(first.saleId)) == first.payments
    requires Select(after.books.lines, LineOf(first.saleId)) == first.lines
    requires Select(after.books.returnLines, ReturnLineOf(first.ret)) == first.returnLines
    requires first.balanceAfter == BalanceOf(after, first.saleId, first.ret, first.difference, first.refund)
    ensures Answer(after, first.saleId, first.ret) == first.(salesReturn := after.books.refunds[first.ret])
  {}

  lemma {:induction false} BalanceAnswered(t: Tables, dto: ExchangeDto)
    requires Exchanged(t, dto)
    ensures var (r, after) := ExchangeSpec(t, dto);
            r.value.balanceAfter == BalanceOf(after, |t.books.sales|, |t.books.refunds|, r.value.difference, r.value.refund)
  {
    var p := PrepareExchange(t, dto).value;
    SettledBalanceFound(t, dto, p, ReturnNumber(t.books, p, dto.period));
  }

  lemma {:induction false} AnswerIsTheFirst(t: Tables, dto: ExchangeDto)
    requires Exchanged(t, dto)
    ensures var (r, after) := ExchangeSpec(t, dto);
            Answer(after, |t.books.sales|, |t.books.refunds|) == r.value.(salesReturn := after.books.refunds[|t.books.refunds|])
  {
    RowsCarryTheAnswer(t, dto);
    BalanceAnswered(t, dto);
    PaymentsReplayed(t, dto);
    LinesReplayed(t, dto);
    AnswerFromRows(ExchangeSpec(t, dto).1, ExchangeSpec(t, dto).0.value);
  }

  /**
   * In any later state the replay gives the first answer back, in all three settlements: the same
   * return, lines, payments, difference, settlement, refund, cash, credit and balance. The one field
   * that may differ is the return's notes: the first answer echoes the request, the replay the row,
   * so the two are equal exactly when the request carried notes.
   */
  lemma {:induction false} ReplayAgrees(t: Tables, dto: ExchangeDto, later: Tables)
    requires Exchanged(t, dto) && Grows(ExchangeSpec(t, dto).1, later) && NumbersAreUnique(later.books)
    ensures var first := ExchangeSpec(t, dto).0.value;
            var replay := Reconstruct(later, first.saleId, dto.sale);
            && replay.Replayed?
            && replay.reply.salesReturn.notes == (if dto.notes.NoNotes? then LinkedInvoice(first.sale.invoice) else dto.notes)
            && replay.reply.(salesReturn := first.salesReturn) == first
            && (replay.reply == first <==> dto.notes != NoNotes)
  {
    ReturnFound(t, dto);
    RowsCarryTheAnswer(t, dto);
    AnswerIsTheFirst(t, dto);
    ReplayIsStable(ExchangeSpec(t, dto).1, later, |t.books.sales|, dto.sale, |t.books.refunds|);
  }

  // ------------------------------------------------------------------
  // Sales whose offset payment is missing.

  lemma {:induction false} FindNone(refunds: seq<SalesReturn>, number: Number, sale: Id)
    requires forall k | 0 <= k < |refunds| :: !(refunds[k].number == number && refunds[k].sale == sale)
    ensures FindReturn(refunds, number, sale) == None
  {
    if refunds != [] {
      FindNone(refunds[..|refunds| - 1], number, sale);
    }
  }

  lemma {:induction false} SelectOne<T>(rows: seq<T>, wanted: T -> bool, i: nat)
    requires i < |rows| && wanted(rows[i]) && forall k | 0 <= k < |rows| && k != i :: !wanted(rows[k])
    ensures Select(rows, wanted) == [rows[i]]
  {
    assert rows == rows[..i] + ([rows[i]] + rows[i + 1..]);
    SelectAppend(rows[..i], [rows[i]] + rows[i + 1..], wanted);
    SelectAppend([rows[i]], rows[i + 1..], wanted);
    SelectNone(rows[..i], wanted);
    SelectNone(rows[i + 1..], wanted);
    SelectAll([rows[i]], wanted);
  }

  lemma {:induction false} NoOffset(rows: seq<SalePay>)
    requires forall k | 0 <= k < |rows| :: !IsOffset(rows[k])
    ensures FindOffset(rows) == None
  {
    if rows != [] {
      NoOffset(rows[1..]);
    }
  }

  lemma {:induction false} SelectedAre<T>(rows: seq<T>, wanted: T -> bool)
    ensures forall k | 0 <= k < |Select(rows, wanted)| :: Select(rows, wanted)[k] in rows && wanted(Select(rows, wanted)[k])
  {
    if rows != [] {
      SelectedAre(rows[..|rows| - 1], wanted);
    }
  }

  /**
   * Without an offset payment the return is still found: by the number in the sale's notes, or else
   * by being the only return of the original sale whose notes name the invoice.
   */
  lemma {:induction false} FallbacksFindTheReturn(b: Books, sale: Id, original: Id, i: Id)
    requires NumbersAreUnique(b) && sale < |b.sales| && i < |b.refunds| && b.refunds[i].sale == original
    requires forall k | 0 <= k < |b.payments| && b.payments[k].sale == sale :: !IsOffset(b.payments[k])
    ensures b.sales[sale].notes == AgainstReturn(b.refunds[i].number) ==> Locate(b, sale, original) == Some(i)
    ensures !b.sales[sale].notes.AgainstReturn? && b.refunds[i].notes == LinkedInvoice(b.sales[sale].invoice)
            && (forall k | 0 <= k < |b.refunds| && k != i :: !LinkedTo(b.sales[sale].invoice, original)(b.refunds[k])) ==>
              Locate(b, sale, original) == Some(i)
  {
    var own := Select(b.payments, PaymentOf(sale));
    SelectedAre(b.payments, PaymentOf(sale));
    NoOffset(own);
    FindUnique(b.refunds, i);
    if LinkedTo(b.sales[sale].invoice, original)(b.refunds[i]) && forall k | 0 <= k < |b.refunds| && k != i :: !LinkedTo(b.sales[sale].invoice, original)(b.refunds[k]) {
      SelectOne(b.refunds, LinkedTo(b.sales[sale].invoice, original), i);
    }
  }

  /** With neither payment, notes nor link, nothing is found. */
  lemma {:induction false} UnlinkedIsNotFound(b: Books, sale: Id, original: Id)
    requires sale < |b.sales| && !b.sales[sale].notes.AgainstReturn?
    requires forall k | 0 <= k < |b.payments| && b.payments[k].sale == sale :: !IsOffset(b.payments[k])
    requires forall k | 0 <= k < |b.refunds| :: !LinkedTo(b.sales[sale].invoice, original)(b.refunds[k])
    ensures Locate(b, sale, original) == None
  {
    SelectedAre(b.payments, PaymentOf(sale));
    NoOffset(Select(b.payments, PaymentOf(sale)));
    SelectNone(b.refunds, LinkedTo(b.sales[sale].invoice, original));
  }
}
