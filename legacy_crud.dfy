/** The money operations of the two older copies of the crud module (`backend/prod/api/crud.py`
    and `api/crud.py`), which agree except where a member says otherwise: the schedule with due dates
    that keep the creation day, the unrounded distribution of a transaction, payment of the whole
    remainder, and the recalculation that recreates every buyer row. */
module LegacyCrud {
  import opened Calendar
  import opened Entities
  import opened Money
  import opened DueDates
  import opened Store
  import opened Balances
  import ProdCrud
  import ApiModels
  import ProdSchedule

  /** Which of the two copies: they differ only in the (mes, año) recorded on an installment. Both are
      read against the middle copy's schema, which is the one the oldest copy's code expects. */
  datatype Copy = Backend | Api

  // ---------------------------------------------------------------------------------------------
  // The installment schedule

  /** The (mes, año) stored on installment `i`. The copy under `backend/` computes them itself,
      taking the year from the clock (`nowYear`); the copy under `api/` reads them off the due date. */
  function RecordedPeriod(copy: Copy, horse: Horse, i: int, due: DateTime, nowYear: int): (int, int) {
    match copy
    case Backend => ((horse.startingBillingMonth + i - 1) % 12 + 1, nowYear + (horse.startingBillingMonth + i - 1) / 12)
    case Api => (due.month, due.year)
  }

  /** Installment `i` with due date `due` and key `id`: the unrounded price `total / n`. */
  function LegacyInstallment(copy: Copy, horse: Horse, i: int, due: DateTime, id: int, nowYear: int): Installment
    requires horse.numberOfInstallments > 0
  {
    var period := RecordedPeriod(copy, horse, i, due, nowYear);
    Installment(id, horse.id, due, horse.totalValue / horse.numberOfInstallments as real, i, period.0, period.1)
  }

  /** The buyer rows of installment `inst`, one per owner with consecutive keys: the unrounded share
      of the unrounded price, nothing paid, PENDING; these schemas store no (mes, año) on the row. */
  function LegacyShares(horse: Horse, buyers: seq<HorseBuyer>, inst: Installment, firstId: int): (r: seq<BuyerInstallment>)
    requires horse.numberOfInstallments > 0
    ensures |r| == |buyers|
    ensures forall j :: 0 <= j < |buyers| ==>
              r[j] == BuyerInstallment(firstId + j, buyers[j].id, inst.id,
                                       Share(horse.totalValue / horse.numberOfInstallments as real, buyers[j].percentage),
                                       0.0, Pending, None)
  {
    if buyers == [] then []
    else
      var hb := buyers[|buyers| - 1];
      LegacyShares(horse, buyers[..|buyers| - 1], inst, firstId)
        + [BuyerInstallment(firstId + |buyers| - 1, hb.id, inst.id,
                            Share(horse.totalValue / horse.numberOfInstallments as real, hb.percentage), 0.0, Pending, None)]
  }

  /** The first `count` installments and their buyer rows (grouped per installment), and the next
      free key; the first due date that `replace` cannot form stops the whole schedule with ValueError. */
  function LegacySchedule(copy: Copy, horse: Horse, buyers: seq<HorseBuyer>, count: nat, firstId: int, nowYear: int)
    : (r: Result<(seq<Installment>, seq<seq<BuyerInstallment>>, int)>)
    requires Valid(horse.creationDate) && (count == 0 || count <= horse.numberOfInstallments)
    ensures r.Err? ==> r.error == InvalidDate
    ensures r.Ok? ==> |r.value.0| == count && |r.value.1| == count
  {
    if count == 0 then Ok(([], [], firstId))
    else ExtendSchedule(copy, horse, buyers, count, LegacySchedule(copy, horse, buyers, count - 1, firstId, nowYear), nowYear)
  }

  /** One turn of the outer loop: installment `i` and its rows are appended, unless an earlier turn
      failed or the due date of installment `i` does not exist. */
  function ExtendSchedule(copy: Copy, horse: Horse, buyers: seq<HorseBuyer>, i: int,
                          prev: Result<(seq<Installment>, seq<seq<BuyerInstallment>>, int)>, nowYear: int)
    : (r: Result<(seq<Installment>, seq<seq<BuyerInstallment>>, int)>)
    requires Valid(horse.creationDate) && 1 <= i <= horse.numberOfInstallments
    requires prev.Err? ==> prev.error == InvalidDate
    ensures r.Err? ==> r.error == InvalidDate
    ensures r.Ok? ==> prev.Ok? && |r.value.0| == |prev.value.0| + 1 && |r.value.1| == |prev.value.1| + 1
  {
    if prev.Err? then prev
    else
      var due := CalculateDueDateKeepingDay(horse.creationDate, i, horse.startingBillingMonth);
      if due.Err? then Err(InvalidDate)
      else
        var inst := LegacyInstallment(copy, horse, i, due.value, prev.value.2, nowYear);
        Ok((prev.value.0 + [inst], prev.value.1 + [LegacyShares(horse, buyers, inst, prev.value.2 + 1)],
            prev.value.2 + 1 + |buyers|))
  }

  /** The schedule fails exactly when one of its due dates does not exist. */
  lemma {:induction false} LegacyScheduleFails(copy: Copy, horse: Horse, buyers: seq<HorseBuyer>, count: nat,
                                               firstId: int, nowYear: int)
    requires Valid(horse.creationDate) && (count == 0 || count <= horse.numberOfInstallments)
    ensures LegacySchedule(copy, horse, buyers, count, firstId, nowYear).Err?
        <==> exists i :: 1 <= i <= count && CalculateDueDateKeepingDay(horse.creationDate, i, horse.startingBillingMonth).Err?
  {
    if count > 0 {
      LegacyScheduleFails(copy, horse, buyers, count - 1, firstId, nowYear);
    }
  }

  /** A failed schedule stays failed when it is extended. */
  lemma {:induction false} LegacyScheduleStops(copy: Copy, horse: Horse, buyers: seq<HorseBuyer>, count: nat,
                                               firstId: int, nowYear: int, i: nat)
    requires Valid(horse.creationDate) && (count == 0 || count <= horse.numberOfInstallments)
    requires i <= count && LegacySchedule(copy, horse, buyers, i, firstId, nowYear).Err?
    ensures LegacySchedule(copy, horse, buyers, count, firstId, nowYear).Err?
  {
    if i < count {
      LegacyScheduleStops(copy, horse, buyers, count - 1, firstId, nowYear, i);
    }
  }

  /** Entry `k` of a successful schedule is installment `k + 1` with its own due date, and its group
      holds the owners' rows for it, keyed right after it. */
  lemma {:induction false} LegacyScheduleAt(copy: Copy, horse: Horse, buyers: seq<HorseBuyer>, count: nat,
                                            firstId: int, nowYear: int, k: nat)
    requires Valid(horse.creationDate) && (count == 0 || count <= horse.numberOfInstallments)
    requires LegacySchedule(copy, horse, buyers, count, firstId, nowYear).Ok?
    requires k < count
    ensures var s := LegacySchedule(copy, horse, buyers, count, firstId, nowYear).value;
            var due := CalculateDueDateKeepingDay(horse.creationDate, k + 1, horse.startingBillingMonth);
            && due.Ok?
            && s.0[k] == LegacyInstallment(copy, horse, k + 1, due.value, s.0[k].id, nowYear)
            && s.1[k] == LegacyShares(horse, buyers, s.0[k], s.0[k].id + 1)
  {
    if k < count - 1 {
      LegacyScheduleAt(copy, horse, buyers, count - 1, firstId, nowYear, k);
    }
  }

  /** Keys are handed out in order: installment `k` takes key `firstId + k * (owners + 1)` and its
      rows the keys after it. */
  lemma {:induction false} LegacyScheduleKeys(copy: Copy, horse: Horse, buyers: seq<HorseBuyer>, count: nat,
                                              firstId: int, nowYear: int)
    requires Valid(horse.creationDate) && (count == 0 || count <= horse.numberOfInstallments)
    requires LegacySchedule(copy, horse, buyers, count, firstId, nowYear).Ok?
    ensures var s := LegacySchedule(copy, horse, buyers, count, firstId, nowYear).value;
            && s.2 == firstId + count * (|buyers| + 1)
            && forall k :: 0 <= k < count ==> s.0[k].id == firstId + k * (|buyers| + 1)
  {
    if count > 0 {
      LegacyScheduleKeys(copy, horse, buyers, count - 1, firstId, nowYear);
      assert (count - 1) * (|buyers| + 1) + |buyers| + 1 == count * (|buyers| + 1);
    }
  }

  /** What a successful schedule promises of installment `k` and its buyer rows: number `k + 1`, the
      unrounded price, a due date `k + 1` months after the starting billing month on the creation
      day, and one row per owner with the owner's share of the price, nothing paid, PENDING. */
  lemma LegacyScheduleFacts(copy: Copy, horse: Horse, buyers: seq<HorseBuyer>, count: nat,
                            firstId: int, nowYear: int, k: nat, j: nat)
    requires Valid(horse.creationDate) && (count == 0 || count <= horse.numberOfInstallments)
    requires LegacySchedule(copy, horse, buyers, count, firstId, nowYear).Ok?
    requires k < count && j < |buyers|
    ensures var s := LegacySchedule(copy, horse, buyers, count, firstId, nowYear).value;
            var inst := s.0[k];
            && inst.number == k + 1 && inst.horseId == horse.id
            && inst.amount == horse.totalValue / horse.numberOfInstallments as real
            && Valid(inst.dueDate) && inst.dueDate.day == horse.creationDate.day
            && (inst.dueDate.year - horse.creationDate.year) * 12 + inst.dueDate.month == horse.startingBillingMonth + k + 1
            && (inst.mes, inst.anio) == RecordedPeriod(copy, horse, k + 1, inst.dueDate, nowYear)
            && |s.1[k]| == |buyers|
            && s.1[k][j].horseBuyerId == buyers[j].id && s.1[k][j].installmentId == inst.id
            && s.1[k][j].amount == Share(horse.totalValue / horse.numberOfInstallments as real, buyers[j].percentage)
            && s.1[k][j].amountPaid == 0.0 && s.1[k][j].status == Pending
  {
    LegacyScheduleAt(copy, horse, buyers, count, firstId, nowYear, k);
    var s := LegacySchedule(copy, horse, buyers, count, firstId, nowYear).value;
    var due := CalculateDueDateKeepingDay(horse.creationDate, k + 1, horse.startingBillingMonth);
    KeepingDayFacts(horse.creationDate, k + 1, horse.startingBillingMonth);
    assert s.0[k] == LegacyInstallment(copy, horse, k + 1, due.value, s.0[k].id, nowYear);
    assert s.0[k].dueDate == due.value;
  }

  /** The backend copy records the month of the due date; it records the due date's year only when
      the horse was created in the current year. */
  lemma BackendPeriodMatchesDueMonth(horse: Horse, i: int, nowYear: int)
    requires Valid(horse.creationDate) && 1 <= horse.startingBillingMonth <= 12 && i >= 1
    requires CalculateDueDateKeepingDay(horse.creationDate, i, horse.startingBillingMonth).Ok?
    ensures var due := CalculateDueDateKeepingDay(horse.creationDate, i, horse.startingBillingMonth).value;
            var period := RecordedPeriod(Backend, horse, i, due, nowYear);
            && period.0 == due.month
            && (period.1 == due.year <==> nowYear == horse.creationDate.year)
  {
    var due := CalculateDueDateKeepingDay(horse.creationDate, i, horse.startingBillingMonth).value;
    var t := horse.startingBillingMonth - 1 + i;
    assert (due.year - horse.creationDate.year) * 12 + due.month == t + 1;
    assert t == (t / 12) * 12 + t % 12;
    assert due.year - horse.creationDate.year == t / 12 by {
      var d := due.year - horse.creationDate.year - t / 12;
      assert d * 12 == t % 12 + 1 - due.month;
    }
  }

  /** The inner loop over `horse.buyers` for one installment. */
  method BuildLegacyShares(horse: Horse, buyers: seq<HorseBuyer>, inst: Installment, firstId: int)
    returns (shares: seq<BuyerInstallment>)
    requires horse.numberOfInstallments > 0
    ensures shares == LegacyShares(horse, buyers, inst, firstId)
  {
    shares := [];
    var j := 0;
    while j < |buyers|
      invariant 0 <= j <= |buyers|
      invariant shares == LegacyShares(horse, buyers[..j], inst, firstId)
    {
      assert buyers[..j + 1][..j] == buyers[..j];
      shares := shares + [BuyerInstallment(firstId + j, buyers[j].id, inst.id,
                                           Share(horse.totalValue / horse.numberOfInstallments as real, buyers[j].percentage),
                                           0.0, Pending, None)];
      j := j + 1;
    }
    assert buyers[..j] == buyers;
  }

  /** One turn of the outer loop of `_create_installments_for_horse`: the due date, the installment
      and, through the inner loop, its buyer rows. */
  method ScheduleTurn(copy: Copy, horse: Horse, buyers: seq<HorseBuyer>, i: int,
                      prev: (seq<Installment>, seq<seq<BuyerInstallment>>, int), nowYear: int)
    returns (r: Result<(seq<Installment>, seq<seq<BuyerInstallment>>, int)>)
    requires Valid(horse.creationDate) && 1 <= i <= horse.numberOfInstallments
    ensures r == ExtendSchedule(copy, horse, buyers, i, Ok(prev), nowYear)
  {
    var due := CalculateDueDateKeepingDay(horse.creationDate, i, horse.startingBillingMonth);
    if due.Err? {
      return Err(InvalidDate);
    }
    var inst := LegacyInstallment(copy, horse, i, due.value, prev.2, nowYear);
    var shares := BuildLegacyShares(horse, buyers, inst, prev.2 + 1);
    r := Ok((prev.0 + [inst], prev.1 + [shares], prev.2 + 1 + |buyers|));
  }

  /** The loops of `_create_installments_for_horse` of the older copies: installments 1..n and, for
      each, one buyer row per owner. */
  method BuildLegacySchedule(copy: Copy, horse: Horse, buyers: seq<HorseBuyer>, count: nat, firstId: int, nowYear: int)
    returns (r: Result<(seq<Installment>, seq<seq<BuyerInstallment>>, int)>)
    requires Valid(horse.creationDate) && (count == 0 || count <= horse.numberOfInstallments)
    ensures r == LegacySchedule(copy, horse, buyers, count, firstId, nowYear)
  {
    var acc: (seq<Installment>, seq<seq<BuyerInstallment>>, int) := ([], [], firstId);
    var i := 1;
    while i <= count
      invariant 1 <= i <= count + 1
      invariant LegacySchedule(copy, horse, buyers, i - 1, firstId, nowYear) == Ok(acc)
    {
      var e := ScheduleTurn(copy, horse, buyers, i, acc, nowYear);
      if e.Err? {
        LegacyScheduleStops(copy, horse, buyers, count, firstId, nowYear, i);
        return e;
      }
      acc := e.value;
      i := i + 1;
    }
    r := Ok(acc);
  }

  /** `_create_installments_for_horse` of the older copies on the session, called after the horse and
      its ownership rows exist; a due date that does not exist raises, and the caller's rollback
      discards the installments already flushed, so the session is left as it was. */
  method CreateInstallmentsForHorse(db: Session, copy: Copy, horse: Horse, nowYear: int) returns (r: Outcome)
    requires Valid(horse.creationDate)
    modifies db
    ensures var count := if horse.numberOfInstallments > 0 then horse.numberOfInstallments else 0;
            var s := LegacySchedule(copy, horse, BuyersOf(old(db.horseBuyers), horse.id), count, old(db.nextId), nowYear);
            && (r.Pass? <==> s.Ok?)
            && (r.Fail? ==> r.error == InvalidDate && unchanged(db))
            && (s.Ok? ==> db.installments == old(db.installments) + s.value.0
                          && db.buyerInstallments == old(db.buyerInstallments) + ProdSchedule.Flatten(s.value.1)
                          && db.nextId == s.value.2
                          && db.users == old(db.users) && db.horses == old(db.horses)
                          && db.horseBuyers == old(db.horseBuyers) && db.transactions == old(db.transactions))
  {
    var count := if horse.numberOfInstallments > 0 then horse.numberOfInstallments else 0;
    var s := BuildLegacySchedule(copy, horse, BuyersOf(db.horseBuyers, horse.id), count, db.nextId, nowYear);
    if s.Err? {
      return Fail(s.error);
    }
    var (insts, groups, next) := s.value;
    db.installments, db.buyerInstallments, db.nextId := db.installments + insts, db.buyerInstallments + ProdSchedule.Flatten(groups), next;
    r := Pass;
  }

  // ---------------------------------------------------------------------------------------------
  // Distribution of a transaction

  /** The balance changes of a PREMIO (each owner's user credited with the unrounded share) or an
      EGRESO (debited with it). */
  function OwnerChanges(buyers: seq<HorseBuyer>, t: Transaction): seq<Delta> {
    if t.kind == Egreso then Negated(ExactShares(buyers, t.totalAmount)) else ExactShares(buyers, t.totalAmount)
  }

  /** `process_transaction` of the older copies on the user balances:
      - INGRESO: `transaction.user` is credited with the whole amount;
      - PREMIO / EGRESO: each owner's user is credited / debited with the unrounded share, at once;
      - PAGO: nothing.
      A missing user or horse (or an owner without a user row) raises before anything is committed. */
  function LegacyProcess(users: map<int, User>, horses: seq<Horse>, hbs: seq<HorseBuyer>, t: Transaction)
    : (r: Result<map<int, User>>)
    ensures r.Ok? ==> r.value.Keys == users.Keys
    ensures r.Err? ==> r.error == MissingRelation
  {
    match t.kind
    case Pago => Ok(users)
    case Ingreso =>
      if t.userId.None? || t.userId.value !in users then Err(MissingRelation)
      else
        var u := t.userId.value;
        Ok(users[u := users[u].(balance := users[u].balance + t.totalAmount)])
    case _ =>
      var buyers := ProdCrud.TransactionBuyers(horses, hbs, t);
      if buyers.None? || !ProdCrud.OwnersHaveUsers(buyers.value, users) then Err(MissingRelation)
      else Ok(Apply(users, OwnerChanges(buyers.value, t)))
  }

  /** `process_transaction` on the session. */
  method LegacyProcessTransaction(db: Session, t: Transaction) returns (r: Outcome)
    modifies db
    ensures var p := LegacyProcess(old(db.users), old(db.horses), old(db.horseBuyers), t);
            && (r.Pass? <==> p.Ok?)
            && (r.Fail? ==> r.error == p.error && unchanged(db))
            && (p.Ok? ==> db.users == p.value && db.horses == old(db.horses) && db.horseBuyers == old(db.horseBuyers)
                          && db.installments == old(db.installments) && db.buyerInstallments == old(db.buyerInstallments)
                          && db.transactions == old(db.transactions) && db.nextId == old(db.nextId))
  {
    var p := LegacyProcess(db.users, db.horses, db.horseBuyers, t);
    if p.Err? {
      return Fail(p.error);
    }
    if t.kind == Ingreso {
      var u := t.userId.value;
      db.users := db.users[u := db.users[u].(balance := db.users[u].balance + t.totalAmount)];
    } else if t.kind != Pago {
      var buyers := ProdCrud.TransactionBuyers(db.horses, db.horseBuyers, t).value;
      db.users := ProdCrud.ApplyOwnerShares(db.users, OwnerChanges(buyers, t));
    }
    r := Pass;
  }

  /** When owners are distinct users, each owner's user gains exactly `total * percentage / 100`
      from a prize and loses it to an expense. */
  lemma LegacyOwnerShare(users: map<int, User>, buyers: seq<HorseBuyer>, t: Transaction, k: nat)
    requires k < |buyers| && ProdCrud.DistinctOwners(buyers) && ProdCrud.OwnersHaveUsers(buyers, users)
    ensures var u := buyers[k].buyerId;
            var share := Share(t.totalAmount, buyers[k].percentage);
            Apply(users, OwnerChanges(buyers, t))[u].balance == users[u].balance + if t.kind == Egreso then -share else share
  {
    var ds := ExactShares(buyers, t.totalAmount);
    var u := buyers[k].buyerId;
    SumForDistinct(ds, k);
    ApplyAt(users, ds, u);
    ApplyAt(users, Negated(ds), u);
    SumForNegated(ds, u);
  }

  /** An expense of the same amount on the same horse undoes a prize exactly: the unrounded shares
      cancel. */
  lemma LegacyExpenseUndoesPrize(users: map<int, User>, horses: seq<Horse>, hbs: seq<HorseBuyer>, t: Transaction)
    requires t.kind == Premio && LegacyProcess(users, horses, hbs, t).Ok?
    ensures LegacyProcess(LegacyProcess(users, horses, hbs, t).value, horses, hbs, t.(kind := Egreso))
         == Ok(users)
  {
    var buyers := ProdCrud.TransactionBuyers(horses, hbs, t).value;
    var ds := ExactShares(buyers, t.totalAmount);
    var mid := Apply(users, ds);
    assert ProdCrud.TransactionBuyers(horses, hbs, t.(kind := Egreso)) == Some(buyers);
    assert ProdCrud.OwnersHaveUsers(buyers, mid);
    ApplyThenUndo(users, ds);
  }

  // ---------------------------------------------------------------------------------------------
  // Payment of the whole remainder

  /** `process_payment` of the older copies on the row: a PAID row is refused; otherwise the whole
      remainder is paid and the row becomes PAID. */
  function PayInFull(bi: BuyerInstallment): (r: Result<BuyerInstallment>)
    ensures r.Err? <==> bi.status == Paid
    ensures r.Err? ==> r.error == AlreadyPaid
    ensures r.Ok? ==> r.value.amountPaid == r.value.amount && r.value.status == Paid
                      && r.value == bi.(amountPaid := bi.amount, status := Paid)
  {
    if bi.status == Paid then Err(AlreadyPaid)
    else Ok(UpdateInstallmentStatus(bi.(amountPaid := bi.amountPaid + (bi.amount - bi.amountPaid))))
  }

  /** Paying in full is not repeatable: the second payment of the same row is refused. */
  lemma PayInFullOnce(bi: BuyerInstallment)
    requires PayInFull(bi).Ok?
    ensures PayInFull(PayInFull(bi).value) == Err(AlreadyPaid)
  {
  }

  /** Paying a row in full removes exactly its outstanding amount from its owner's pending amount
      when it was PENDING or PARTIAL, and leaves every other buyer's pending amount alone. */
  lemma PayInFullClearsPending(rows: seq<BuyerInstallment>, k: nat, hbs: seq<HorseBuyer>, buyerId: int)
    requires k < |rows| && PayInFull(rows[k]).Ok?
    ensures PendingAmount(rows[k := PayInFull(rows[k]).value], hbs, buyerId)
         == PendingAmount(rows, hbs, buyerId) - PendingPart(rows[k], hbs, buyerId)
  {
    PendingAmountReplace(rows, k, PayInFull(rows[k]).value, hbs, buyerId);
  }

  /** `process_payment` on the session, for the buyer row at position `k`. The row change is committed
      first; the ownership row then loses the remainder, which is committed only once its user is
      found. A missing ownership row or user raises after the row change is kept. */
  method LegacyProcessPayment(db: Session, k: nat) returns (r: Outcome)
    requires k < |db.buyerInstallments|
    modifies db
    ensures var bi := old(db.buyerInstallments[k]);
            var p := PayInFull(bi);
            var hb := FindHorseBuyer(old(db.horseBuyers), bi.horseBuyerId);
            && (p.Err? ==> r == Fail(AlreadyPaid) && unchanged(db))
            && (p.Ok? ==> db.buyerInstallments == old(db.buyerInstallments)[k := p.value]
                          && db.users == old(db.users) && db.horses == old(db.horses)
                          && db.installments == old(db.installments) && db.transactions == old(db.transactions)
                          && db.nextId == old(db.nextId))
            && (p.Ok? && (hb.None? || old(db.horseBuyers)[hb.value].buyerId !in old(db.users)) ==>
                  r == Fail(MissingRelation) && db.horseBuyers == old(db.horseBuyers))
            && (p.Ok? && hb.Some? && old(db.horseBuyers)[hb.value].buyerId in old(db.users) ==>
                  r == Pass
                  && db.horseBuyers == old(db.horseBuyers)[hb.value := old(db.horseBuyers)[hb.value].(
                       balance := old(db.horseBuyers)[hb.value].balance - Outstanding(bi))])
  {
    var bi := db.buyerInstallments[k];
    var p := PayInFull(bi);
    if p.Err? {
      return Fail(p.error);
    }
    var remaining := bi.amount - bi.amountPaid;
    db.buyerInstallments := db.buyerInstallments[k := p.value];
    var hb := FindHorseBuyer(db.horseBuyers, bi.horseBuyerId);
    if hb.None? || db.horseBuyers[hb.value].buyerId !in db.users {
      return Fail(MissingRelation);
    }
    var j := hb.value;
    db.horseBuyers := db.horseBuyers[j := db.horseBuyers[j].(balance := db.horseBuyers[j].balance - remaining)];
    r := Pass;
  }

  // ---------------------------------------------------------------------------------------------
  // The destructive recalculation

  /** The table without the rows of installment `instId`. */
  function WithoutInstallment(rows: seq<BuyerInstallment>, instId: int): (r: seq<BuyerInstallment>)
    ensures forall x :: x in r <==> x in rows && x.installmentId != instId
  {
    if rows == [] then []
    else
      var last := rows[|rows| - 1];
      WithoutInstallment(rows[..|rows| - 1], instId) + if last.installmentId != instId then [last] else []
  }

  /** The created buyer rows of installment `inst`, one per owner: `installment.amount * percentage / 100`,
      nothing paid, PENDING. */
  function FreshRows(inst: Installment, buyers: seq<HorseBuyer>, firstId: int): (r: seq<BuyerInstallment>)
    ensures |r| == |buyers|
    ensures forall j :: 0 <= j < |buyers| ==>
              r[j] == BuyerInstallment(firstId + j, buyers[j].id, inst.id, Share(inst.amount, buyers[j].percentage),
                                       0.0, Pending, None)
  {
    if buyers == [] then []
    else
      var hb := buyers[|buyers| - 1];
      FreshRows(inst, buyers[..|buyers| - 1], firstId)
        + [BuyerInstallment(firstId + |buyers| - 1, hb.id, inst.id, Share(inst.amount, hb.percentage), 0.0, Pending, None)]
  }

  /** `recalculate_installments` of the older copies over the installments in table order: for each
      of the horse's installments, past or future, its rows are deleted and recreated for the current
      owners. */
  function Recreate(rows: seq<BuyerInstallment>, insts: seq<Installment>, buyers: seq<HorseBuyer>, horseId: int,
                    nextId: int): (r: (seq<BuyerInstallment>, int))
  {
    if insts == [] then (rows, nextId)
    else
      var prev := Recreate(rows, insts[..|insts| - 1], buyers, horseId, nextId);
      var inst := insts[|insts| - 1];
      if inst.horseId != horseId then prev
      else (WithoutInstallment(prev.0, inst.id) + FreshRows(inst, buyers, prev.1), prev.1 + |buyers|)
  }

  /** Every row afterwards either belongs to an installment of another horse and was there before,
      or is a created row of one of the horse's installments: PENDING with nothing paid, for a current
      owner, at the owner's unrounded share. Earlier payments are therefore discarded. */
  lemma {:induction false} RecreateDiscardsPayments(rows: seq<BuyerInstallment>, insts: seq<Installment>,
                                                    buyers: seq<HorseBuyer>, horseId: int, nextId: int,
                                                    x: BuyerInstallment)
    requires x in Recreate(rows, insts, buyers, horseId, nextId).0
    ensures || (x in rows && forall i :: 0 <= i < |insts| && insts[i].horseId == horseId ==> x.installmentId != insts[i].id)
            || exists i, j :: 0 <= i < |insts| && 0 <= j < |buyers|
                 && insts[i].horseId == horseId && x.installmentId == insts[i].id
                 && x.horseBuyerId == buyers[j].id && x.amount == Share(insts[i].amount, buyers[j].percentage)
                 && x.amountPaid == 0.0 && x.status == Pending
  {
    if insts != [] {
      var init := insts[..|insts| - 1];
      var inst := insts[|insts| - 1];
      var prev := Recreate(rows, init, buyers, horseId, nextId);
      if inst.horseId != horseId || x in WithoutInstallment(prev.0, inst.id) {
        RecreateDiscardsPayments(rows, init, buyers, horseId, nextId, x);
        if exists i, j :: 0 <= i < |init| && 0 <= j < |buyers|
             && init[i].horseId == horseId && x.installmentId == init[i].id
             && x.horseBuyerId == buyers[j].id && x.amount == Share(init[i].amount, buyers[j].percentage)
             && x.amountPaid == 0.0 && x.status == Pending {
          var i, j :| 0 <= i < |init| && 0 <= j < |buyers|
             && init[i].horseId == horseId && x.installmentId == init[i].id
             && x.horseBuyerId == buyers[j].id && x.amount == Share(init[i].amount, buyers[j].percentage)
             && x.amountPaid == 0.0 && x.status == Pending;
          assert insts[i] == init[i];
        } else {
          forall i | 0 <= i < |insts| && insts[i].horseId == horseId ensures x.installmentId != insts[i].id {
            if i < |init| {
              assert insts[i] == init[i];
            }
          }
        }
      } else {
        var created := FreshRows(inst, buyers, prev.1);
        var j :| 0 <= j < |created| && created[j] == x;
        assert insts[|insts| - 1] == inst;
      }
    }
  }

  /** The deletion of one installment's rows. */
  method DeleteInstallmentRows(rows: seq<BuyerInstallment>, instId: int) returns (kept: seq<BuyerInstallment>)
    ensures kept == WithoutInstallment(rows, instId)
  {
    kept := [];
    var k := 0;
    while k < |rows|
      invariant 0 <= k <= |rows|
      invariant kept == WithoutInstallment(rows[..k], instId)
    {
      assert rows[..k + 1][..k] == rows[..k];
      if rows[k].installmentId != instId {
        kept := kept + [rows[k]];
      }
      k := k + 1;
    }
    assert rows[..k] == rows;
  }

  /** The loop over `horse.buyers` recreating one installment's rows. */
  method CreateRows(inst: Installment, buyers: seq<HorseBuyer>, firstId: int) returns (created: seq<BuyerInstallment>)
    ensures created == FreshRows(inst, buyers, firstId)
  {
    created := [];
    var j := 0;
    while j < |buyers|
      invariant 0 <= j <= |buyers|
      invariant created == FreshRows(inst, buyers[..j], firstId)
    {
      assert buyers[..j + 1][..j] == buyers[..j];
      created := created + [BuyerInstallment(firstId + j, buyers[j].id, inst.id, Share(inst.amount, buyers[j].percentage),
                                             0.0, Pending, None)];
      j := j + 1;
    }
    assert buyers[..j] == buyers;
  }

  /** The loop over the horse's installments. */
  method RecreateRows(rows: seq<BuyerInstallment>, insts: seq<Installment>, buyers: seq<HorseBuyer>, horseId: int,
                      nextId: int) returns (r: (seq<BuyerInstallment>, int))
    ensures r == Recreate(rows, insts, buyers, horseId, nextId)
  {
    r := (rows, nextId);
    var i := 0;
    while i < |insts|
      invariant 0 <= i <= |insts|
      invariant r == Recreate(rows, insts[..i], buyers, horseId, nextId)
    {
      assert insts[..i + 1][..i] == insts[..i];
      var inst := insts[i];
      if inst.horseId == horseId {
        var kept := DeleteInstallmentRows(r.0, inst.id);
        var created := CreateRows(inst, buyers, r.1);
        r := (kept + created, r.1 + |buyers|);
      }
      i := i + 1;
    }
    assert insts[..i] == insts;
  }

  /** `recalculate_installments` on the session for horse `horseId`; rows that break a CHECK
      constraint make the commit fail and everything is rolled back. The success condition ranges
      over the whole resulting table, as the commit does; on a table whose existing rows already
      meet the constraints it comes down to the rows this call writes. */
  method RecreateInstallments(db: Session, horseId: int) returns (r: Outcome)
    modifies db
    ensures var s := Recreate(old(db.buyerInstallments), old(db.installments), BuyersOf(old(db.horseBuyers), horseId),
                              horseId, old(db.nextId));
            && (r.Pass? <==> forall k :: 0 <= k < |s.0| ==> ApiModels.BuyerInstallmentChecks(s.0[k]))
            && (r.Fail? ==> r.error == ConstraintViolation && unchanged(db))
            && (r.Pass? ==> db.buyerInstallments == s.0 && db.nextId == s.1
                            && db.users == old(db.users) && db.horses == old(db.horses)
                            && db.horseBuyers == old(db.horseBuyers) && db.installments == old(db.installments)
                            && db.transactions == old(db.transactions))
  {
    var s := RecreateRows(db.buyerInstallments, db.installments, BuyersOf(db.horseBuyers, horseId), horseId, db.nextId);
    if exists k :: 0 <= k < |s.0| && !ApiModels.BuyerInstallmentChecks(s.0[k]) {
      var k :| 0 <= k < |s.0| && !ApiModels.BuyerInstallmentChecks(s.0[k]);
      assert s.0[k] in s.0;
      return Fail(ConstraintViolation);
    }
    db.buyerInstallments, db.nextId := s.0, s.1;
    r := Pass;
  }
}
