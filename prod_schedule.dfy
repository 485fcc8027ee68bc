/** Horse creation in the newest copy: the share check, the horse and ownership rows, and the
    installment schedule with one buyer row per owner and installment. */
module ProdSchedule {
  import opened Calendar
  import opened Entities
  import opened Money
  import opened DueDates
  import opened Store
  import opened ShareChecks
  import ProdModels

  /** The price of one installment, `round(total_value / number_of_installments, 2)`. */
  function InstallmentPrice(horse: Horse): real
    requires horse.numberOfInstallments > 0
  {
    Round2(horse.totalValue / horse.numberOfInstallments as real)
  }

  /** Installment `i` of the schedule, with primary key `id`. */
  function ScheduledInstallment(horse: Horse, i: int, id: int): Installment
    requires horse.numberOfInstallments > 0
  {
    var due := CalculateDueDate(i, horse.startingBillingYear, horse.startingBillingMonth + 1);
    Installment(id, horse.id, due, InstallmentPrice(horse), i, due.month, due.year)
  }

  /** The buyer row of ownership row `hb` for installment `inst`: the unrounded price times the
      share, rounded to cents, nothing paid, PENDING, in the installment's month. */
  function ScheduledShare(horse: Horse, hb: HorseBuyer, inst: Installment, id: int): BuyerInstallment
    requires horse.numberOfInstallments > 0
  {
    BuyerInstallment(id, hb.id, inst.id,
                     Round2(Share(horse.totalValue / horse.numberOfInstallments as real, hb.percentage)),
                     0.0, Pending, Some((inst.dueDate.month, inst.dueDate.year)))
  }

  /** The buyer rows of one installment, one per owner in `horse.buyers` order, with consecutive keys. */
  function SharesFor(horse: Horse, buyers: seq<HorseBuyer>, inst: Installment, firstId: int): (r: seq<BuyerInstallment>)
    requires horse.numberOfInstallments > 0
    ensures |r| == |buyers|
    ensures forall j :: 0 <= j < |buyers| ==> r[j] == ScheduledShare(horse, buyers[j], inst, firstId + j)
  {
    if buyers == [] then []
    else SharesFor(horse, buyers[..|buyers| - 1], inst, firstId)
           + [ScheduledShare(horse, buyers[|buyers| - 1], inst, firstId + |buyers| - 1)]
  }

  /** The first `count` installments and their buyer rows (grouped per installment), and the next
      free key. Each installment takes one key and its buyer rows the following ones. */
  function Schedule(horse: Horse, buyers: seq<HorseBuyer>, count: nat, firstId: int)
    : (r: (seq<Installment>, seq<seq<BuyerInstallment>>, int))
    requires horse.numberOfInstallments > 0
    ensures |r.0| == count && |r.1| == count
  {
    if count == 0 then ([], [], firstId)
    else
      var prev := Schedule(horse, buyers, count - 1, firstId);
      var inst := ScheduledInstallment(horse, count, prev.2);
      (prev.0 + [inst], prev.1 + [SharesFor(horse, buyers, inst, prev.2 + 1)], prev.2 + 1 + |buyers|)
  }

  /** The keys: installment `k` takes `firstId + k * (owners + 1)`, and the next free key follows the last group. */
  lemma {:induction false} ScheduleKeys(horse: Horse, buyers: seq<HorseBuyer>, count: nat, firstId: int)
    requires horse.numberOfInstallments > 0
    ensures var r := Schedule(horse, buyers, count, firstId);
            && r.2 == firstId + count * (|buyers| + 1)
            && (forall k :: 0 <= k < count ==> r.0[k].id == firstId + k * (|buyers| + 1))
  {
    if count > 0 {
      ScheduleKeys(horse, buyers, count - 1, firstId);
      assert (count - 1) * (|buyers| + 1) + (|buyers| + 1) == count * (|buyers| + 1);
    }
  }

  /** Entry `k` of the schedule: installment `k + 1` and the owners' rows for it. */
  lemma {:induction false} ScheduleAt(horse: Horse, buyers: seq<HorseBuyer>, count: nat, firstId: int, k: nat)
    requires horse.numberOfInstallments > 0 && k < count
    ensures var r := Schedule(horse, buyers, count, firstId);
            && r.0[k] == ScheduledInstallment(horse, k + 1, r.0[k].id)
            && r.1[k] == SharesFor(horse, buyers, r.0[k], r.0[k].id + 1)
  {
    if k < count - 1 {
      ScheduleAt(horse, buyers, count - 1, firstId, k);
    }
  }

  function Flatten<T>(groups: seq<seq<T>>): seq<T> {
    if groups == [] then [] else Flatten(groups[..|groups| - 1]) + groups[|groups| - 1]
  }

  /** `_create_installments_for_horse`: one installment per number 1..n and, for each, one buyer row
      per owner. */
  method BuildSchedule(horse: Horse, buyers: seq<HorseBuyer>, firstId: int)
    returns (insts: seq<Installment>, groups: seq<seq<BuyerInstallment>>, nextId: int)
    requires horse.numberOfInstallments > 0
    ensures (insts, groups, nextId) == Schedule(horse, buyers, horse.numberOfInstallments, firstId)
  {
    var n := horse.numberOfInstallments;
    insts, groups, nextId := [], [], firstId;
    var i := 1;
    while i <= n
      invariant 1 <= i <= n + 1
      invariant (insts, groups, nextId) == Schedule(horse, buyers, i - 1, firstId)
    {
      var inst := ScheduledInstallment(horse, i, nextId);
      var rows := BuildShares(horse, buyers, inst, nextId + 1);
      insts, groups, nextId := insts + [inst], groups + [rows], nextId + 1 + |buyers|;
      i := i + 1;
    }
  }

  /** The inner loop of `_create_installments_for_horse`: one row per owner of the horse. */
  method BuildShares(horse: Horse, buyers: seq<HorseBuyer>, inst: Installment, firstId: int)
    returns (rows: seq<BuyerInstallment>)
    requires horse.numberOfInstallments > 0
    ensures rows == SharesFor(horse, buyers, inst, firstId)
  {
    rows := [];
    var j := 0;
    while j < |buyers|
      invariant 0 <= j <= |buyers|
      invariant rows == SharesFor(horse, buyers[..j], inst, firstId)
    {
      rows := rows + [ScheduledShare(horse, buyers[j], inst, firstId + j)];
      assert buyers[..j + 1][..j] == buyers[..j];
      j := j + 1;
    }
    assert buyers[..j] == buyers;
  }

  /** What the schedule promises of each installment: numbers 1..n in order, each priced
      `round(total / n, 2)`, due on the last day of the month `k` months after the starting billing
      month, with mes/año that month. */
  lemma ScheduledInstallmentFacts(horse: Horse, buyers: seq<HorseBuyer>, firstId: int, k: nat)
    requires horse.numberOfInstallments > 0 && 1 <= horse.startingBillingMonth <= 12
    requires k < horse.numberOfInstallments
    ensures var inst := Schedule(horse, buyers, horse.numberOfInstallments, firstId).0[k];
            && inst.number == k + 1 && inst.horseId == horse.id
            && inst.amount == Round2(horse.totalValue / horse.numberOfInstallments as real)
            && Valid(inst.dueDate) && inst.dueDate.day == DaysInMonth(inst.dueDate.year, inst.dueDate.month)
            && MonthIndex(inst.dueDate)
               == horse.startingBillingYear * 12 + horse.startingBillingMonth - 1 + (k + 1)
            && inst.mes == inst.dueDate.month && inst.anio == inst.dueDate.year
  {
    ScheduleAt(horse, buyers, horse.numberOfInstallments, firstId, k);
    var inst := Schedule(horse, buyers, horse.numberOfInstallments, firstId).0[k];
    assert inst == ScheduledInstallment(horse, k + 1, inst.id);
    ScheduleMonthsAfterBilling(k + 1, horse.startingBillingYear, horse.startingBillingMonth);
  }

  /** What the schedule promises of each buyer row: one per owner and installment, of the owner's
      share of the unrounded price rounded to cents, nothing paid, PENDING, in the installment's month. */
  lemma ScheduledRowFacts(horse: Horse, buyers: seq<HorseBuyer>, firstId: int, k: nat, j: nat)
    requires horse.numberOfInstallments > 0
    requires k < horse.numberOfInstallments && j < |buyers|
    ensures var s := Schedule(horse, buyers, horse.numberOfInstallments, firstId);
            && |s.1[k]| == |buyers|
            && var row := s.1[k][j];
            && row.horseBuyerId == buyers[j].id && row.installmentId == s.0[k].id
            && row.amount == Round2(Share(horse.totalValue / horse.numberOfInstallments as real, buyers[j].percentage))
            && row.amountPaid == 0.0 && row.status == Pending
            && row.period == Some((s.0[k].mes, s.0[k].anio))
  {
    ScheduleAt(horse, buyers, horse.numberOfInstallments, firstId, k);
    var s := Schedule(horse, buyers, horse.numberOfInstallments, firstId);
    assert s.0[k] == ScheduledInstallment(horse, k + 1, s.0[k].id);
    assert s.1[k] == SharesFor(horse, buyers, s.0[k], s.0[k].id + 1);
    assert s.1[k][j] == ScheduledShare(horse, buyers[j], s.0[k], s.0[k].id + 1 + j);
  }

  /** Buyer amounts are rounded one by one, so they need not add up to the installment: for an
      accepted share list the difference stays within half a cent per owner, half a cent for the
      installment's own rounding, and one ten-thousandth of the unrounded price. */
  lemma {:induction false} ScheduleSplitDeviation(horse: Horse, buyers: seq<HorseBuyer>, inst: Installment, firstId: int)
    requires horse.numberOfInstallments > 0 && horse.totalValue >= 0.0
    requires inst.amount == InstallmentPrice(horse)
    requires WithinTolerance(Sum(Balances.Percentages(buyers)))
    ensures var price := horse.totalValue / horse.numberOfInstallments as real;
            var d := Sum(RowAmounts(SharesFor(horse, buyers, inst, firstId))) - inst.amount;
            -0.005 * (|buyers| as real + 1.0) - price * 0.0001 <= d <= 0.005 * (|buyers| as real + 1.0) + price * 0.0001
  {
    var price := horse.totalValue / horse.numberOfInstallments as real;
    var pcts := Balances.Percentages(buyers);
    var xs := Shares(price, pcts);
    var ys := RowAmounts(SharesFor(horse, buyers, inst, firstId));
    RoundedSumDeviation(xs, ys);
    assert price >= 0.0 by {
      assert horse.numberOfInstallments as real > 0.0;
    }
    SharesWithinTolerance(price, pcts);
  }

  function RowAmounts(rows: seq<BuyerInstallment>): (r: seq<real>)
    ensures |r| == |rows|
    ensures forall k :: 0 <= k < |rows| ==> r[k] == rows[k].amount
  {
    if rows == [] then [] else RowAmounts(rows[..|rows| - 1]) + [rows[|rows| - 1].amount]
  }

  /** The ownership rows created from `buyers_data`, for horse `horseId`, with consecutive keys. */
  function NewShares(data: seq<BuyerData>, horseId: int, firstId: int): (r: seq<HorseBuyer>)
    ensures |r| == |data|
    ensures forall k :: 0 <= k < |data| ==>
              r[k] == HorseBuyer(firstId + k, horseId, data[k].buyerId, data[k].percentage, true, 0.0)
  {
    if data == [] then []
    else NewShares(data[..|data| - 1], horseId, firstId)
           + [HorseBuyer(firstId + |data| - 1, horseId, data[|data| - 1].buyerId, data[|data| - 1].percentage, true, 0.0)]
  }

  /** Everything horse creation checks after the share sum, in the order the source meets it:
      the horse's CHECK constraints at the first flush, the `percentage` validator for each owner,
      `uix_horse_buyer`, then the installment and buyer-row CHECK constraints. */
  predicate CreationRowsValid(db_hbs: seq<HorseBuyer>, horse: Horse, shares: seq<HorseBuyer>,
                              insts: seq<Installment>, rows: seq<BuyerInstallment>)
  {
    && ProdModels.HorseChecks(horse)
    && (forall k :: 0 <= k < |shares| ==> ProdModels.PercentageInRange(shares[k].percentage))
    && ProdModels.UniqueShares(db_hbs + shares)
    && (forall k :: 0 <= k < |insts| ==> ProdModels.InstallmentChecks(insts[k]))
    && (forall k :: 0 <= k < |rows| ==> ProdModels.BuyerInstallmentChecks(rows[k]))
  }

  /** The error the first failing check raises: the `percentage` validator's `assert` raises an
      AssertionError, which the creation does not catch (a 500 after the rollback); the constraints
      fail the flush (500). Either way nothing is written. */
  function CheckCreationRows(db_hbs: seq<HorseBuyer>, horse: Horse, shares: seq<HorseBuyer>,
                             insts: seq<Installment>, rows: seq<BuyerInstallment>): (r: Outcome)
    ensures r == Pass <==> CreationRowsValid(db_hbs, horse, shares, insts, rows)
    ensures r.Fail? ==> r.error in {ConstraintViolation, InvalidValue("percentage")}
    ensures r == Fail(InvalidValue("percentage")) <==>
              ProdModels.HorseChecks(horse)
              && exists k :: 0 <= k < |shares| && !ProdModels.PercentageInRange(shares[k].percentage)
  {
    if !ProdModels.HorseChecks(horse) then Fail(ConstraintViolation)
    else if exists k :: 0 <= k < |shares| && !ProdModels.PercentageInRange(shares[k].percentage)
    then Fail(InvalidValue("percentage"))
    else if !CreationRowsValid(db_hbs, horse, shares, insts, rows) then Fail(ConstraintViolation)
    else Pass
  }

  /** The horse row `_create_horse_with_buyers` builds (creation date = now). */
  function NewHorse(id: int, total: real, n: int, billingMonth: int, billingYear: int, now: DateTime): Horse {
    Horse(id, total, n, None, billingMonth, billingYear, now)
  }

  /** The schedule that creation adds: none when `number_of_installments` is not positive. */
  function CreationSchedule(horse: Horse, shares: seq<HorseBuyer>, firstId: int)
    : (seq<Installment>, seq<seq<BuyerInstallment>>, int)
  {
    if horse.numberOfInstallments > 0 then Schedule(horse, shares, horse.numberOfInstallments, firstId)
    else ([], [], firstId)
  }

  /** What a successful creation writes: the horse, its ownership rows, its installments and their
      buyer rows, and the next free key. */
  datatype Creation = Creation(horse: Horse, shares: seq<HorseBuyer>, insts: seq<Installment>,
                               rows: seq<BuyerInstallment>, nextId: int)

  /** `_create_horse_with_buyers` as a function of the ownership table and the next free key. A share
      sum off 100 by more than 0.01 is rejected first; then the rows are built and checked in order. */
  function PlanCreation(hbs: seq<HorseBuyer>, firstId: int, total: real, n: int, data: seq<BuyerData>,
                        billingMonth: int, billingYear: int, now: DateTime): Result<Creation>
  {
    var shareCheck := CheckCreationShares(data);
    if shareCheck.Fail? then Err(shareCheck.error)
    else
      var horse := NewHorse(firstId, total, n, billingMonth, billingYear, now);
      var shares := NewShares(data, firstId, firstId + 1);
      var s := CreationSchedule(horse, shares, firstId + 1 + |data|);
      var rowCheck := CheckCreationRows(hbs, horse, shares, s.0, Flatten(s.1));
      if rowCheck.Fail? then Err(rowCheck.error)
      else Ok(Creation(horse, shares, s.0, Flatten(s.1), s.2))
  }

  /** Creation fails with the share-sum error exactly when the sum is off 100 by more than 0.01; it
      succeeds exactly when the sum is close enough and every row it builds passes its checks, and
      then it writes the horse with the next free key, one ownership row per buyer (active, zero
      balance) and the schedule. */
  lemma PlanCreationSpec(hbs: seq<HorseBuyer>, firstId: int, total: real, n: int, data: seq<BuyerData>,
                         billingMonth: int, billingYear: int, now: DateTime)
    ensures var r := PlanCreation(hbs, firstId, total, n, data, billingMonth, billingYear, now);
            var horse := NewHorse(firstId, total, n, billingMonth, billingYear, now);
            var shares := NewShares(data, firstId, firstId + 1);
            var s := CreationSchedule(horse, shares, firstId + 1 + |data|);
            && (r == Err(ShareSumNot100) <==> !WithinTolerance(Sum(PercentagesOfData(data))))
            && (r.Ok? <==> WithinTolerance(Sum(PercentagesOfData(data)))
                           && CreationRowsValid(hbs, horse, shares, s.0, Flatten(s.1)))
            && (r.Ok? ==> r.value == Creation(horse, shares, s.0, Flatten(s.1), s.2))
  {
  }

  /** The rows `_create_horse_with_buyers` builds and checks before the commit, with the schedule
      built by `_create_installments_for_horse`. */
  method BuildCreation(hbs: seq<HorseBuyer>, firstId: int, total: real, n: int, data: seq<BuyerData>,
                       billingMonth: int, billingYear: int, now: DateTime)
    returns (r: Result<Creation>)
    ensures r == PlanCreation(hbs, firstId, total, n, data, billingMonth, billingYear, now)
  {
    var shareCheck := CheckCreationShares(data);
    if shareCheck.Fail? {
      return Err(shareCheck.error);
    }
    var horse := NewHorse(firstId, total, n, billingMonth, billingYear, now);
    var shares := NewShares(data, firstId, firstId + 1);
    var insts: seq<Installment> := [];
    var groups: seq<seq<BuyerInstallment>> := [];
    var next := firstId + 1 + |data|;
    if n > 0 {
      insts, groups, next := BuildSchedule(horse, shares, next);
    }
    assert (insts, groups, next) == CreationSchedule(horse, shares, firstId + 1 + |data|);
    var rows := Flatten(groups);
    var rowCheck := CheckCreationRows(hbs, horse, shares, insts, rows);
    if rowCheck.Fail? {
      return Err(rowCheck.error);
    }
    return Ok(Creation(horse, shares, insts, rows, next));
  }

  /** `_create_horse_with_buyers`: on success the horse, its ownership rows and its schedule are
      appended and the new horse's key is returned; any failure rolls the whole creation back. */
  method CreateHorseWithBuyers(db: Session, total: real, n: int, data: seq<BuyerData>,
                               billingMonth: int, billingYear: int, now: DateTime)
    returns (r: Result<int>)
    modifies db
    ensures var p := PlanCreation(old(db.horseBuyers), old(db.nextId), total, n, data, billingMonth, billingYear, now);
            && (r.Ok? <==> p.Ok?)
            && (r.Err? ==> r.error == p.error && unchanged(db))
            && (p.Ok? ==>
                  && r.value == p.value.horse.id
                  && db.horses == old(db.horses) + [p.value.horse]
                  && db.horseBuyers == old(db.horseBuyers) + p.value.shares
                  && db.installments == old(db.installments) + p.value.insts
                  && db.buyerInstallments == old(db.buyerInstallments) + p.value.rows
                  && db.nextId == p.value.nextId
                  && db.users == old(db.users) && db.transactions == old(db.transactions))
  {
    var plan := BuildCreation(db.horseBuyers, db.nextId, total, n, data, billingMonth, billingYear, now);
    if plan.Err? {
      return Err(plan.error);
    }
    var c := plan.value;
    db.horses := db.horses + [c.horse];
    db.horseBuyers := db.horseBuyers + c.shares;
    db.installments := db.installments + c.insts;
    db.buyerInstallments := db.buyerInstallments + c.rows;
    db.nextId := c.nextId;
    r := Ok(c.horse.id);
  }
}
