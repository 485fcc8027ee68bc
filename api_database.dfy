/** The accounting helpers of the oldest copy's database module (`api/database.py`): installments due
    every thirty days, an income spread greedily over a horse's unpaid buyer rows, and the prize and
    expense distribution, where an expense charges active owners only. */
module ApiDatabase {
  import opened Calendar
  import opened Entities
  import opened Money
  import opened DueDates
  import opened Store
  import opened Balances
  import ProdCrud
  import ProdSchedule

  // ---------------------------------------------------------------------------------------------
  // The installment schedule

  /** Installment `i` (numbered from 1) with key `id`: the stored installment amount, due `30 * i` days
      after the horse's creation. This schema stores no (mes, año); the model records the due date's. */
  function ThirtyDayInstallment(horse: Horse, amount: real, i: nat, id: int): Installment
    requires Valid(horse.creationDate)
  {
    var due := CalculateDueDateThirtyDays(horse.creationDate, i);
    Installment(id, horse.id, due, amount, i, due.month, due.year)
  }

  /** The buyer rows of installment `inst`: `installment_amount * percentage / 100` for each owner,
      and the column defaults (nothing paid, PENDING). */
  function ThirtyDayShares(buyers: seq<HorseBuyer>, amount: real, inst: Installment, firstId: int)
    : (r: seq<BuyerInstallment>)
    ensures |r| == |buyers|
    ensures forall j :: 0 <= j < |buyers| ==>
              r[j] == BuyerInstallment(firstId + j, buyers[j].id, inst.id, Share(amount, buyers[j].percentage),
                                       0.0, Pending, None)
  {
    if buyers == [] then []
    else
      var hb := buyers[|buyers| - 1];
      ThirtyDayShares(buyers[..|buyers| - 1], amount, inst, firstId)
        + [BuyerInstallment(firstId + |buyers| - 1, hb.id, inst.id, Share(amount, hb.percentage), 0.0, Pending, None)]
  }

  /** The first `count` installments and their buyer rows (grouped per installment), and the next free key. */
  function ThirtyDaySchedule(horse: Horse, amount: real, buyers: seq<HorseBuyer>, count: nat, firstId: int)
    : (r: (seq<Installment>, seq<seq<BuyerInstallment>>, int))
    requires Valid(horse.creationDate)
    ensures |r.0| == count && |r.1| == count
    ensures forall k :: 0 <= k < count ==> |r.1[k]| == |buyers|
  {
    if count == 0 then ([], [], firstId)
    else
      var prev := ThirtyDaySchedule(horse, amount, buyers, count - 1, firstId);
      var inst := ThirtyDayInstallment(horse, amount, count, prev.2);
      (prev.0 + [inst], prev.1 + [ThirtyDayShares(buyers, amount, inst, prev.2 + 1)], prev.2 + 1 + |buyers|)
  }

  /** Entry `k` of the schedule is installment `k + 1`, with the owners' rows for it keyed after it. */
  lemma {:induction false} ThirtyDayScheduleAt(horse: Horse, amount: real, buyers: seq<HorseBuyer>, count: nat,
                                               firstId: int, k: nat)
    requires Valid(horse.creationDate) && k < count
    ensures var s := ThirtyDaySchedule(horse, amount, buyers, count, firstId);
            && s.0[k] == ThirtyDayInstallment(horse, amount, k + 1, s.0[k].id)
            && s.1[k] == ThirtyDayShares(buyers, amount, s.0[k], s.0[k].id + 1)
  {
    if k < count - 1 {
      ThirtyDayScheduleAt(horse, amount, buyers, count - 1, firstId, k);
    }
  }

  /** What `create_horse_installments` promises: installments numbered 1..n at the stored amount, the
      `n`-th due `30 * n` days after creation (so each one thirty days after the previous one, by
      `DueDates.ThirtyDaysApart`), and for each one row per owner at the owner's share of the amount,
      nothing paid, PENDING. */
  lemma ThirtyDayScheduleFacts(horse: Horse, amount: real, buyers: seq<HorseBuyer>, count: nat, firstId: int,
                               k: nat, j: nat)
    requires Valid(horse.creationDate) && k < count && j < |buyers|
    ensures var s := ThirtyDaySchedule(horse, amount, buyers, count, firstId);
            && s.0[k].number == k + 1 && s.0[k].horseId == horse.id && s.0[k].amount == amount
            && s.0[k].dueDate == CalculateDueDateThirtyDays(horse.creationDate, k + 1)
            && Before(horse.creationDate, s.0[k].dueDate)
            && s.1[k][j].horseBuyerId == buyers[j].id && s.1[k][j].installmentId == s.0[k].id
            && s.1[k][j].amount == Share(amount, buyers[j].percentage)
            && s.1[k][j].amountPaid == 0.0 && s.1[k][j].status == Pending
  {
    ThirtyDayScheduleAt(horse, amount, buyers, count, firstId, k);
  }

  /** The inner loop of `create_horse_installments`: one row per owner for installment `inst`. */
  method BuildThirtyDayShares(buyers: seq<HorseBuyer>, amount: real, inst: Installment, firstId: int)
    returns (shares: seq<BuyerInstallment>)
    ensures shares == ThirtyDayShares(buyers, amount, inst, firstId)
  {
    shares := [];
    var j := 0;
    while j < |buyers|
      invariant 0 <= j <= |buyers|
      invariant shares == ThirtyDayShares(buyers[..j], amount, inst, firstId)
    {
      assert buyers[..j + 1][..j] == buyers[..j];
      shares := shares + [BuyerInstallment(firstId + j, buyers[j].id, inst.id, Share(amount, buyers[j].percentage),
                                           0.0, Pending, None)];
      j := j + 1;
    }
    assert buyers[..j] == buyers;
  }

  /** The outer loop of `create_horse_installments`: installments 1..count and their rows. */
  method BuildThirtyDaySchedule(horse: Horse, amount: real, buyers: seq<HorseBuyer>, count: nat, firstId: int)
    returns (insts: seq<Installment>, groups: seq<seq<BuyerInstallment>>, next: int)
    requires Valid(horse.creationDate)
    ensures (insts, groups, next) == ThirtyDaySchedule(horse, amount, buyers, count, firstId)
  {
    insts, groups, next := [], [], firstId;
    var i := 0;
    while i < count
      invariant 0 <= i <= count
      invariant (insts, groups, next) == ThirtyDaySchedule(horse, amount, buyers, i, firstId)
    {
      var inst := ThirtyDayInstallment(horse, amount, i + 1, next);
      var shares := BuildThirtyDayShares(buyers, amount, inst, next + 1);
      insts, groups, next := insts + [inst], groups + [shares], next + 1 + |buyers|;
      i := i + 1;
    }
  }

  /** `create_horse_installments` on the session: the schedule over `horse.buyers`, then one commit.
      The schema's NOT NULL `installment_amount` is present. */
  method CreateHorseInstallments(db: Session, horse: Horse) returns (count: nat)
    requires Valid(horse.creationDate) && horse.installmentAmount.Some?
    modifies db
    ensures count == if horse.numberOfInstallments > 0 then horse.numberOfInstallments else 0
    ensures var s := ThirtyDaySchedule(horse, horse.installmentAmount.value, BuyersOf(old(db.horseBuyers), horse.id),
                                       count, old(db.nextId));
            && db.installments == old(db.installments) + s.0
            && db.buyerInstallments == old(db.buyerInstallments) + ProdSchedule.Flatten(s.1)
            && db.nextId == s.2
            && db.users == old(db.users) && db.horses == old(db.horses)
            && db.horseBuyers == old(db.horseBuyers) && db.transactions == old(db.transactions)
  {
    count := if horse.numberOfInstallments > 0 then horse.numberOfInstallments else 0;
    var insts, groups, next := BuildThirtyDaySchedule(horse, horse.installmentAmount.value,
                                                      BuyersOf(db.horseBuyers, horse.id), count, db.nextId);
    db.installments, db.buyerInstallments, db.nextId := db.installments + insts, db.buyerInstallments + ProdSchedule.Flatten(groups), next;
  }

  // ---------------------------------------------------------------------------------------------
  // Greedy spreading of an income

  /** The installment with key `instId` is one of horse `horseId`'s (the join in
      `get_pending_buyer_installments`). */
  predicate InstallmentOfHorse(insts: seq<Installment>, instId: int, horseId: int) {
    exists i :: 0 <= i < |insts| && insts[i].id == instId && insts[i].horseId == horseId
  }

  /** The rows `get_pending_buyer_installments` returns: the horse's rows that are not PAID, whichever
      owner they belong to. */
  predicate Eligible(bi: BuyerInstallment, insts: seq<Installment>, horseId: int) {
    bi.status != Paid && InstallmentOfHorse(insts, bi.installmentId, horseId)
  }

  /** A row whose status was derived from its payments: one that is not PAID still owes something. */
  predicate Consistent(bi: BuyerInstallment) {
    bi.status != Paid ==> bi.amountPaid < bi.amount
  }

  function Min(a: real, b: real): (r: real)
    ensures r <= a && r <= b && (r == a || r == b)
  {
    if a <= b then a else b
  }

  /** `distribute_installment_payment` over the table in query order: while money remains, each
      eligible row receives `min(amount - amount_paid, remaining)` and its status is recomputed; the
      rows, and what remains. */
  function Greedy(rows: seq<BuyerInstallment>, insts: seq<Installment>, horseId: int, total: real)
    : (r: (seq<BuyerInstallment>, real))
    ensures |r.0| == |rows|
  {
    if rows == [] then ([], total)
    else
      var prev := Greedy(rows[..|rows| - 1], insts, horseId, total);
      var bi := rows[|rows| - 1];
      if prev.1 <= 0.0 || !Eligible(bi, insts, horseId) then (prev.0 + [bi], prev.1)
      else
        var pay := Min(Outstanding(bi), prev.1);
        (prev.0 + [UpdateInstallmentStatus(bi.(amountPaid := bi.amountPaid + pay))], prev.1 - pay)
  }

  /** Sum of `amount_paid` over the rows. */
  function PaidSum(rows: seq<BuyerInstallment>): real {
    if rows == [] then 0.0 else PaidSum(rows[..|rows| - 1]) + rows[|rows| - 1].amountPaid
  }

  /** What the horse's eligible rows still owe. */
  function Owed(rows: seq<BuyerInstallment>, insts: seq<Installment>, horseId: int): real {
    if rows == [] then 0.0
    else Owed(rows[..|rows| - 1], insts, horseId)
           + if Eligible(rows[|rows| - 1], insts, horseId) then Outstanding(rows[|rows| - 1]) else 0.0
  }

  /** Row by row: a row that is not eligible is untouched; an eligible one keeps everything but its
      payment and status, and its payment only grows, never past its amount. */
  lemma {:induction false} GreedyRows(rows: seq<BuyerInstallment>, insts: seq<Installment>, horseId: int,
                                      total: real, k: nat)
    requires k < |rows| && Consistent(rows[k])
    ensures var x := Greedy(rows, insts, horseId, total).0[k];
            && (!Eligible(rows[k], insts, horseId) ==> x == rows[k])
            && x == rows[k].(amountPaid := x.amountPaid, status := x.status)
            && rows[k].amountPaid <= x.amountPaid
            && (Eligible(rows[k], insts, horseId) ==> x.amountPaid <= x.amount)
            && Consistent(x)
  {
    if k < |rows| - 1 {
      GreedyRows(rows[..|rows| - 1], insts, horseId, total, k);
    }
  }

  /** Money is conserved: what the rows gained is exactly what the income lost. */
  lemma {:induction false} GreedyConserves(rows: seq<BuyerInstallment>, insts: seq<Installment>, horseId: int, total: real)
    ensures var r := Greedy(rows, insts, horseId, total);
            PaidSum(r.0) + r.1 == PaidSum(rows) + total
  {
    if rows != [] {
      var init := rows[..|rows| - 1];
      GreedyConserves(init, insts, horseId, total);
      var r := Greedy(rows, insts, horseId, total);
      assert r.0[..|rows| - 1] == Greedy(init, insts, horseId, total).0;
      assert rows[..|rows| - 1] == init;
    }
  }

  /** The amount applied is `min(total, what the eligible rows owe)` for a non-negative income, and
      nothing for a non-positive one; what remains is never negative. */
  lemma {:induction false} GreedyApplied(rows: seq<BuyerInstallment>, insts: seq<Installment>, horseId: int, total: real)
    requires forall k :: 0 <= k < |rows| ==> Consistent(rows[k])
    ensures var r := Greedy(rows, insts, horseId, total);
            && (total >= 0.0 ==> total - r.1 == Min(total, Owed(rows, insts, horseId)) && r.1 >= 0.0)
            && (total <= 0.0 ==> r == (rows, total))
  {
    if rows != [] {
      var init := rows[..|rows| - 1];
      assert forall k :: 0 <= k < |init| ==> init[k] == rows[k];
      GreedyApplied(init, insts, horseId, total);
      assert rows == init + [rows[|rows| - 1]];
      assert Consistent(rows[|rows| - 1]);
    }
  }

  /** The greedy spread is prefix-closed: the first `k` rows come out as they would from the first
      `k` rows alone. */
  lemma {:induction false} GreedyPrefix(rows: seq<BuyerInstallment>, insts: seq<Installment>, horseId: int,
                                        total: real, k: nat)
    requires k <= |rows|
    ensures Greedy(rows, insts, horseId, total).0[..k] == Greedy(rows[..k], insts, horseId, total).0
  {
    if k < |rows| {
      var init := rows[..|rows| - 1];
      GreedyPrefix(init, insts, horseId, total, k);
      assert init[..k] == rows[..k];
      assert Greedy(rows, insts, horseId, total).0[..|rows| - 1] == Greedy(init, insts, horseId, total).0;
    } else {
      assert rows[..k] == rows;
    }
  }

  /** Money left over means every eligible row is now PAID. */
  lemma {:induction false} GreedyLeftover(rows: seq<BuyerInstallment>, insts: seq<Installment>, horseId: int, total: real)
    requires forall k :: 0 <= k < |rows| ==> Consistent(rows[k])
    requires Greedy(rows, insts, horseId, total).1 > 0.0
    ensures forall k :: 0 <= k < |rows| && Eligible(rows[k], insts, horseId) ==>
              Greedy(rows, insts, horseId, total).0[k].status == Paid
  {
    if rows != [] {
      var init := rows[..|rows| - 1];
      var prev := Greedy(init, insts, horseId, total);
      assert prev.1 >= Greedy(rows, insts, horseId, total).1;
      GreedyLeftover(init, insts, horseId, total);
      forall k | 0 <= k < |rows| && Eligible(rows[k], insts, horseId)
        ensures Greedy(rows, insts, horseId, total).0[k].status == Paid
      {
        if k < |init| {
          assert Greedy(rows, insts, horseId, total).0[k] == prev.0[k];
        }
      }
    }
  }

  /** Rows are paid in query order: a row that receives money comes after eligible rows that are all
      paid in full. */
  lemma GreedyInOrder(rows: seq<BuyerInstallment>, insts: seq<Installment>, horseId: int, total: real, k: nat)
    requires forall i :: 0 <= i < |rows| ==> Consistent(rows[i])
    requires k < |rows| && Greedy(rows, insts, horseId, total).0[k] != rows[k]
    ensures forall i :: 0 <= i < k && Eligible(rows[i], insts, horseId) ==>
              Greedy(rows, insts, horseId, total).0[i].status == Paid
  {
    var r := Greedy(rows, insts, horseId, total).0;
    GreedyPrefix(rows, insts, horseId, total, k + 1);
    var upto := rows[..k + 1];
    assert upto[..k] == rows[..k];
    assert Greedy(upto, insts, horseId, total).0[k] == r[k];
    var before := Greedy(rows[..k], insts, horseId, total);
    assert before.1 > 0.0;
    GreedyLeftover(rows[..k], insts, horseId, total);
    GreedyPrefix(rows, insts, horseId, total, k);
    forall i | 0 <= i < k && Eligible(rows[i], insts, horseId) ensures r[i].status == Paid {
      assert rows[..k][i] == rows[i];
      assert r[..k][i] == r[i];
    }
  }

  /** Once the income is used up the remaining rows are untouched, so the loop may stop. */
  lemma {:induction false} GreedyStops(rows: seq<BuyerInstallment>, insts: seq<Installment>, horseId: int,
                                       total: real, k: nat)
    requires k <= |rows| && Greedy(rows[..k], insts, horseId, total).1 <= 0.0
    ensures Greedy(rows, insts, horseId, total)
         == (Greedy(rows[..k], insts, horseId, total).0 + rows[k..], Greedy(rows[..k], insts, horseId, total).1)
  {
    if k < |rows| {
      var init := rows[..|rows| - 1];
      assert init[..k] == rows[..k];
      GreedyStops(init, insts, horseId, total, k);
      var before := Greedy(rows[..k], insts, horseId, total);
      assert Greedy(init, insts, horseId, total) == (before.0 + init[k..], before.1);
      assert rows[k..] == init[k..] + [rows[|rows| - 1]];
      assert before.0 + init[k..] + [rows[|rows| - 1]] == before.0 + rows[k..];
    } else {
      assert rows[..k] == rows;
      assert Greedy(rows, insts, horseId, total).0 + rows[k..] == Greedy(rows, insts, horseId, total).0;
    }
  }

  /** The loop of `distribute_installment_payment`, with its early exit. */
  method SpreadIncome(rows: seq<BuyerInstallment>, insts: seq<Installment>, horseId: int, total: real)
    returns (out: seq<BuyerInstallment>, remaining: real)
    ensures (out, remaining) == Greedy(rows, insts, horseId, total)
  {
    out, remaining := [], total;
    var k := 0;
    while k < |rows|
      invariant 0 <= k <= |rows|
      invariant (out, remaining) == Greedy(rows[..k], insts, horseId, total)
    {
      assert rows[..k + 1][..k] == rows[..k];
      var bi := rows[k];
      if Eligible(bi, insts, horseId) {
        if remaining <= 0.0 {
          GreedyStops(rows, insts, horseId, total, k);
          out := out + rows[k..];
          return;
        }
        var pay := Min(bi.amount - bi.amountPaid, remaining);
        bi := UpdateInstallmentStatus(bi.(amountPaid := bi.amountPaid + pay));
        remaining := remaining - pay;
      }
      out := out + [bi];
      k := k + 1;
    }
    assert rows[..k] == rows;
  }

  /** `distribute_installment_payment` on the session: without a horse the query raises. */
  method DistributeInstallmentPayment(db: Session, t: Transaction) returns (r: Outcome)
    modifies db
    ensures t.horseId.None? || !ProdCrud.HorseExists(old(db.horses), t.horseId.value) ==>
              r == Fail(MissingRelation) && unchanged(db)
    ensures t.horseId.Some? && ProdCrud.HorseExists(old(db.horses), t.horseId.value) ==>
              r == Pass
              && db.buyerInstallments == Greedy(old(db.buyerInstallments), old(db.installments), t.horseId.value, t.totalAmount).0
              && db.users == old(db.users) && db.horses == old(db.horses) && db.horseBuyers == old(db.horseBuyers)
              && db.installments == old(db.installments) && db.transactions == old(db.transactions)
              && db.nextId == old(db.nextId)
  {
    if t.horseId.None? || !ProdCrud.HorseExists(db.horses, t.horseId.value) {
      return Fail(MissingRelation);
    }
    var rows, _ := SpreadIncome(db.buyerInstallments, db.installments, t.horseId.value, t.totalAmount);
    db.buyerInstallments := rows;
    r := Pass;
  }

  // ---------------------------------------------------------------------------------------------
  // Prize and expense

  /** The active ownership rows, in order. */
  function ActiveOnly(buyers: seq<HorseBuyer>): (r: seq<HorseBuyer>)
    ensures forall b :: b in r <==> b in buyers && b.active
  {
    if buyers == [] then []
    else ActiveOnly(buyers[..|buyers| - 1]) + if buyers[|buyers| - 1].active then [buyers[|buyers| - 1]] else []
  }

  /** The owners a prize or expense reaches: every owner for a prize, the active ones for an expense. */
  function Reached(buyers: seq<HorseBuyer>, t: Transaction): seq<HorseBuyer> {
    if t.kind == Premio then buyers else ActiveOnly(buyers)
  }

  /** `distribute_prize` (every owner credited with the unrounded share) and `distribute_expense`
      (only active owners debited); a missing horse, or a missing user among the owners it reaches,
      raises. */
  function ApiDistribute(users: map<int, User>, horses: seq<Horse>, hbs: seq<HorseBuyer>, t: Transaction)
    : (r: Result<map<int, User>>)
    requires t.kind == Premio || t.kind == Egreso
    ensures r.Ok? ==> r.value.Keys == users.Keys
    ensures r.Err? ==> r.error == MissingRelation
    ensures r.Err? <==> ProdCrud.TransactionBuyers(horses, hbs, t).None?
                        || !ProdCrud.OwnersHaveUsers(Reached(ProdCrud.TransactionBuyers(horses, hbs, t).value, t), users)
  {
    match ProdCrud.TransactionBuyers(horses, hbs, t)
    case None => Err(MissingRelation)
    case Some(buyers) =>
      var reached := Reached(buyers, t);
      if !ProdCrud.OwnersHaveUsers(reached, users) then Err(MissingRelation)
      else if t.kind == Premio then Ok(Apply(users, ExactShares(reached, t.totalAmount)))
      else Ok(Apply(users, Negated(ExactShares(reached, t.totalAmount))))
  }

  /** An expense leaves alone every user who holds no active share of the horse. */
  lemma ExpenseSkipsInactive(users: map<int, User>, horses: seq<Horse>, hbs: seq<HorseBuyer>, t: Transaction, u: int)
    requires t.kind == Egreso && ApiDistribute(users, horses, hbs, t).Ok? && u in users
    requires forall b :: b in BuyersOf(hbs, t.horseId.value) && b.buyerId == u ==> !b.active
    ensures ApiDistribute(users, horses, hbs, t).value[u] == users[u]
  {
    var reached := ActiveOnly(BuyersOf(hbs, t.horseId.value));
    var ds := ExactShares(reached, t.totalAmount);
    forall k | 0 <= k < |ds| ensures ds[k].userId != u {
      assert reached[k] in reached;
    }
    SumForAbsent(ds, u);
    SumForNegated(ds, u);
    ApplyAt(users, Negated(ds), u);
  }

  /** A prize credits every owner with distinct users, active or not, with exactly its unrounded share. */
  lemma PrizeReachesEveryOwner(users: map<int, User>, horses: seq<Horse>, hbs: seq<HorseBuyer>, t: Transaction, k: nat)
    requires t.kind == Premio && ApiDistribute(users, horses, hbs, t).Ok?
    requires k < |BuyersOf(hbs, t.horseId.value)| && ProdCrud.DistinctOwners(BuyersOf(hbs, t.horseId.value))
    ensures var b := BuyersOf(hbs, t.horseId.value)[k];
            ApiDistribute(users, horses, hbs, t).value[b.buyerId].balance
            == users[b.buyerId].balance + Share(t.totalAmount, b.percentage)
  {
    var buyers := BuyersOf(hbs, t.horseId.value);
    var ds := ExactShares(buyers, t.totalAmount);
    SumForDistinct(ds, k);
    ApplyAt(users, ds, buyers[k].buyerId);
  }

  /** An expense debits every active owner with distinct users by exactly its unrounded share. */
  lemma ExpenseDebitsActiveOwner(users: map<int, User>, horses: seq<Horse>, hbs: seq<HorseBuyer>, t: Transaction, k: nat)
    requires t.kind == Egreso && ApiDistribute(users, horses, hbs, t).Ok?
    requires var active := ActiveOnly(BuyersOf(hbs, t.horseId.value));
             k < |active| && ProdCrud.DistinctOwners(active)
    ensures var b := ActiveOnly(BuyersOf(hbs, t.horseId.value))[k];
            ApiDistribute(users, horses, hbs, t).value[b.buyerId].balance
            == users[b.buyerId].balance - Share(t.totalAmount, b.percentage)
  {
    var active := ActiveOnly(BuyersOf(hbs, t.horseId.value));
    assert ApiDistribute(users, horses, hbs, t).value == Apply(users, Negated(ExactShares(active, t.totalAmount)));
    DebitAt(users, active, t.totalAmount, k);
  }

  /** Debiting the unrounded shares of owners with distinct users lowers owner `k`'s user by its share. */
  lemma DebitAt(users: map<int, User>, buyers: seq<HorseBuyer>, total: real, k: nat)
    requires k < |buyers| && ProdCrud.DistinctOwners(buyers) && ProdCrud.OwnersHaveUsers(buyers, users)
    ensures var u := buyers[k].buyerId;
            Apply(users, Negated(ExactShares(buyers, total)))[u].balance == users[u].balance - Share(total, buyers[k].percentage)
  {
    var ds := ExactShares(buyers, total);
    var u := buyers[k].buyerId;
    SumForDistinct(ds, k);
    SumForNegated(ds, u);
    ApplyAt(users, Negated(ds), u);
  }

  /** `process_transaction` of the database module: INGRESO is spread over the horse's unpaid rows,
      PREMIO and EGRESO change user balances, PAGO does nothing. */
  method ApiProcessTransaction(db: Session, t: Transaction) returns (r: Outcome)
    modifies db
    ensures t.kind == Pago ==> r == Pass && unchanged(db)
    ensures t.kind == Ingreso ==>
              if t.horseId.None? || !ProdCrud.HorseExists(old(db.horses), t.horseId.value) then r == Fail(MissingRelation) && unchanged(db)
              else r == Pass
                   && db.buyerInstallments == Greedy(old(db.buyerInstallments), old(db.installments), t.horseId.value, t.totalAmount).0
                   && db.users == old(db.users) && db.horseBuyers == old(db.horseBuyers) && db.nextId == old(db.nextId)
    ensures t.kind == Premio || t.kind == Egreso ==>
              var p := ApiDistribute(old(db.users), old(db.horses), old(db.horseBuyers), t);
              && (r.Pass? <==> p.Ok?)
              && (r.Fail? ==> r.error == p.error && unchanged(db))
              && (p.Ok? ==> db.users == p.value && db.buyerInstallments == old(db.buyerInstallments)
                            && db.horseBuyers == old(db.horseBuyers) && db.nextId == old(db.nextId))
    ensures db.horses == old(db.horses) && db.installments == old(db.installments) && db.transactions == old(db.transactions)
  {
    if t.kind == Pago {
      return Pass;
    }
    if t.kind == Ingreso {
      r := DistributeInstallmentPayment(db, t);
      return;
    }
    var p := ApiDistribute(db.users, db.horses, db.horseBuyers, t);
    if p.Err? {
      return Fail(p.error);
    }
    var buyers := ProdCrud.TransactionBuyers(db.horses, db.horseBuyers, t).value;
    if t.kind == Premio {
      db.users := ProdCrud.ApplyOwnerShares(db.users, ExactShares(buyers, t.totalAmount));
    } else {
      db.users := ProdCrud.ApplyOwnerShares(db.users, Negated(ExactShares(ActiveOnly(buyers), t.totalAmount)));
    }
    r := Pass;
  }
}
