/** The money operations of the newest copy: distribution of a transaction among a horse's owners,
    the per-user "expense paid" flags, partial installment payments, and the reversal done when a
    transaction is deleted. */
module ProdCrud {
  import opened Calendar
  import opened Entities
  import opened Money
  import opened Store
  import opened Balances

  // ---------------------------------------------------------------------------------------------
  // The "expense paid" flags (`egreso_payments.json`)

  /** `is_egreso_paid`: the stored flag for (expense, user), false when none is stored. The file's key
      `"<egreso_id>:<user_id>"` tells different pairs of integers apart, so a pair is used as the key. */
  function Flag(data: map<(int, int), bool>, egresoId: int, userId: int): bool {
    if (egresoId, userId) in data then data[(egresoId, userId)] else false
  }

  /** Reading a flag after `set_egreso_paid` gives the value just stored for that pair and the old
      value for every other pair. */
  lemma FlagAfterSet(data: map<(int, int), bool>, egresoId: int, userId: int, paid: bool, e: int, u: int)
    ensures Flag(data[(egresoId, userId) := paid], e, u) == if (e, u) == (egresoId, userId) then paid else Flag(data, e, u)
  {
  }

  /** The flag file. Loading a missing, empty or malformed file gives the empty map. */
  class EgresoStore {
    var data: map<(int, int), bool>

    constructor ()
      ensures data == map[]
    {
      data := map[];
    }

    /** `set_egreso_paid` (and `mark_egreso_paid` with `paid` = true). */
    method SetPaid(egresoId: int, userId: int, paid: bool)
      modifies this
      ensures data == old(data)[(egresoId, userId) := paid]
    {
      data := data[(egresoId, userId) := paid];
    }

    /** `is_egreso_paid`. */
    method IsPaid(egresoId: int, userId: int) returns (paid: bool)
      ensures paid == Flag(data, egresoId, userId)
    {
      paid := if (egresoId, userId) in data then data[(egresoId, userId)] else false;
    }
  }

  /** The flags after `distribute_expense`: the pair (expense, buyer) is set for each owner whose
      user row exists, in `horse.buyers` order. */
  function ExpenseFlags(data: map<(int, int), bool>, egresoId: int, buyers: seq<HorseBuyer>, users: map<int, User>)
    : map<(int, int), bool>
  {
    if buyers == [] then data
    else
      var prev := ExpenseFlags(data, egresoId, buyers[..|buyers| - 1], users);
      var b := buyers[|buyers| - 1].buyerId;
      if b in users then prev[(egresoId, b) := true] else prev
  }

  /** After an expense every owner with a user row reads as paid for it; every other flag is as before. */
  lemma {:induction false} ExpenseFlagsSet(data: map<(int, int), bool>, egresoId: int, buyers: seq<HorseBuyer>,
                                           users: map<int, User>, e: int, u: int)
    ensures Flag(ExpenseFlags(data, egresoId, buyers, users), e, u)
         == if e == egresoId && u in users && exists k :: 0 <= k < |buyers| && buyers[k].buyerId == u
            then true else Flag(data, e, u)
  {
    if buyers != [] {
      var init := buyers[..|buyers| - 1];
      ExpenseFlagsSet(data, egresoId, init, users, e, u);
      if e == egresoId && u in users && exists k :: 0 <= k < |buyers| && buyers[k].buyerId == u {
        var k :| 0 <= k < |buyers| && buyers[k].buyerId == u;
        if k < |buyers| - 1 {
          assert init[k].buyerId == u;
        }
      } else if e == egresoId && u in users {
        forall k | 0 <= k < |init| ensures init[k].buyerId != u {
          assert buyers[k] == init[k];
        }
      }
    }
  }

  // ---------------------------------------------------------------------------------------------
  // Distribution of a transaction

  /** The horse table has a row with this key. */
  predicate HorseExists(horses: seq<Horse>, id: int) {
    exists k :: 0 <= k < |horses| && horses[k].id == id
  }

  /** `transaction.horse.buyers`, or None when `transaction.horse` is None (no key, or no such row). */
  function TransactionBuyers(horses: seq<Horse>, hbs: seq<HorseBuyer>, t: Transaction): (r: Option<seq<HorseBuyer>>)
    ensures r.Some? <==> t.horseId.Some? && HorseExists(horses, t.horseId.value)
    ensures r.Some? ==> r.value == BuyersOf(hbs, t.horseId.value)
  {
    if t.horseId.Some? && HorseExists(horses, t.horseId.value) then Some(BuyersOf(hbs, t.horseId.value)) else None
  }

  /** Dates stored in the database are real calendar dates. */
  predicate DatesValid(t: Transaction) {
    (t.fechaDeEfectividad.Some? ==> Valid(t.fechaDeEfectividad.value))
    && (t.fechaDePago.Some? ==> Valid(t.fechaDePago.value))
  }

  /** A prize is queued, and applies nothing, until 31 days after its effective date. */
  predicate PrizeQueued(t: Transaction, now: DateTime)
    requires DatesValid(t) && t.fechaDeEfectividad.Some?
  {
    Before(now, AddDays(t.fechaDeEfectividad.value, 31))
  }

  /** `distribute_prize`. Without an effective date the date arithmetic raises; while queued nothing
      happens; otherwise each owner's user row is credited with the owner's share rounded to cents. */
  function Prize(users: map<int, User>, horses: seq<Horse>, hbs: seq<HorseBuyer>, t: Transaction, now: DateTime)
    : Result<map<int, User>>
    requires DatesValid(t)
  {
    if t.fechaDeEfectividad.None? then Err(MissingField("fecha_de_efectividad"))
    else if PrizeQueued(t, now) then Ok(users)
    else match TransactionBuyers(horses, hbs, t)
      case None => Err(MissingRelation)
      case Some(buyers) => Ok(Apply(users, RoundedShares(buyers, t.totalAmount)))
  }

  /** The first loop of `distribute_expense`, which is committed: each owner's user row, where there
      is one, is debited with the owner's rounded share and the owner's flag for this expense is set. */
  function ExpenseDebits(users: map<int, User>, buyers: seq<HorseBuyer>, flags: map<(int, int), bool>, t: Transaction)
    : (map<int, User>, map<(int, int), bool>)
  {
    (Apply(users, Negated(RoundedShares(buyers, t.totalAmount))), ExpenseFlags(flags, t.id, buyers, users))
  }

  /** `distribute_expense`. Without a horse nothing happens before the error. Otherwise the debits are
      committed, and the second loop, which follows `horse_buyer.buyer` for every owner, then fails on
      an owner without a user row: the request fails with the debits kept. */
  function Expense(users: map<int, User>, horses: seq<Horse>, hbs: seq<HorseBuyer>, flags: map<(int, int), bool>,
                   t: Transaction): Result<(map<int, User>, map<(int, int), bool>)>
  {
    match TransactionBuyers(horses, hbs, t)
    case None => Err(MissingRelation)
    case Some(buyers) =>
      if !OwnersHaveUsers(buyers, users) then Err(MissingRelation)
      else Ok(ExpenseDebits(users, buyers, flags, t))
  }

  /** The users and flags `distribute_expense` leaves behind, whether it fails or not. */
  function ExpenseState(users: map<int, User>, horses: seq<Horse>, hbs: seq<HorseBuyer>, flags: map<(int, int), bool>,
                        t: Transaction): (r: (map<int, User>, map<(int, int), bool>))
    ensures Expense(users, horses, hbs, flags, t).Ok? ==> r == Expense(users, horses, hbs, flags, t).value
    ensures TransactionBuyers(horses, hbs, t).None? ==> r == (users, flags)
  {
    match TransactionBuyers(horses, hbs, t)
    case None => (users, flags)
    case Some(buyers) => ExpenseDebits(users, buyers, flags, t)
  }

  /** An expense on a horse one of whose owners has no user row fails, yet every other owner stays
      debited with its rounded share and marked as paid. */
  lemma ExpenseCommitsBeforeFailing(users: map<int, User>, horses: seq<Horse>, hbs: seq<HorseBuyer>,
                                    flags: map<(int, int), bool>, t: Transaction, k: nat)
    requires TransactionBuyers(horses, hbs, t).Some?
    requires var buyers := TransactionBuyers(horses, hbs, t).value;
             && !OwnersHaveUsers(buyers, users) && DistinctOwners(buyers)
             && k < |buyers| && buyers[k].buyerId in users
    ensures Expense(users, horses, hbs, flags, t) == Err(MissingRelation)
    ensures var buyers := TransactionBuyers(horses, hbs, t).value;
            var u := buyers[k].buyerId;
            var s := ExpenseState(users, horses, hbs, flags, t);
            && u in s.0
            && s.0[u].balance == users[u].balance - Round2(Share(t.totalAmount, buyers[k].percentage))
            && Flag(s.1, t.id, u)
  {
    var buyers := TransactionBuyers(horses, hbs, t).value;
    OwnerShareApplied(users, buyers, t.totalAmount, k);
    ExpenseFlagsSet(flags, t.id, buyers, users, t.id, buyers[k].buyerId);
  }

  /** `distribute_income_payment`: the first ownership row of the paying user on the horse is
      credited with the whole amount; a payer who owns no share of the horse is refused. A missing
      user or horse key matches no row. */
  function Income(hbs: seq<HorseBuyer>, t: Transaction): Result<seq<HorseBuyer>> {
    if t.userId.None? || t.horseId.None? then Err(NotABuyer)
    else match FindShare(hbs, t.userId.value, t.horseId.value)
      case None => Err(NotABuyer)
      case Some(k) => Ok(hbs[k := hbs[k].(balance := hbs[k].balance + t.totalAmount)])
  }

  /** The state a transaction's processing touches. */
  datatype Ledger = Ledger(users: map<int, User>, hbs: seq<HorseBuyer>, flags: map<(int, int), bool>)

  /** `process_transaction`: INGRESO and PREMIO go through `process_income`, EGRESO is distributed,
      PAGO changes nothing. */
  function Process(l: Ledger, horses: seq<Horse>, t: Transaction, now: DateTime): (r: Result<Ledger>)
    requires DatesValid(t)
    ensures t.kind == Pago ==> r == Ok(l)
    ensures r.Ok? && t.kind != Ingreso ==> r.value.hbs == l.hbs
    ensures r.Ok? && t.kind != Egreso ==> r.value.flags == l.flags
    ensures r.Ok? && t.kind == Ingreso ==> r.value.users == l.users
  {
    match t.kind
    case Ingreso =>
      (match Income(l.hbs, t)
       case Err(e) => Err(e)
       case Ok(hbs) => Ok(l.(hbs := hbs)))
    case Premio =>
      (match Prize(l.users, horses, l.hbs, t, now)
       case Err(e) => Err(e)
       case Ok(users) => Ok(l.(users := users)))
    case Egreso =>
      (match Expense(l.users, horses, l.hbs, l.flags, t)
       case Err(e) => Err(e)
       case Ok(p) => Ok(l.(users := p.0, flags := p.1)))
    case Pago => Ok(l)
  }

  /** The owners of one horse are distinct users (`uix_horse_buyer`). */
  predicate DistinctOwners(buyers: seq<HorseBuyer>) {
    forall i, j :: 0 <= i < j < |buyers| ==> buyers[i].buyerId != buyers[j].buyerId
  }

  /** A prize past its waiting period credits each owner's user exactly
      `round(total * percentage / 100, 2)`, and an expense debits the same amount. */
  lemma OwnerShareApplied(users: map<int, User>, buyers: seq<HorseBuyer>, total: real, k: nat)
    requires k < |buyers| && DistinctOwners(buyers) && buyers[k].buyerId in users
    ensures var u := buyers[k].buyerId;
            && Apply(users, RoundedShares(buyers, total))[u].balance
               == users[u].balance + Round2(Share(total, buyers[k].percentage))
            && Apply(users, Negated(RoundedShares(buyers, total)))[u].balance
               == users[u].balance - Round2(Share(total, buyers[k].percentage))
  {
    var ds := RoundedShares(buyers, total);
    var u := buyers[k].buyerId;
    ApplyAt(users, ds, u);
    ApplyAt(users, Negated(ds), u);
    SumForDistinct(ds, k);
    SumForDistinct(Negated(ds), k);
  }

  /** A user who owns no share of the horse is not touched by its prize or expense. */
  lemma NonOwnerUntouched(users: map<int, User>, buyers: seq<HorseBuyer>, total: real, u: int)
    requires u in users
    requires forall k :: 0 <= k < |buyers| ==> buyers[k].buyerId != u
    ensures Apply(users, RoundedShares(buyers, total))[u] == users[u]
    ensures Apply(users, Negated(RoundedShares(buyers, total)))[u] == users[u]
  {
    var ds := RoundedShares(buyers, total);
    ApplyAt(users, ds, u);
    ApplyAt(users, Negated(ds), u);
    SumForAbsent(ds, u);
    SumForAbsent(Negated(ds), u);
  }

  /** What a prize hands out in total differs from `total * (sum of percentages) / 100` by at most
      half a cent per owner, when every owner has a user row. */
  lemma PrizeTotalNearExact(buyers: seq<HorseBuyer>, total: real)
    ensures -0.005 * (|buyers| as real)
            <= Total(RoundedShares(buyers, total)) - total * (Sum(Percentages(buyers)) / 100.0)
            <= 0.005 * (|buyers| as real)
  {
    RoundedSharesTotal(buyers, total);
    ExactSharesTotal(buyers, total);
  }

  /** The loop of `distribute_prize` and `distribute_expense` over `horse.buyers`: each owner's
      signed amount is added to their user row if there is one (`if user_instance:`). */
  method ApplyOwnerShares(users: map<int, User>, ds: seq<Delta>) returns (r: map<int, User>)
    ensures r == Apply(users, ds)
  {
    r := users;
    var j := 0;
    while j < |ds|
      invariant 0 <= j <= |ds|
      invariant r == Apply(users, ds[..j])
    {
      var d := ds[j];
      if d.userId in r {
        r := r[d.userId := r[d.userId].(balance := r[d.userId].balance + d.amount)];
      }
      assert ds[..j + 1][..j] == ds[..j];
      j := j + 1;
    }
    assert ds[..j] == ds;
  }

  /** `distribute_prize` on the session. */
  method DistributePrize(db: Session, t: Transaction, now: DateTime) returns (r: Outcome)
    requires DatesValid(t)
    modifies db
    ensures var p := Prize(old(db.users), old(db.horses), old(db.horseBuyers), t, now);
            && (r.Pass? <==> p.Ok?)
            && (r.Fail? ==> r.error == p.error && unchanged(db))
            && (p.Ok? ==> db.users == p.value && db.horses == old(db.horses) && db.horseBuyers == old(db.horseBuyers)
                          && db.installments == old(db.installments) && db.buyerInstallments == old(db.buyerInstallments)
                          && db.transactions == old(db.transactions) && db.nextId == old(db.nextId))
  {
    if t.fechaDeEfectividad.None? {
      return Fail(MissingField("fecha_de_efectividad"));
    }
    if PrizeQueued(t, now) {
      return Pass;
    }
    var buyers := TransactionBuyers(db.horses, db.horseBuyers, t);
    if buyers.None? {
      return Fail(MissingRelation);
    }
    db.users := ApplyOwnerShares(db.users, RoundedShares(buyers.value, t.totalAmount));
    r := Pass;
  }

  /** `distribute_expense` on the session and the flag file. The debits are committed before the
      second loop, so they are kept when it fails. */
  method DistributeExpense(db: Session, flags: EgresoStore, t: Transaction) returns (r: Outcome)
    modifies db, flags
    ensures var p := Expense(old(db.users), old(db.horses), old(db.horseBuyers), old(flags.data), t);
            && (r.Pass? <==> p.Ok?)
            && (r.Fail? ==> r.error == p.error)
    ensures var s := ExpenseState(old(db.users), old(db.horses), old(db.horseBuyers), old(flags.data), t);
            && db.users == s.0 && flags.data == s.1
            && db.horses == old(db.horses) && db.horseBuyers == old(db.horseBuyers)
            && db.installments == old(db.installments) && db.buyerInstallments == old(db.buyerInstallments)
            && db.transactions == old(db.transactions) && db.nextId == old(db.nextId)
  {
    var buyers := TransactionBuyers(db.horses, db.horseBuyers, t);
    if buyers.None? {
      return Fail(MissingRelation);
    }
    var bs := buyers.value;
    MarkOwnersPaid(flags, t.id, bs, db.users);
    db.users := ApplyOwnerShares(db.users, Negated(RoundedShares(bs, t.totalAmount)));
    var ok := UpdateTotalBalances(bs, db.users);
    r := if ok then Pass else Fail(MissingRelation);
  }

  /** The second loop of `distribute_expense`: `horse_buyer.buyer.update_total_balance()` for every
      owner, which changes nothing and fails on the first owner without a user row. */
  method UpdateTotalBalances(bs: seq<HorseBuyer>, users: map<int, User>) returns (ok: bool)
    ensures ok <==> OwnersHaveUsers(bs, users)
  {
    var j := 0;
    while j < |bs|
      invariant 0 <= j <= |bs|
      invariant OwnersHaveUsers(bs[..j], users)
    {
      if bs[j].buyerId !in users {
        return false;
      }
      assert bs[..j + 1] == bs[..j] + [bs[j]];
      j := j + 1;
    }
    assert bs[..j] == bs;
    ok := true;
  }

  /** The `set_egreso_paid` calls of `distribute_expense`: one per owner whose user row exists. */
  method MarkOwnersPaid(flags: EgresoStore, egresoId: int, bs: seq<HorseBuyer>, users: map<int, User>)
    modifies flags
    ensures flags.data == ExpenseFlags(old(flags.data), egresoId, bs, users)
  {
    var j := 0;
    while j < |bs|
      invariant 0 <= j <= |bs|
      invariant flags.data == ExpenseFlags(old(flags.data), egresoId, bs[..j], users)
    {
      if bs[j].buyerId in users {
        flags.SetPaid(egresoId, bs[j].buyerId, true);
      }
      assert bs[..j + 1][..j] == bs[..j];
      j := j + 1;
    }
    assert bs[..j] == bs;
  }

  /** `distribute_income_payment` on the session. */
  method DistributeIncomePayment(db: Session, t: Transaction) returns (r: Outcome)
    modifies db
    ensures var p := Income(old(db.horseBuyers), t);
            && (r.Pass? <==> p.Ok?)
            && (r.Fail? ==> r.error == p.error && unchanged(db))
            && (p.Ok? ==> db.horseBuyers == p.value && db.users == old(db.users) && db.horses == old(db.horses)
                          && db.installments == old(db.installments) && db.buyerInstallments == old(db.buyerInstallments)
                          && db.transactions == old(db.transactions) && db.nextId == old(db.nextId))
  {
    if t.userId.None? || t.horseId.None? {
      return Fail(NotABuyer);
    }
    var k := FindShare(db.horseBuyers, t.userId.value, t.horseId.value);
    if k.None? {
      return Fail(NotABuyer);
    }
    var hb := db.horseBuyers[k.value];
    db.horseBuyers := db.horseBuyers[k.value := hb.(balance := hb.balance + t.totalAmount)];
    r := Pass;
  }

  /** `process_transaction` on the session and the flag file. A refused income is rolled back, which
      leaves everything as it was; an expense that fails after its commit keeps the debits. */
  method ProcessTransaction(db: Session, flags: EgresoStore, t: Transaction, now: DateTime) returns (r: Outcome)
    requires DatesValid(t)
    modifies db, flags
    ensures var p := Process(Ledger(old(db.users), old(db.horseBuyers), old(flags.data)), old(db.horses), t, now);
            && (r.Pass? <==> p.Ok?)
            && (r.Fail? ==> r.error == p.error)
            && (r.Fail? && t.kind != Egreso ==> unchanged(db) && unchanged(flags))
            && (p.Ok? ==> db.users == p.value.users && db.horseBuyers == p.value.hbs && flags.data == p.value.flags)
    ensures t.kind == Egreso ==>
              var s := ExpenseState(old(db.users), old(db.horses), old(db.horseBuyers), old(flags.data), t);
              db.users == s.0 && flags.data == s.1 && db.horseBuyers == old(db.horseBuyers)
    ensures db.horses == old(db.horses)
            && db.installments == old(db.installments) && db.buyerInstallments == old(db.buyerInstallments)
            && db.transactions == old(db.transactions) && db.nextId == old(db.nextId)
  {
    match t.kind
    case Ingreso =>
      r := DistributeIncomePayment(db, t);
    case Premio =>
      r := DistributePrize(db, t, now);
    case Egreso =>
      r := DistributeExpense(db, flags, t);
    case Pago =>
      r := Pass;
  }

  // ---------------------------------------------------------------------------------------------
  // Installment payment

  /** `process_payment` on one buyer row: a PAID row is refused, as is a payment above what is left
      to pay; otherwise the payment is added (zero and negative payments included) and the status
      recomputed. The commit then fails on `check_non_negative_amount_paid` if the amount paid
      would become negative. */
  function ApplyPayment(bi: BuyerInstallment, payment: real): (r: Result<BuyerInstallment>)
    ensures r == Err(AlreadyPaid) <==> bi.status == Paid
    ensures r == Err(Overpayment) <==> bi.status != Paid && payment > bi.amount - bi.amountPaid
    ensures r == Err(ConstraintViolation) <==>
              bi.status != Paid && payment <= bi.amount - bi.amountPaid && bi.amountPaid + payment < 0.0
    ensures r.Ok? ==> r.value == UpdateInstallmentStatus(bi.(amountPaid := bi.amountPaid + payment))
    ensures r.Ok? ==> 0.0 <= r.value.amountPaid <= r.value.amount
  {
    if bi.status == Paid then Err(AlreadyPaid)
    else if payment > bi.amount - bi.amountPaid then Err(Overpayment)
    else if bi.amountPaid + payment < 0.0 then Err(ConstraintViolation)
    else Ok(UpdateInstallmentStatus(bi.(amountPaid := bi.amountPaid + payment)))
  }

  /** Paying exactly what is left of a row that is not PAID settles it. */
  lemma ExactRemainderSettles(bi: BuyerInstallment)
    requires bi.status != Paid && 0.0 <= bi.amountPaid <= bi.amount
    ensures ApplyPayment(bi, bi.amount - bi.amountPaid).Ok?
    ensures ApplyPayment(bi, bi.amount - bi.amountPaid).value.status == Paid
    ensures ApplyPayment(bi, bi.amount - bi.amountPaid).value.amountPaid == bi.amount
  {
  }

  /** Two accepted payments in a row have the same effect as one payment of their sum. */
  lemma PaymentsCompose(bi: BuyerInstallment, p1: real, p2: real)
    requires ApplyPayment(bi, p1).Ok?
    requires ApplyPayment(ApplyPayment(bi, p1).value, p2).Ok?
    ensures ApplyPayment(bi, p1 + p2) == ApplyPayment(ApplyPayment(bi, p1).value, p2)
  {
    var b1 := ApplyPayment(bi, p1).value;
    assert b1.amount == bi.amount && b1.amountPaid == bi.amountPaid + p1;
  }

  /** An example: nothing stops a negative payment, which lowers the amount paid, and the status
      follows. */
  lemma NegativePaymentAccepted()
    ensures var bi := BuyerInstallment(1, 2, 3, 100.0, 50.0, Partial, Some((1, 2024)));
            ApplyPayment(bi, -10.0) == Ok(bi.(amountPaid := 40.0))
  {
  }

  /** `process_payment` on the session, for the buyer row at position `k`. The row is committed
      before the balance is touched: with `deduct_from_balance`, the owner's user is credited with the
      payment, and a missing ownership row or user then raises after the row change is kept. */
  method ProcessPayment(db: Session, k: nat, payment: real, deductFromBalance: bool) returns (r: Outcome)
    requires k < |db.buyerInstallments|
    modifies db
    ensures var p := ApplyPayment(old(db.buyerInstallments[k]), payment);
            && (p.Err? ==> r == Fail(p.error) && unchanged(db))
            && (p.Ok? ==> db.buyerInstallments == old(db.buyerInstallments)[k := p.value]
                          && db.horses == old(db.horses) && db.horseBuyers == old(db.horseBuyers)
                          && db.installments == old(db.installments) && db.transactions == old(db.transactions)
                          && db.nextId == old(db.nextId))
    ensures var p := ApplyPayment(old(db.buyerInstallments[k]), payment);
            var hb := FindHorseBuyer(old(db.horseBuyers), old(db.buyerInstallments[k]).horseBuyerId);
            p.Ok? ==>
              if !deductFromBalance then r == Pass && db.users == old(db.users)
              else if hb.None? || old(db.horseBuyers)[hb.value].buyerId !in old(db.users)
              then r == Fail(MissingRelation) && db.users == old(db.users)
              else
                var u := old(db.horseBuyers)[hb.value].buyerId;
                r == Pass && db.users == old(db.users)[u := old(db.users)[u].(balance := old(db.users)[u].balance + payment)]
  {
    var bi := db.buyerInstallments[k];
    var p := ApplyPayment(bi, payment);
    if p.Err? {
      return Fail(p.error);
    }
    db.buyerInstallments := db.buyerInstallments[k := p.value];
    if !deductFromBalance {
      return Pass;
    }
    var hb := FindHorseBuyer(db.horseBuyers, bi.horseBuyerId);
    if hb.None? {
      return Fail(MissingRelation);
    }
    var u := db.horseBuyers[hb.value].buyerId;
    if u !in db.users {
      return Fail(MissingRelation);
    }
    db.users := db.users[u := db.users[u].(balance := db.users[u].balance + payment)];
    r := Pass;
  }

  // ---------------------------------------------------------------------------------------------
  // Reversal on deletion

  /** An ownership row's balance moved by its rounded share of `total`, up or down. */
  function ShiftOne(hb: HorseBuyer, total: real, up: bool): (r: HorseBuyer)
    ensures r == hb.(balance := r.balance)
  {
    var amount := Round2(Share(total, hb.percentage));
    hb.(balance := if up then hb.balance + amount else hb.balance - amount)
  }

  /** Every ownership row of the horse moved by its rounded share; other rows unchanged. */
  function ShiftShares(hbs: seq<HorseBuyer>, horseId: int, total: real, up: bool): (r: seq<HorseBuyer>)
    ensures |r| == |hbs|
    ensures forall k :: 0 <= k < |hbs| ==> r[k] == if hbs[k].horseId == horseId then ShiftOne(hbs[k], total, up) else hbs[k]
  {
    if hbs == [] then []
    else
      var hb := hbs[|hbs| - 1];
      ShiftShares(hbs[..|hbs| - 1], horseId, total, up) + [if hb.horseId == horseId then ShiftOne(hb, total, up) else hb]
  }

  /** Every owner in the list has a user row (`horse_buyer.buyer` is not None). */
  predicate OwnersHaveUsers(buyers: seq<HorseBuyer>, users: map<int, User>) {
    forall k :: 0 <= k < |buyers| ==> buyers[k].buyerId in users
  }

  /** The reversal `delete_transaction` performs before deleting the row, as written:
      - PREMIO past its waiting period: each owner's user and ownership row lose the rounded share;
      - INGRESO: the payer's user loses the amount, and the loop over the owners then uses a name
        that this branch never assigns as soon as it meets the payer's ownership row;
      - EGRESO: each owner's user and ownership row regain the rounded share;
      - PAGO: nothing.
      Any error is raised before the commit, so nothing is kept. */
  function DeleteEffect(users: map<int, User>, horses: seq<Horse>, hbs: seq<HorseBuyer>, t: Transaction, now: DateTime)
    : Result<(map<int, User>, seq<HorseBuyer>)>
    requires DatesValid(t)
  {
    match t.kind
    case Premio =>
      if t.fechaDeEfectividad.None? then Err(MissingField("fecha_de_efectividad"))
      else if PrizeQueued(t, now) then Ok((users, hbs))
      else
        (match TransactionBuyers(horses, hbs, t)
         case None => Err(MissingRelation)
         case Some(buyers) =>
           if !OwnersHaveUsers(buyers, users) then Err(MissingRelation)
           else Ok((Apply(users, Negated(RoundedShares(buyers, t.totalAmount))),
                    ShiftShares(hbs, t.horseId.value, t.totalAmount, false))))
    case Ingreso =>
      if t.userId.None? || t.userId.value !in users then Err(MissingRelation)
      else
        (match TransactionBuyers(horses, hbs, t)
         case None => Err(MissingRelation)
         case Some(buyers) =>
           if exists k :: 0 <= k < |buyers| && buyers[k].buyerId == t.userId.value then Err(UnboundName)
           else
             var u := t.userId.value;
             Ok((users[u := users[u].(balance := users[u].balance - t.totalAmount)], hbs)))
    case Egreso =>
      (match TransactionBuyers(horses, hbs, t)
       case None => Err(MissingRelation)
       case Some(buyers) =>
         if !OwnersHaveUsers(buyers, users) then Err(MissingRelation)
         else Ok((Apply(users, RoundedShares(buyers, t.totalAmount)),
                  ShiftShares(hbs, t.horseId.value, t.totalAmount, true))))
    case Pago => Ok((users, hbs))
  }

  /** Deleting a prize after it was distributed restores every user balance but also takes the
      shares off the ownership rows, which the distribution never credited. */
  lemma DeleteAfterPrize(users: map<int, User>, horses: seq<Horse>, hbs: seq<HorseBuyer>, t: Transaction, now: DateTime)
    requires DatesValid(t) && t.kind == Premio
    requires Prize(users, horses, hbs, t, now).Ok? && !PrizeQueued(t, now)
    requires OwnersHaveUsers(BuyersOf(hbs, t.horseId.value), users)
    ensures DeleteEffect(Prize(users, horses, hbs, t, now).value, horses, hbs, t, now)
         == Ok((users, ShiftShares(hbs, t.horseId.value, t.totalAmount, false)))
  {
    var buyers := BuyersOf(hbs, t.horseId.value);
    var after := Apply(users, RoundedShares(buyers, t.totalAmount));
    ApplyThenUndo(users, RoundedShares(buyers, t.totalAmount));
    assert OwnersHaveUsers(buyers, after);
  }

  /** So the round trip changes an ownership row whenever its rounded share is not zero. */
  lemma DeleteAfterPrizeMovesShareBalance(hbs: seq<HorseBuyer>, horseId: int, total: real, k: nat)
    requires k < |hbs| && hbs[k].horseId == horseId && Round2(Share(total, hbs[k].percentage)) != 0.0
    ensures ShiftShares(hbs, horseId, total, false)[k].balance != hbs[k].balance
  {
  }

  /** A processed income can never be deleted: processing needed an ownership row of the payer on the
      horse, and the reversal fails on exactly that row. */
  lemma DeleteProcessedIncomeFails(users: map<int, User>, horses: seq<Horse>, hbs: seq<HorseBuyer>, t: Transaction,
                                   now: DateTime)
    requires DatesValid(t) && t.kind == Ingreso
    requires Income(hbs, t).Ok? && t.userId.value in users && HorseExists(horses, t.horseId.value)
    ensures DeleteEffect(users, horses, Income(hbs, t).value, t, now) == Err(UnboundName)
  {
    var k := FindShare(hbs, t.userId.value, t.horseId.value).value;
    var hbs' := Income(hbs, t).value;
    assert hbs'[k].horseId == t.horseId.value;
    var buyers := BuyersOf(hbs', t.horseId.value);
    assert hbs'[k] in buyers;
    var j :| 0 <= j < |buyers| && buyers[j] == hbs'[k];
    assert buyers[j].buyerId == t.userId.value;
  }

  /** The reversal that undoes what processing did: user balances for PREMIO and EGRESO, the payer's
      ownership row for INGRESO. */
  function DeleteEffectCorrected(l: Ledger, horses: seq<Horse>, t: Transaction, now: DateTime): Result<Ledger>
    requires DatesValid(t)
  {
    match t.kind
    case Premio =>
      if t.fechaDeEfectividad.None? then Err(MissingField("fecha_de_efectividad"))
      else if PrizeQueued(t, now) then Ok(l)
      else
        (match TransactionBuyers(horses, l.hbs, t)
         case None => Err(MissingRelation)
         case Some(buyers) => Ok(l.(users := Apply(l.users, Negated(RoundedShares(buyers, t.totalAmount))))))
    case Ingreso =>
      if t.userId.None? || t.horseId.None? then Err(NotABuyer)
      else
        (match FindShare(l.hbs, t.userId.value, t.horseId.value)
         case None => Err(NotABuyer)
         case Some(k) => Ok(l.(hbs := l.hbs[k := l.hbs[k].(balance := l.hbs[k].balance - t.totalAmount)])))
    case Egreso =>
      (match TransactionBuyers(horses, l.hbs, t)
       case None => Err(MissingRelation)
       case Some(buyers) => Ok(l.(users := Apply(l.users, RoundedShares(buyers, t.totalAmount)))))
    case Pago => Ok(l)
  }

  /** Changing only a balance does not move the first ownership row of a (buyer, horse) pair. */
  lemma {:induction false} FindShareIgnoresBalance(hbs: seq<HorseBuyer>, k: nat, b: real, buyerId: int, horseId: int)
    requires k < |hbs|
    ensures FindShare(hbs[k := hbs[k].(balance := b)], buyerId, horseId) == FindShare(hbs, buyerId, horseId)
  {
    var hbs' := hbs[k := hbs[k].(balance := b)];
    if k == 0 {
      assert hbs'[1..] == hbs[1..];
    } else {
      assert hbs'[1..] == hbs[1..][k - 1 := hbs[k].(balance := b)];
      FindShareIgnoresBalance(hbs[1..], k - 1, b, buyerId, horseId);
    }
  }

  /** Deleting a transaction right after processing it restores the ledger's balances exactly (the
      expense flags, which the source never clears, aside). */
  lemma CorrectedDeleteUndoesProcess(l: Ledger, horses: seq<Horse>, t: Transaction, now: DateTime)
    requires DatesValid(t)
    requires Process(l, horses, t, now).Ok?
    ensures var after := Process(l, horses, t, now).value;
            DeleteEffectCorrected(after, horses, t, now) == Ok(after.(users := l.users, hbs := l.hbs))
  {
    var after := Process(l, horses, t, now).value;
    match t.kind
    case Premio =>
      if !PrizeQueued(t, now) {
        ApplyThenUndo(l.users, RoundedShares(BuyersOf(l.hbs, t.horseId.value), t.totalAmount));
      }
    case Egreso =>
      var ds := RoundedShares(BuyersOf(l.hbs, t.horseId.value), t.totalAmount);
      ApplyThenUndo(l.users, Negated(ds));
      NegatedTwice(ds);
    case Ingreso =>
      var k := FindShare(l.hbs, t.userId.value, t.horseId.value).value;
      FindShareIgnoresBalance(l.hbs, k, l.hbs[k].balance + t.totalAmount, t.userId.value, t.horseId.value);
      assert after.hbs[k := after.hbs[k].(balance := after.hbs[k].balance - t.totalAmount)] == l.hbs;
    case Pago =>
  }

  /** The loop over `transaction.horse.buyers` in `delete_transaction` that moves each ownership
      row's balance by its rounded share, up or down. */
  method ShiftOwnerBalances(hbs: seq<HorseBuyer>, horseId: int, total: real, up: bool) returns (r: seq<HorseBuyer>)
    ensures r == ShiftShares(hbs, horseId, total, up)
  {
    r := hbs;
    var j := 0;
    while j < |hbs|
      invariant 0 <= j <= |hbs| && |r| == |hbs|
      invariant forall i :: 0 <= i < j ==> r[i] == ShiftShares(hbs, horseId, total, up)[i]
      invariant forall i :: j <= i < |hbs| ==> r[i] == hbs[i]
    {
      var hb := hbs[j];
      if hb.horseId == horseId {
        var amount := Round2(Share(total, hb.percentage));
        r := r[j := hb.(balance := if up then hb.balance + amount else hb.balance - amount)];
      }
      j := j + 1;
    }
  }

  /** `delete_transaction`: an unknown key gives false and changes nothing; otherwise the reversal is
      applied and the transaction row removed. */
  method DeleteTransaction(db: Session, transactionId: int, now: DateTime) returns (r: Result<bool>)
    requires forall k :: 0 <= k < |db.transactions| ==> DatesValid(db.transactions[k])
    modifies db
    ensures var k := FindTransaction(old(db.transactions), transactionId);
            && (k.None? ==> r == Ok(false) && unchanged(db))
            && (k.Some? ==>
                  var p := DeleteEffect(old(db.users), old(db.horses), old(db.horseBuyers), old(db.transactions)[k.value], now);
                  && (p.Err? ==> r == Err(p.error) && unchanged(db))
                  && (p.Ok? ==> r == Ok(true) && db.users == p.value.0 && db.horseBuyers == p.value.1
                                && db.transactions == RemoveAt(old(db.transactions), k.value)
                                && db.horses == old(db.horses) && db.installments == old(db.installments)
                                && db.buyerInstallments == old(db.buyerInstallments) && db.nextId == old(db.nextId)))
  {
    var k := FindTransaction(db.transactions, transactionId);
    if k.None? {
      return Ok(false);
    }
    var t := db.transactions[k.value];
    ghost var p := DeleteEffect(db.users, db.horses, db.horseBuyers, t, now);
    var users, hbs := db.users, db.horseBuyers;
    match t.kind {
      case Premio =>
        if t.fechaDeEfectividad.None? {
          return Err(MissingField("fecha_de_efectividad"));
        }
        if !PrizeQueued(t, now) {
          var buyers := TransactionBuyers(db.horses, db.horseBuyers, t);
          if buyers.None? || !OwnersHaveUsers(buyers.value, users) {
            return Err(MissingRelation);
          }
          users := ApplyOwnerShares(users, Negated(RoundedShares(buyers.value, t.totalAmount)));
          hbs := ShiftOwnerBalances(hbs, t.horseId.value, t.totalAmount, false);
        }
      case Ingreso =>
        if t.userId.None? || t.userId.value !in users {
          return Err(MissingRelation);
        }
        var u := t.userId.value;
        users := users[u := users[u].(balance := users[u].balance - t.totalAmount)];
        var buyers := TransactionBuyers(db.horses, db.horseBuyers, t);
        if buyers.None? {
          return Err(MissingRelation);
        }
        if exists j :: 0 <= j < |buyers.value| && buyers.value[j].buyerId == u {
          return Err(UnboundName);
        }
      case Egreso =>
        var buyers := TransactionBuyers(db.horses, db.horseBuyers, t);
        if buyers.None? || !OwnersHaveUsers(buyers.value, users) {
          return Err(MissingRelation);
        }
        users := ApplyOwnerShares(users, RoundedShares(buyers.value, t.totalAmount));
        hbs := ShiftOwnerBalances(hbs, t.horseId.value, t.totalAmount, true);
      case Pago =>
    }
    assert p == Ok((users, hbs));
    db.users, db.horseBuyers := users, hbs;
    db.transactions := RemoveAt(db.transactions, k.value);
    r := Ok(true);
  }
}
