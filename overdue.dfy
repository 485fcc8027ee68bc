/** `check_overdue_installments`, the periodic sweep: every PENDING buyer row whose installment is due
    before `now` becomes OVERDUE. The newest copy only re-labels; the middle copy also lowers the
    owner's `horse_buyer.balance` by what the row still owes. Either runs in one transaction. */
module Overdue {
  import opened Calendar
  import opened Entities
  import opened Store

  /** The sweep's query: a PENDING row joined to an installment due strictly before `now`. */
  predicate PastDue(bi: BuyerInstallment, insts: seq<Installment>, now: DateTime) {
    bi.status == Pending && exists i :: 0 <= i < |insts| && insts[i].id == bi.installmentId && Before(insts[i].dueDate, now)
  }

  /** The rows after the sweep. */
  function Swept(rows: seq<BuyerInstallment>, insts: seq<Installment>, now: DateTime): (r: seq<BuyerInstallment>)
    ensures |r| == |rows|
    ensures forall k :: 0 <= k < |rows| ==>
              r[k] == if PastDue(rows[k], insts, now) then rows[k].(status := Overdue) else rows[k]
  {
    if rows == [] then []
    else
      var bi := rows[|rows| - 1];
      Swept(rows[..|rows| - 1], insts, now) + [if PastDue(bi, insts, now) then bi.(status := Overdue) else bi]
  }

  /** What the sweep takes from ownership row `hbId`: the sum of `amount - amount_paid` over its
      past-due rows. */
  function DebitFor(rows: seq<BuyerInstallment>, insts: seq<Installment>, now: DateTime, hbId: int): real {
    if rows == [] then 0.0
    else
      var bi := rows[|rows| - 1];
      DebitFor(rows[..|rows| - 1], insts, now, hbId)
        + if PastDue(bi, insts, now) && bi.horseBuyerId == hbId then Outstanding(bi) else 0.0
  }

  /** The ownership rows after the middle copy's sweep. */
  function Debited(hbs: seq<HorseBuyer>, rows: seq<BuyerInstallment>, insts: seq<Installment>, now: DateTime)
    : seq<HorseBuyer>
  {
    seq(|hbs|, m requires 0 <= m < |hbs| => hbs[m].(balance := hbs[m].balance - DebitFor(rows, insts, now, hbs[m].id)))
  }

  /** `installment.horse_buyer.balance -= pending_amount`: the ownership row with that key is debited. */
  function DebitOne(hbs: seq<HorseBuyer>, hbId: int, amount: real): (r: seq<HorseBuyer>)
    ensures |r| == |hbs|
    ensures forall m :: 0 <= m < |hbs| ==>
              r[m] == if hbs[m].id == hbId then hbs[m].(balance := hbs[m].balance - amount) else hbs[m]
  {
    seq(|hbs|, m requires 0 <= m < |hbs| => if hbs[m].id == hbId then hbs[m].(balance := hbs[m].balance - amount) else hbs[m])
  }

  /** One more row: a past-due row debits its ownership row by what it owes. */
  lemma DebitedSnoc(hbs: seq<HorseBuyer>, rows: seq<BuyerInstallment>, insts: seq<Installment>, now: DateTime)
    requires rows != []
    ensures var bi := rows[|rows| - 1];
            var prev := Debited(hbs, rows[..|rows| - 1], insts, now);
            Debited(hbs, rows, insts, now) == if PastDue(bi, insts, now) then DebitOne(prev, bi.horseBuyerId, Outstanding(bi)) else prev
  {
  }

  /** Whether the sweep can follow a past-due row to its owner: the ownership row must exist (its key
      is logged) and, for the middle copy, so must its user (`update_total_balance` is called on it). */
  predicate Reachable(bi: BuyerInstallment, hbs: seq<HorseBuyer>, users: map<int, User>, debit: bool) {
    var m := FindHorseBuyer(hbs, bi.horseBuyerId);
    m.Some? && (debit ==> hbs[m.value].buyerId in users)
  }

  /** A second sweep with the same `now` finds nothing to do. */
  lemma SweepIdempotent(rows: seq<BuyerInstallment>, insts: seq<Installment>, now: DateTime)
    ensures Swept(Swept(rows, insts, now), insts, now) == Swept(rows, insts, now)
    ensures forall k :: 0 <= k < |rows| ==> !PastDue(Swept(rows, insts, now)[k], insts, now)
  {
    var s := Swept(rows, insts, now);
    assert forall k :: 0 <= k < |s| ==> !PastDue(s[k], insts, now);
  }

  /** The sweep removes from `get_pending_installments_amount` exactly what the newly overdue rows of
      the buyer still owed. */
  lemma {:induction false} SweepLowersPendingAmount(rows: seq<BuyerInstallment>, insts: seq<Installment>, now: DateTime,
                                                    hbs: seq<HorseBuyer>, buyerId: int)
    ensures PendingAmount(Swept(rows, insts, now), hbs, buyerId)
         == PendingAmount(rows, hbs, buyerId) - OverdueDebt(rows, insts, now, hbs, buyerId)
  {
    if rows != [] {
      var init := rows[..|rows| - 1];
      SweepLowersPendingAmount(init, insts, now, hbs, buyerId);
      var s := Swept(rows, insts, now);
      assert s[..|s| - 1] == Swept(init, insts, now);
    }
  }

  /** What buyer `buyerId`'s past-due rows still owe. */
  function OverdueDebt(rows: seq<BuyerInstallment>, insts: seq<Installment>, now: DateTime, hbs: seq<HorseBuyer>,
                       buyerId: int): real
  {
    if rows == [] then 0.0
    else
      var bi := rows[|rows| - 1];
      OverdueDebt(rows[..|rows| - 1], insts, now, hbs, buyerId)
        + if PastDue(bi, insts, now) && OwnedBy(hbs, bi, buyerId) then Outstanding(bi) else 0.0
  }

  /** Rows swept once are never debited again: a rerun takes nothing from any ownership row. */
  lemma {:induction false} RerunDebitsNothing(rows: seq<BuyerInstallment>, insts: seq<Installment>, now: DateTime, hbId: int)
    ensures DebitFor(Swept(rows, insts, now), insts, now, hbId) == 0.0
  {
    if rows != [] {
      var init := rows[..|rows| - 1];
      RerunDebitsNothing(init, insts, now, hbId);
      var s := Swept(rows, insts, now);
      assert s[..|s| - 1] == Swept(init, insts, now);
    }
  }

  /** One turn of the sweep's loop: a past-due row is re-labelled and, for the middle copy, debited to
      its owner; an owner that cannot be reached raises. */
  method SweepTurn(bi: BuyerInstallment, insts: seq<Installment>, hbs: seq<HorseBuyer>, users: map<int, User>,
                   now: DateTime, debit: bool, owners: seq<HorseBuyer>)
    returns (ok: bool, row: BuyerInstallment, owners': seq<HorseBuyer>)
    ensures ok <==> !PastDue(bi, insts, now) || Reachable(bi, hbs, users, debit)
    ensures ok ==> row == (if PastDue(bi, insts, now) then bi.(status := Overdue) else bi)
                   && owners' == if PastDue(bi, insts, now) && debit then DebitOne(owners, bi.horseBuyerId, Outstanding(bi)) else owners
  {
    row, owners' := bi, owners;
    if PastDue(bi, insts, now) {
      if !Reachable(bi, hbs, users, debit) {
        return false, bi, owners;
      }
      if debit {
        owners' := DebitOne(owners, bi.horseBuyerId, bi.amount - bi.amountPaid);
      }
      row := bi.(status := Overdue);
    }
    ok := true;
  }

  /** The loop of the sweep over the query result (the table in query order, skipping rows that do
      not match): whether every past-due row reaches its owner, the new rows and the new ownership rows. */
  method SweepRows(rows: seq<BuyerInstallment>, insts: seq<Installment>, hbs: seq<HorseBuyer>, users: map<int, User>,
                   now: DateTime, debit: bool)
    returns (ok: bool, out: seq<BuyerInstallment>, owners: seq<HorseBuyer>)
    ensures ok <==> forall k :: 0 <= k < |rows| && PastDue(rows[k], insts, now) ==> Reachable(rows[k], hbs, users, debit)
    ensures ok ==> out == Swept(rows, insts, now) && owners == if debit then Debited(hbs, rows, insts, now) else hbs
  {
    out, owners := [], hbs;
    var k := 0;
    while k < |rows|
      invariant 0 <= k <= |rows|
      invariant forall i :: 0 <= i < k && PastDue(rows[i], insts, now) ==> Reachable(rows[i], hbs, users, debit)
      invariant out == Swept(rows[..k], insts, now)
      invariant owners == if debit then Debited(hbs, rows[..k], insts, now) else hbs
    {
      ghost var prefix := rows[..k + 1];
      assert prefix[..k] == rows[..k] && prefix[k] == rows[k];
      var turnOk, bi;
      turnOk, bi, owners := SweepTurn(rows[k], insts, hbs, users, now, debit, owners);
      if !turnOk {
        return false, [], [];
      }
      if debit {
        DebitedSnoc(hbs, prefix, insts, now);
      }
      out := out + [bi];
      k := k + 1;
    }
    assert rows[..k] == rows;
    ok := true;
  }

  /** `check_overdue_installments` of the newest copy: only statuses change; an exception rolls
      everything back. */
  method CheckOverdueInstallments(db: Session, now: DateTime) returns (r: Outcome)
    modifies db
    ensures var rows := old(db.buyerInstallments);
            r.Pass? <==> forall k :: 0 <= k < |rows| && PastDue(rows[k], old(db.installments), now) ==>
                           Reachable(rows[k], old(db.horseBuyers), old(db.users), false)
    ensures r.Fail? ==> r.error == MissingRelation && unchanged(db)
    ensures r.Pass? ==> db.buyerInstallments == Swept(old(db.buyerInstallments), old(db.installments), now)
                        && db.users == old(db.users) && db.horses == old(db.horses) && db.horseBuyers == old(db.horseBuyers)
                        && db.installments == old(db.installments) && db.transactions == old(db.transactions)
                        && db.nextId == old(db.nextId)
  {
    var ok, out, _ := SweepRows(db.buyerInstallments, db.installments, db.horseBuyers, db.users, now, false);
    if !ok {
      return Fail(MissingRelation);
    }
    db.buyerInstallments := out;
    r := Pass;
  }

  /** `check_overdue_installments` of the middle copy: statuses change and each owner's balance drops
      by what its newly overdue rows owe; an exception rolls everything back. */
  method CheckOverdueAndDebit(db: Session, now: DateTime) returns (r: Outcome)
    modifies db
    ensures var rows := old(db.buyerInstallments);
            r.Pass? <==> forall k :: 0 <= k < |rows| && PastDue(rows[k], old(db.installments), now) ==>
                           Reachable(rows[k], old(db.horseBuyers), old(db.users), true)
    ensures r.Fail? ==> r.error == MissingRelation && unchanged(db)
    ensures r.Pass? ==> db.buyerInstallments == Swept(old(db.buyerInstallments), old(db.installments), now)
                        && db.horseBuyers == Debited(old(db.horseBuyers), old(db.buyerInstallments), old(db.installments), now)
                        && db.users == old(db.users) && db.horses == old(db.horses)
                        && db.installments == old(db.installments) && db.transactions == old(db.transactions)
                        && db.nextId == old(db.nextId)
  {
    var ok, out, owners := SweepRows(db.buyerInstallments, db.installments, db.horseBuyers, db.users, now, true);
    if !ok {
      return Fail(MissingRelation);
    }
    db.buyerInstallments, db.horseBuyers := out, owners;
    r := Pass;
  }
}
