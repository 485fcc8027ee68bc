/** `recalculate_installments` of the newest copy: after a horse's owners change, the buyer rows of
    every installment that is not yet due are brought in line with the current owners. */
module ProdRecalc {
  import opened Calendar
  import opened Entities
  import opened Money
  import opened Store
  import ProdModels

  /** An owner's part of an installment: `round(installment.amount * percentage / 100, 2)`. */
  function RowAmount(inst: Installment, hb: HorseBuyer): real {
    Round2(Share(inst.amount, hb.percentage))
  }

  /** One existing row after the pass over installment `inst`: a row of another installment is kept
      as it is; a row of `inst` whose owner is still among the buyers gets the owner's new amount and
      a recomputed status, keeping what was paid; a row of `inst` whose owner is gone is deleted. */
  function ReviseRow(row: BuyerInstallment, inst: Installment, buyers: seq<HorseBuyer>): (r: Option<BuyerInstallment>)
    ensures row.installmentId != inst.id ==> r == Some(row)
    ensures row.installmentId == inst.id ==>
              (r.Some? <==> exists j :: 0 <= j < |buyers| && buyers[j].id == row.horseBuyerId)
    ensures r.Some? ==> r.value.id == row.id && r.value.horseBuyerId == row.horseBuyerId
                        && r.value.installmentId == row.installmentId
                        && r.value.amountPaid == row.amountPaid && r.value.period == row.period
    ensures r.Some? && row.installmentId == inst.id ==>
              exists j :: 0 <= j < |buyers| && buyers[j].id == row.horseBuyerId && r.value.amount == RowAmount(inst, buyers[j])
    ensures r.Some? && row.installmentId == inst.id ==> r.value.status == UpdateInstallmentStatus(r.value).status
  {
    if row.installmentId != inst.id then Some(row)
    else match FindHorseBuyer(buyers, row.horseBuyerId)
      case None => None
      case Some(j) => Some(UpdateInstallmentStatus(row.(amount := RowAmount(inst, buyers[j]))))
  }

  /** The existing rows after the pass over `inst`, in table order. */
  function Revised(rows: seq<BuyerInstallment>, inst: Installment, buyers: seq<HorseBuyer>): (r: seq<BuyerInstallment>)
    ensures |r| <= |rows|
  {
    if rows == [] then []
    else
      var prev := Revised(rows[..|rows| - 1], inst, buyers);
      match ReviseRow(rows[|rows| - 1], inst, buyers)
      case None => prev
      case Some(x) => prev + [x]
  }

  /** Every row left after the pass is the revision of an existing row. */
  lemma {:induction false} RevisedFrom(rows: seq<BuyerInstallment>, inst: Installment, buyers: seq<HorseBuyer>,
                                       x: BuyerInstallment)
    requires x in Revised(rows, inst, buyers)
    ensures exists k :: 0 <= k < |rows| && ReviseRow(rows[k], inst, buyers) == Some(x)
  {
    var init := rows[..|rows| - 1];
    var prev := Revised(init, inst, buyers);
    if x in prev {
      RevisedFrom(init, inst, buyers, x);
      var k :| 0 <= k < |init| && ReviseRow(init[k], inst, buyers) == Some(x);
      assert rows[k] == init[k];
    } else {
      assert ReviseRow(rows[|rows| - 1], inst, buyers) == Some(x);
    }
  }

  /** And every revision of an existing row is left. */
  lemma {:induction false} RevisedKeeps(rows: seq<BuyerInstallment>, inst: Installment, buyers: seq<HorseBuyer>, k: nat)
    requires k < |rows| && ReviseRow(rows[k], inst, buyers).Some?
    ensures ReviseRow(rows[k], inst, buyers).value in Revised(rows, inst, buyers)
  {
    var init := rows[..|rows| - 1];
    if k < |rows| - 1 {
      assert init[k] == rows[k];
      RevisedKeeps(init, inst, buyers, k);
    }
  }

  /** The table has a row of owner `hbId` for installment `instId` (`horse_buyer.id in existing`). */
  predicate HasRow(rows: seq<BuyerInstallment>, hbId: int, instId: int) {
    exists k :: 0 <= k < |rows| && rows[k].horseBuyerId == hbId && rows[k].installmentId == instId
  }

  /** The rows created for owners of `inst` that have none: nothing paid, PENDING, consecutive keys,
      and the given (mes, año), which the newest copy does not set. */
  function Missing(rows: seq<BuyerInstallment>, inst: Installment, buyers: seq<HorseBuyer>, firstId: int,
                   period: Option<(int, int)>): (r: seq<BuyerInstallment>)
    ensures |r| <= |buyers|
    ensures forall k :: 0 <= k < |r| ==>
              && r[k].id == firstId + k && r[k].installmentId == inst.id && r[k].amountPaid == 0.0
              && r[k].status == Pending && r[k].period == period
              && exists j :: 0 <= j < |buyers| && r[k].horseBuyerId == buyers[j].id && r[k].amount == RowAmount(inst, buyers[j])
  {
    if buyers == [] then []
    else
      var prev := Missing(rows, inst, buyers[..|buyers| - 1], firstId, period);
      var hb := buyers[|buyers| - 1];
      if HasRow(rows, hb.id, inst.id) then prev
      else prev + [BuyerInstallment(firstId + |prev|, hb.id, inst.id, RowAmount(inst, hb), 0.0, Pending, period)]
  }

  /** Every owner without a row for `inst` gets one. */
  lemma {:induction false} MissingCovers(rows: seq<BuyerInstallment>, inst: Installment, buyers: seq<HorseBuyer>,
                                         firstId: int, period: Option<(int, int)>, j: nat)
    requires j < |buyers| && !HasRow(rows, buyers[j].id, inst.id)
    ensures HasRow(Missing(rows, inst, buyers, firstId, period), buyers[j].id, inst.id)
  {
    var init := buyers[..|buyers| - 1];
    var prev := Missing(rows, inst, init, firstId, period);
    if j < |buyers| - 1 {
      assert init[j] == buyers[j];
      MissingCovers(rows, inst, init, firstId, period, j);
      var k :| 0 <= k < |prev| && prev[k].horseBuyerId == buyers[j].id && prev[k].installmentId == inst.id;
      assert Missing(rows, inst, buyers, firstId, period)[k] == prev[k];
    } else {
      var m := Missing(rows, inst, buyers, firstId, period);
      assert m[|m| - 1].horseBuyerId == buyers[j].id;
    }
  }

  /** What the commit checks on a written row: `check_positive_amount`,
      `check_non_negative_amount_paid` and NOT NULL on mes/año. */
  predicate WrittenRowsPass(revised: seq<BuyerInstallment>, added: seq<BuyerInstallment>, instId: int) {
    && (forall k :: 0 <= k < |revised| && revised[k].installmentId == instId ==>
          ProdModels.BuyerInstallmentChecks(revised[k]))
    && (forall k :: 0 <= k < |added| ==> ProdModels.BuyerInstallmentChecks(added[k]))
  }

  /** The whole pass over installment `inst`: the revised rows, then the new ones; the next free key;
      and whether the written rows pass the checks. With `fill`, new rows get the installment's
      (mes, año); without it they get none, as written. */
  function Step(rows: seq<BuyerInstallment>, inst: Installment, buyers: seq<HorseBuyer>, nextId: int, fill: bool)
    : (seq<BuyerInstallment>, int, bool)
  {
    var added := Missing(rows, inst, buyers, nextId, if fill then Some((inst.mes, inst.anio)) else None);
    var revised := Revised(rows, inst, buyers);
    (revised + added, nextId + |added|, WrittenRowsPass(revised, added, inst.id))
  }

  /** The installment is one of the horse's and is not yet due (`due_date < utcnow()` skips it). */
  predicate Recalculated(inst: Installment, horseId: int, now: DateTime) {
    inst.horseId == horseId && !Before(inst.dueDate, now)
  }

  /** The passes over the horse's installments in table order: the final rows, the next free key, and
      whether every write passes the checks. */
  function Recalc(rows: seq<BuyerInstallment>, insts: seq<Installment>, buyers: seq<HorseBuyer>, horseId: int,
                  now: DateTime, nextId: int, fill: bool): (r: (seq<BuyerInstallment>, int, bool))
  {
    if insts == [] then (rows, nextId, true)
    else
      var prev := Recalc(rows, insts[..|insts| - 1], buyers, horseId, now, nextId, fill);
      var inst := insts[|insts| - 1];
      if Recalculated(inst, horseId, now) then
        var s := Step(prev.0, inst, buyers, prev.1, fill);
        (s.0, s.1, prev.2 && s.2)
      else prev
  }

  /** The pass over the existing rows of the table for one installment. */
  method ReviseRows(rows: seq<BuyerInstallment>, inst: Installment, buyers: seq<HorseBuyer>)
    returns (r: seq<BuyerInstallment>)
    ensures r == Revised(rows, inst, buyers)
  {
    r := [];
    var k := 0;
    while k < |rows|
      invariant 0 <= k <= |rows|
      invariant r == Revised(rows[..k], inst, buyers)
    {
      assert rows[..k + 1][..k] == rows[..k];
      var x := ReviseRow(rows[k], inst, buyers);
      if x.Some? {
        r := r + [x.value];
      }
      k := k + 1;
    }
    assert rows[..k] == rows;
  }

  /** The loop over `horse.buyers` creating the rows that do not exist yet. */
  method AddMissingRows(rows: seq<BuyerInstallment>, inst: Installment, buyers: seq<HorseBuyer>, firstId: int,
                        period: Option<(int, int)>) returns (added: seq<BuyerInstallment>)
    ensures added == Missing(rows, inst, buyers, firstId, period)
  {
    added := [];
    var j := 0;
    while j < |buyers|
      invariant 0 <= j <= |buyers|
      invariant added == Missing(rows, inst, buyers[..j], firstId, period)
    {
      assert buyers[..j + 1][..j] == buyers[..j];
      var hb := buyers[j];
      if !HasRow(rows, hb.id, inst.id) {
        added := added + [BuyerInstallment(firstId + |added|, hb.id, inst.id, RowAmount(inst, hb), 0.0, Pending, period)];
      }
      j := j + 1;
    }
    assert buyers[..j] == buyers;
  }

  /** The loop of `recalculate_installments` over the horse's installments: for each one not yet due,
      the rows of its missing owners are created and the existing rows revised. */
  method RecalcRows(rows: seq<BuyerInstallment>, insts: seq<Installment>, buyers: seq<HorseBuyer>, horseId: int,
                    now: DateTime, nextId: int)
    returns (rows': seq<BuyerInstallment>, next: int, ok: bool)
    ensures (rows', next, ok) == Recalc(rows, insts, buyers, horseId, now, nextId, false)
  {
    rows', next, ok := rows, nextId, true;
    var i := 0;
    while i < |insts|
      invariant 0 <= i <= |insts|
      invariant (rows', next, ok) == Recalc(rows, insts[..i], buyers, horseId, now, nextId, false)
    {
      assert insts[..i + 1][..i] == insts[..i];
      var inst := insts[i];
      if Recalculated(inst, horseId, now) {
        var added := AddMissingRows(rows', inst, buyers, next, None);
        var revised := ReviseRows(rows', inst, buyers);
        ok := ok && WrittenRowsPass(revised, added, inst.id);
        rows', next := revised + added, next + |added|;
      }
      i := i + 1;
    }
    assert insts[..i] == insts;
  }

  /** `recalculate_installments` for the horse with key `horseId`, as written: the new rows carry no
      (mes, año). Any write that fails a check at the commit rolls everything back. */
  method RecalculateInstallments(db: Session, horseId: int, now: DateTime) returns (r: Outcome)
    modifies db
    ensures var s := Recalc(old(db.buyerInstallments), old(db.installments), BuyersOf(old(db.horseBuyers), horseId),
                            horseId, now, old(db.nextId), false);
            && (r.Pass? <==> s.2)
            && (r.Fail? ==> r.error == ConstraintViolation && unchanged(db))
            && (r.Pass? ==> db.buyerInstallments == s.0 && db.nextId == s.1
                            && db.users == old(db.users) && db.horses == old(db.horses)
                            && db.horseBuyers == old(db.horseBuyers) && db.installments == old(db.installments)
                            && db.transactions == old(db.transactions))
  {
    var rows, next, ok := RecalcRows(db.buyerInstallments, db.installments, BuyersOf(db.horseBuyers, horseId),
                                     horseId, now, db.nextId);
    if !ok {
      return Fail(ConstraintViolation);
    }
    db.buyerInstallments, db.nextId := rows, next;
    r := Pass;
  }

  /** Installments that are all skipped leave the table as it is. */
  lemma {:induction false} RecalcSkipped(rows: seq<BuyerInstallment>, insts: seq<Installment>, buyers: seq<HorseBuyer>,
                                         horseId: int, now: DateTime, nextId: int, fill: bool)
    requires forall l :: 0 <= l < |insts| ==> !Recalculated(insts[l], horseId, now)
    ensures Recalc(rows, insts, buyers, horseId, now, nextId, fill) == (rows, nextId, true)
  {
    if insts != [] {
      RecalcSkipped(rows, insts[..|insts| - 1], buyers, horseId, now, nextId, fill);
    }
  }

  /** A failed check anywhere fails the whole recalculation. */
  lemma {:induction false} RecalcOkPrefix(rows: seq<BuyerInstallment>, insts: seq<Installment>, buyers: seq<HorseBuyer>,
                                          horseId: int, now: DateTime, nextId: int, fill: bool, m: nat)
    requires m <= |insts|
    requires Recalc(rows, insts, buyers, horseId, now, nextId, fill).2
    ensures Recalc(rows, insts[..m], buyers, horseId, now, nextId, fill).2
    decreases |insts|
  {
    if m < |insts| {
      var init := insts[..|insts| - 1];
      RecalcOkPrefix(rows, init, buyers, horseId, now, nextId, fill, m);
      assert init[..m] == insts[..m];
    } else {
      assert insts[..m] == insts;
    }
  }

  /** As written, recalculation fails as soon as an owner lacks a row for the first installment that
      is not yet due: the new row has no (mes, año), which the schema declares NOT NULL. */
  lemma RecalcNewOwnerFails(rows: seq<BuyerInstallment>, insts: seq<Installment>, buyers: seq<HorseBuyer>,
                            horseId: int, now: DateTime, nextId: int, i: nat, j: nat)
    requires i < |insts| && Recalculated(insts[i], horseId, now)
    requires forall l :: 0 <= l < i ==> !Recalculated(insts[l], horseId, now)
    requires j < |buyers| && !HasRow(rows, buyers[j].id, insts[i].id)
    ensures !Recalc(rows, insts, buyers, horseId, now, nextId, false).2
  {
    assert insts[..i + 1][..i] == insts[..i];
    RecalcSkipped(rows, insts[..i], buyers, horseId, now, nextId, false);
    var added := Missing(rows, insts[i], buyers, nextId, None);
    MissingCovers(rows, insts[i], buyers, nextId, None, j);
    assert !WrittenRowsPass(Revised(rows, insts[i], buyers), added, insts[i].id) by {
      var k :| 0 <= k < |added| && added[k].horseBuyerId == buyers[j].id && added[k].installmentId == insts[i].id;
      assert !ProdModels.BuyerInstallmentChecks(added[k]);
    }
    assert !Recalc(rows, insts[..i + 1], buyers, horseId, now, nextId, false).2;
    if Recalc(rows, insts, buyers, horseId, now, nextId, false).2 {
      RecalcOkPrefix(rows, insts, buyers, horseId, now, nextId, false, i + 1);
    }
  }

  /** With the installment's (mes, año) filled in, a pass succeeds whenever every owner's part is
      positive and the existing rows of the installment hold valid payments and periods. */
  lemma CorrectedStepPasses(rows: seq<BuyerInstallment>, inst: Installment, buyers: seq<HorseBuyer>, nextId: int)
    requires forall j :: 0 <= j < |buyers| ==> RowAmount(inst, buyers[j]) > 0.0
    requires forall k :: 0 <= k < |rows| && rows[k].installmentId == inst.id ==>
               rows[k].amountPaid >= 0.0 && rows[k].period.Some?
    ensures Step(rows, inst, buyers, nextId, true).2
  {
    var revised := Revised(rows, inst, buyers);
    forall k | 0 <= k < |revised| && revised[k].installmentId == inst.id
      ensures ProdModels.BuyerInstallmentChecks(revised[k])
    {
      RevisedFrom(rows, inst, buyers, revised[k]);
    }
  }

  /** With the corrected pass every current owner has a row for the installment afterwards. */
  lemma CorrectedStepCoversOwners(rows: seq<BuyerInstallment>, inst: Installment, buyers: seq<HorseBuyer>,
                                  nextId: int, j: nat)
    requires j < |buyers|
    ensures HasRow(Step(rows, inst, buyers, nextId, true).0, buyers[j].id, inst.id)
  {
    var period := Some((inst.mes, inst.anio));
    var revised := Revised(rows, inst, buyers);
    var added := Missing(rows, inst, buyers, nextId, period);
    var all := revised + added;
    if HasRow(rows, buyers[j].id, inst.id) {
      var k :| 0 <= k < |rows| && rows[k].horseBuyerId == buyers[j].id && rows[k].installmentId == inst.id;
      RevisedKeeps(rows, inst, buyers, k);
      var x := ReviseRow(rows[k], inst, buyers).value;
      var m :| 0 <= m < |revised| && revised[m] == x;
      assert all[m] == x;
    } else {
      MissingCovers(rows, inst, buyers, nextId, period, j);
      var m :| 0 <= m < |added| && added[m].horseBuyerId == buyers[j].id && added[m].installmentId == inst.id;
      assert all[|revised| + m] == added[m];
    }
  }
}
