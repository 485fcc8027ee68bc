/** Row invariants of the newest schema: the field validators (which raise as soon as a value is
    assigned) and the CHECK, UNIQUE and NOT NULL constraints (which fail the flush or commit). */
module ProdModels {
  import opened Entities

  /** `User.validate_email`: the address must contain "@". */
  function ValidateEmail(email: string): (r: Outcome)
    ensures r == Pass <==> exists k :: 0 <= k < |email| && email[k] == '@'
    ensures r.Fail? ==> r.error == InvalidValue("email")
  {
    if '@' in email then Pass else Fail(InvalidValue("email"))
  }

  /** `HorseBuyer.validate_percentage` and the `check_valid_percentage` constraint: one and the same bound. */
  predicate PercentageInRange(p: real) {
    0.0 < p <= 100.0
  }

  function ValidatePercentage(p: real): (r: Outcome)
    ensures r == Pass <==> 0.0 < p && p <= 100.0
    ensures r.Fail? ==> r.error == InvalidValue("percentage")
  {
    if PercentageInRange(p) then Pass else Fail(InvalidValue("percentage"))
  }

  /** `check_non_negative_total_value`, `check_non_negative_installments`. */
  predicate HorseChecks(h: Horse) {
    h.totalValue >= 0.0 && h.numberOfInstallments >= 0
  }

  /** `check_positive_amount`, `check_positive_installment_number`. */
  predicate InstallmentChecks(i: Installment) {
    i.amount > 0.0 && i.number > 0
  }

  /** `check_positive_amount`, `check_non_negative_amount_paid`, and mes/año declared NOT NULL. */
  predicate BuyerInstallmentChecks(bi: BuyerInstallment) {
    bi.amount > 0.0 && bi.amountPaid >= 0.0 && bi.period.Some?
  }

  /** `uix_horse_buyer`: one ownership row per (horse, buyer). */
  predicate UniqueShares(hbs: seq<HorseBuyer>) {
    forall j, k :: 0 <= j < k < |hbs| ==> !(hbs[j].horseId == hbs[k].horseId && hbs[j].buyerId == hbs[k].buyerId)
  }

  /** `uix_horse_installment`: one installment per (horse, number). */
  predicate UniqueInstallmentNumbers(insts: seq<Installment>) {
    forall j, k :: 0 <= j < k < |insts| ==> !(insts[j].horseId == insts[k].horseId && insts[j].number == insts[k].number)
  }

  /** `uix_buyer_installment`: one row per (ownership row, installment). */
  predicate UniqueBuyerRows(rows: seq<BuyerInstallment>) {
    forall j, k :: 0 <= j < k < |rows| ==>
      !(rows[j].horseBuyerId == rows[k].horseBuyerId && rows[j].installmentId == rows[k].installmentId)
  }

  /** A row built with the column defaults: `amount_paid` 0.0 and status PENDING. */
  function NewBuyerInstallment(id: int, horseBuyerId: int, installmentId: int, amount: real,
                               period: Option<(int, int)>): (r: BuyerInstallment)
    ensures r.amountPaid == 0.0 && r.status == Pending
    ensures r.amount == amount && r.horseBuyerId == horseBuyerId && r.installmentId == installmentId
  {
    BuyerInstallment(id, horseBuyerId, installmentId, amount, 0.0, Pending, period)
  }

  /** The defaults agree with `update_installment_status` exactly when the amount is positive, which
      is what `check_positive_amount` demands: a row that passes its checks starts consistent. */
  lemma DefaultStatusConsistent(id: int, horseBuyerId: int, installmentId: int, amount: real,
                                period: Option<(int, int)>)
    ensures var bi := NewBuyerInstallment(id, horseBuyerId, installmentId, amount, period);
            UpdateInstallmentStatus(bi) == bi <==> amount > 0.0
    ensures BuyerInstallmentChecks(NewBuyerInstallment(id, horseBuyerId, installmentId, amount, period))
            <==> amount > 0.0 && period.Some?
  {
  }
}
