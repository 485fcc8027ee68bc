/** Row invariants of the oldest schema, in its two copies: the `Horse` and `HorseBuyer` validators of
    the module that also holds the database helpers (they raise ValueError) and those of the models
    module (they assert), plus the models module's CHECK constraints. */
module ApiModels {
  import opened Entities

  /** `validate_positive` for `number_of_installments` and `total_value` (both copies). */
  function ValidatePositive(field: string, value: real): (r: Outcome)
    ensures r == Pass <==> value > 0.0
    ensures r.Fail? ==> r.error == InvalidValue(field)
  {
    if value <= 0.0 then Fail(InvalidValue(field)) else Pass
  }

  /** `validate_installment_amount` of the database module: skipped when the total is 0 (falsy);
      otherwise rejected when `|total - amount * n|` exceeds 0.01. */
  function ValidateInstallmentAmountLenient(total: real, n: int, amount: real): (r: Outcome)
    ensures r.Fail? <==> total != 0.0 && (total - amount * n as real > 0.01 || amount * n as real - total > 0.01)
    ensures r.Fail? ==> r.error == InvalidValue("installment_amount")
  {
    var diff := total - amount * n as real;
    if total != 0.0 && (if diff < 0.0 then -diff else diff) > 0.01 then Fail(InvalidValue("installment_amount"))
    else Pass
  }

  /** `validate_installment_amount` of the models module: accepted only when `|total - amount * n|`
      is strictly below 0.01 (again skipped for a zero total). */
  function ValidateInstallmentAmountStrict(total: real, n: int, amount: real): (r: Outcome)
    ensures r == Pass <==> total == 0.0 || (-0.01 < total - amount * n as real < 0.01)
    ensures r.Fail? ==> r.error == InvalidValue("installment_amount")
  {
    var diff := total - amount * n as real;
    if total != 0.0 && !((if diff < 0.0 then -diff else diff) < 0.01) then Fail(InvalidValue("installment_amount"))
    else Pass
  }

  /** An example of where the two copies disagree, at a difference of exactly 0.01 in exact
      arithmetic: a total of 100.01 paid in one installment of 100 passes the database module and
      fails the models module. (In binary floating point that difference exceeds 0.01.) */
  lemma InstallmentToleranceBoundary()
    ensures ValidateInstallmentAmountLenient(100.01, 1, 100.0) == Pass
    ensures ValidateInstallmentAmountStrict(100.01, 1, 100.0).Fail?
  {
  }

  /** Otherwise they agree: whatever the strict check accepts, the lenient one accepts too. */
  lemma StrictImpliesLenient(total: real, n: int, amount: real)
    ensures ValidateInstallmentAmountStrict(total, n, amount) == Pass ==>
            ValidateInstallmentAmountLenient(total, n, amount) == Pass
  {
  }

  /** The horse creation of the database module sets `installment_amount = total / n`, which both
      checks accept for any positive number of installments. */
  lemma EvenSplitAccepted(total: real, n: int)
    requires n > 0
    ensures ValidateInstallmentAmountLenient(total, n, total / n as real) == Pass
    ensures ValidateInstallmentAmountStrict(total, n, total / n as real) == Pass
  {
    assert total / n as real * n as real == total;
  }

  /** The models module's `Horse` CHECK constraints. */
  predicate HorseChecks(h: Horse) {
    h.totalValue > 0.0 && h.numberOfInstallments > 0 && h.installmentAmount.Some? && h.installmentAmount.value > 0.0
  }

  /** `validate_percentage` (both copies) and `check_valid_percentage`. */
  function ValidatePercentage(p: real): (r: Outcome)
    ensures r == Pass <==> 0.0 < p && p <= 100.0
    ensures r.Fail? ==> r.error == InvalidValue("percentage")
  {
    if 0.0 < p <= 100.0 then Pass else Fail(InvalidValue("percentage"))
  }

  /** `Installment` and `BuyerInstallment` CHECK constraints of the models module. */
  predicate InstallmentChecks(i: Installment) {
    i.amount > 0.0 && i.number > 0
  }

  predicate BuyerInstallmentChecks(bi: BuyerInstallment) {
    bi.amount > 0.0 && bi.amountPaid >= 0.0
  }

  /** `Transaction` CHECK: `total_amount > 0`. */
  predicate TransactionChecks(t: Transaction) {
    t.totalAmount > 0.0
  }

  /** A horse that passes the validators of the models module also passes its CHECK constraints
      when the installment amount is positive, and its installments then cover the total to within a cent. */
  lemma ValidatedHorseCoversTotal(h: Horse)
    requires ValidatePositive("number_of_installments", h.numberOfInstallments as real) == Pass
    requires ValidatePositive("total_value", h.totalValue) == Pass
    requires h.installmentAmount.Some?
    requires ValidateInstallmentAmountStrict(h.totalValue, h.numberOfInstallments, h.installmentAmount.value) == Pass
    ensures -0.01 < h.totalValue - h.installmentAmount.value * h.numberOfInstallments as real < 0.01
    ensures h.installmentAmount.value > 0.0 ==> HorseChecks(h)
  {
  }
}
