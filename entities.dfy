/** The rows of the syndicate-accounting database (users, horses, ownership shares, installments,
    per-buyer installments, transactions), the two enumerations, and the outcome of an operation. */
module Entities {
  import opened Calendar

  datatype Option<+T> = None | Some(value: T)

  /** `PaymentStatus`: PENDIENTE, PARCIAL, PAGADO, VENCIDO. */
  datatype PaymentStatus = Pending | Partial | Paid | Overdue

  /** `TransactionType`: INGRESO (income), EGRESO (expense), PREMIO (prize), PAGO (payment to admin). */
  datatype TransactionType = Ingreso | Egreso | Premio | Pago

  /** Why an operation was refused or failed. */
  datatype Error =
    | ShareSumNot100           // "La suma de los porcentajes debe ser 100%"
    | NoBuyers                 // "Se requiere al menos un comprador"
    | ShareCapExceeded         // "La suma de porcentajes excede el 100%"
    | AlreadyPaid              // "Installment already paid"
    | Overpayment              // "Payment amount exceeds the remaining balance"
    | NotABuyer                // "El usuario no es comprador del caballo"
    | MissingField(field: string)
    | InvalidValue(field: string)  // a field validator rejected the value
    | ConstraintViolation      // a CHECK, UNIQUE or NOT NULL constraint failed at flush/commit
    | InvalidDate              // `datetime.replace` with a day the month does not have
    | MissingRelation          // a relationship attribute was None (AttributeError/TypeError)
    | UnboundName              // a name used before assignment (NameError)

  datatype Outcome = Pass | Fail(error: Error)

  datatype Result<+T> = Ok(value: T) | Err(error: Error)

  datatype User = User(id: int, email: string, balance: real)

  datatype Horse = Horse(
    id: int,
    totalValue: real,
    numberOfInstallments: int,
    installmentAmount: Option<real>,  // only the oldest schema stores it
    startingBillingMonth: int,
    startingBillingYear: int,
    creationDate: DateTime)

  /** One entry of the `buyers_data` list given to horse creation and update. */
  datatype BuyerData = BuyerData(buyerId: int, percentage: real)

  /** One ownership share: `buyerId` owns `percentage` percent of horse `horseId`. */
  datatype HorseBuyer = HorseBuyer(
    id: int,
    horseId: int,
    buyerId: int,
    percentage: real,
    active: bool,
    balance: real)

  datatype Installment = Installment(
    id: int,
    horseId: int,
    dueDate: DateTime,
    amount: real,
    number: int,
    mes: int,
    anio: int)

  /** One buyer's part of one installment. `period` is the (mes, año) pair, which only the newest
      schema stores (None where a copy of the code leaves it unset). */
  datatype BuyerInstallment = BuyerInstallment(
    id: int,
    horseBuyerId: int,
    installmentId: int,
    amount: real,
    amountPaid: real,
    status: PaymentStatus,
    period: Option<(int, int)>)

  datatype Transaction = Transaction(
    id: int,
    kind: TransactionType,
    concept: string,
    totalAmount: real,
    horseId: Option<int>,
    userId: Option<int>,
    mes: int,
    anio: int,
    fechaDePago: Option<DateTime>,
    fechaDeEfectividad: Option<DateTime>,
    pagado: Option<bool>)

  /** `update_installment_status`: the status follows from the amount paid against the amount.
      It never yields OVERDUE and changes nothing but the status. */
  function UpdateInstallmentStatus(bi: BuyerInstallment): (r: BuyerInstallment)
    ensures r == bi.(status := r.status)
    ensures r.status == Paid <==> bi.amountPaid >= bi.amount
    ensures r.status == Partial <==> 0.0 < bi.amountPaid < bi.amount
    ensures r.status == Pending <==> bi.amountPaid <= 0.0 && bi.amountPaid < bi.amount
    ensures r.status != Overdue
  {
    if bi.amountPaid >= bi.amount then bi.(status := Paid)
    else if bi.amountPaid > 0.0 then bi.(status := Partial)
    else bi.(status := Pending)
  }

  function StatusRank(s: PaymentStatus): int {
    match s
    case Pending => 0
    case Overdue => 0
    case Partial => 1
    case Paid => 2
  }

  /** Paying more never moves the derived status backwards (PENDING, PARTIAL, PAID). */
  lemma StatusMonotone(bi: BuyerInstallment, more: real)
    requires more >= bi.amountPaid
    ensures StatusRank(UpdateInstallmentStatus(bi).status)
         <= StatusRank(UpdateInstallmentStatus(bi.(amountPaid := more)).status)
  {
  }
}
