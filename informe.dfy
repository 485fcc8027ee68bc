/** The monthly owner report of the two front ends (`handleGenerateReports` of the `informe` pages):
    for each ownership row of the chosen horse, the month's transactions are weighed by the owner's
    percentage, the month's outstanding installment is subtracted and, in the web front end, the
    owner's balance added and the sign flipped for display. The fetched transactions and the first
    fetched buyer installment are inputs. */
module Informe {
  import opened Entities
  import opened Money

  /** What one transaction adds to an owner's report total: a prize adds the owner's share, an
      expense subtracts it, an income adds the whole amount and a payment nothing. */
  function Contribution(t: Transaction, percentage: real): real {
    match t.kind
    case Premio => Share(t.totalAmount, percentage)
    case Egreso => -Share(t.totalAmount, percentage)
    case Ingreso => t.totalAmount
    case Pago => 0.0
  }

  /** The "Monto (%)" column: a share is shown only for prizes and expenses. */
  function ShareColumn(t: Transaction, percentage: real): (r: Option<real>)
    ensures r.Some? <==> t.kind == Premio || t.kind == Egreso
  {
    if t.kind == Premio || t.kind == Egreso then Some(Share(t.totalAmount, percentage)) else None
  }

  /** Prizes and expenses contribute exactly the share shown in their row, with the sign of the
      transaction; the other types contribute independently of the percentage. */
  lemma ContributionMatchesColumn(t: Transaction, percentage: real, other: real)
    ensures ShareColumn(t, percentage).Some? ==>
              Contribution(t, percentage) == if t.kind == Premio then ShareColumn(t, percentage).value
                                             else -ShareColumn(t, percentage).value
    ensures ShareColumn(t, percentage).None? ==> Contribution(t, percentage) == Contribution(t, other)
  {
  }

  /** The running total of the inner loop over the selected transactions. */
  function Contributions(txs: seq<Transaction>, percentage: real): real {
    if txs == [] then 0.0
    else Contributions(txs[..|txs| - 1], percentage) + Contribution(txs[|txs| - 1], percentage)
  }

  /** The total over two runs of transactions is the sum of their totals. */
  lemma {:induction false} ContributionsAppend(a: seq<Transaction>, b: seq<Transaction>, percentage: real)
    ensures Contributions(a + b, percentage) == Contributions(a, percentage) + Contributions(b, percentage)
    decreases |b|
  {
    if b != [] {
      var b' := b[..|b| - 1];
      assert (a + b)[..|a + b| - 1] == a + b';
      ContributionsAppend(a, b', percentage);
    } else {
      assert a + b == a;
    }
  }

  /** Payments leave the total alone wherever they appear. */
  lemma PaymentsIgnored(a: seq<Transaction>, t: Transaction, b: seq<Transaction>, percentage: real)
    requires t.kind == Pago
    ensures Contributions(a + [t] + b, percentage) == Contributions(a + b, percentage)
  {
    ContributionsAppend(a + [t], b, percentage);
    ContributionsAppend(a, b, percentage);
    assert (a + [t])[..|a + [t]| - 1] == a;
  }

  /** The web front end's filter: the transaction names the ownership row's key as its user or is
      on the chosen horse, and falls in the chosen month. */
  predicate FrontSelects(t: Transaction, hb: HorseBuyer, horseId: int, month: int, year: int) {
    (t.userId == Some(hb.id) || t.horseId == Some(horseId)) && t.mes == month && t.anio == year
  }

  /** The desktop renderer's filter: the chosen month only. */
  predicate RendererSelects(t: Transaction, month: int, year: int) {
    t.mes == month && t.anio == year
  }

  function FrontSelected(txs: seq<Transaction>, hb: HorseBuyer, horseId: int, month: int, year: int)
    : (r: seq<Transaction>)
    ensures forall t :: t in r <==> t in txs && FrontSelects(t, hb, horseId, month, year)
  {
    if txs == [] then []
    else
      var t := txs[|txs| - 1];
      FrontSelected(txs[..|txs| - 1], hb, horseId, month, year) + if FrontSelects(t, hb, horseId, month, year) then [t] else []
  }

  function RendererSelected(txs: seq<Transaction>, month: int, year: int): (r: seq<Transaction>)
    ensures forall t :: t in r <==> t in txs && RendererSelects(t, month, year)
  {
    if txs == [] then []
    else
      var t := txs[|txs| - 1];
      RendererSelected(txs[..|txs| - 1], month, year) + if RendererSelects(t, month, year) then [t] else []
  }

  /** What the month's first fetched buyer installment still owes; nothing without one. */
  function Remaining(installment: Option<BuyerInstallment>): real {
    if installment.Some? then installment.value.amount - installment.value.amountPaid else 0.0
  }

  /** The web front end's report total before display. */
  function FrontTotal(txs: seq<Transaction>, hb: HorseBuyer, horseId: int, month: int, year: int,
                      installment: Option<BuyerInstallment>): real
  {
    Contributions(FrontSelected(txs, hb, horseId, month, year), hb.percentage) - Remaining(installment) + hb.balance
  }

  /** The desktop renderer's report total (its balance is shown apart and not added). */
  function RendererTotal(txs: seq<Transaction>, hb: HorseBuyer, month: int, year: int,
                         installment: Option<BuyerInstallment>): real
  {
    Contributions(RendererSelected(txs, month, year), hb.percentage) - Remaining(installment)
  }

  /** When every fetched transaction is on the chosen horse (the query asks the server for exactly
      those), the web filter reduces to the month filter, and the two front ends differ only by the
      balance and the display sign. */
  lemma {:induction false} FrontAgreesWithRenderer(txs: seq<Transaction>, hb: HorseBuyer, horseId: int, month: int,
                                                   year: int, installment: Option<BuyerInstallment>)
    requires forall t :: t in txs ==> t.horseId == Some(horseId)
    ensures FrontSelected(txs, hb, horseId, month, year) == RendererSelected(txs, month, year)
    ensures FrontTotal(txs, hb, horseId, month, year, installment) == RendererTotal(txs, hb, month, year, installment) + hb.balance
  {
    if txs != [] {
      var init := txs[..|txs| - 1];
      assert forall t :: t in init ==> t in txs;
      assert txs[|txs| - 1] in txs;
      FrontAgreesWithRenderer(init, hb, horseId, month, year, installment);
    }
  }

  /** The per-buyer total of the web front end: the loop over the selected transactions, the
      installment still owed, the balance; the figure shown is the total rounded to cents and negated. */
  method FrontBuyerTotal(txs: seq<Transaction>, hb: HorseBuyer, horseId: int, month: int, year: int,
                         installment: Option<BuyerInstallment>)
    returns (shown: real)
    ensures shown == -Round2(FrontTotal(txs, hb, horseId, month, year, installment))
  {
    var selected := FrontSelected(txs, hb, horseId, month, year);
    var total := SumContributions(selected, hb.percentage);
    if installment.Some? {
      total := total - (installment.value.amount - installment.value.amountPaid);
    }
    total := total + hb.balance;
    shown := Round2(total) * -1.0;
  }

  /** The per-buyer total of the desktop renderer, rounded to cents for display. */
  method RendererBuyerTotal(txs: seq<Transaction>, hb: HorseBuyer, month: int, year: int,
                            installment: Option<BuyerInstallment>)
    returns (shown: real)
    ensures shown == Round2(RendererTotal(txs, hb, month, year, installment))
  {
    var selected := RendererSelected(txs, month, year);
    var total := SumContributions(selected, hb.percentage);
    if installment.Some? {
      total := total - (installment.value.amount - installment.value.amountPaid);
    }
    shown := Round2(total);
  }

  /** The inner `for` loop shared by both pages: `total` accumulated over the selected transactions. */
  method SumContributions(selected: seq<Transaction>, percentage: real) returns (total: real)
    ensures total == Contributions(selected, percentage)
  {
    total := 0.0;
    var k := 0;
    while k < |selected|
      invariant 0 <= k <= |selected|
      invariant total == Contributions(selected[..k], percentage)
    {
      assert selected[..k + 1][..k] == selected[..k];
      var t := selected[k];
      var share := (percentage / 100.0) * t.totalAmount;
      if t.kind == Premio {
        total := total + share;
      } else if t.kind == Egreso {
        total := total - share;
      } else if t.kind == Ingreso {
        total := total + t.totalAmount;
      }
      k := k + 1;
    }
    assert selected[..k] == selected;
  }

  /** The outer loop of the web front end: one report per ownership row of the horse, with the
      first buyer installment fetched for each. */
  method FrontReports(txs: seq<Transaction>, buyers: seq<HorseBuyer>, horseId: int, month: int, year: int,
                      installments: seq<Option<BuyerInstallment>>)
    returns (shown: seq<real>)
    requires |installments| == |buyers|
    ensures |shown| == |buyers|
    ensures forall j :: 0 <= j < |buyers| ==> shown[j] == -Round2(FrontTotal(txs, buyers[j], horseId, month, year, installments[j]))
  {
    shown := [];
    var j := 0;
    while j < |buyers|
      invariant 0 <= j <= |buyers| && |shown| == j
      invariant forall i :: 0 <= i < j ==> shown[i] == -Round2(FrontTotal(txs, buyers[i], horseId, month, year, installments[i]))
    {
      var s := FrontBuyerTotal(txs, buyers[j], horseId, month, year, installments[j]);
      shown := shown + [s];
      j := j + 1;
    }
  }

  /** The outer loop of the desktop renderer. */
  method RendererReports(txs: seq<Transaction>, buyers: seq<HorseBuyer>, month: int, year: int,
                         installments: seq<Option<BuyerInstallment>>)
    returns (shown: seq<real>)
    requires |installments| == |buyers|
    ensures |shown| == |buyers|
    ensures forall j :: 0 <= j < |buyers| ==> shown[j] == Round2(RendererTotal(txs, buyers[j], month, year, installments[j]))
  {
    shown := [];
    var j := 0;
    while j < |buyers|
      invariant 0 <= j <= |buyers| && |shown| == j
      invariant forall i :: 0 <= i < j ==> shown[i] == Round2(RendererTotal(txs, buyers[i], month, year, installments[i]))
    {
      var s := RendererBuyerTotal(txs, buyers[j], month, year, installments[j]);
      shown := shown + [s];
      j := j + 1;
    }
  }
}
