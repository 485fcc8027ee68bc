/** The database session: every table as a sequence of rows in query order (insertion order),
    users as a map from id to row, and the id generator. The operations in the crud modules change
    it in place; on an error that the source rolls back they leave it unchanged. */
module Store {
  import opened Entities

  class Session {
    var users: map<int, User>
    var horses: seq<Horse>
    var horseBuyers: seq<HorseBuyer>
    var installments: seq<Installment>
    var buyerInstallments: seq<BuyerInstallment>
    var transactions: seq<Transaction>
    /** The next primary key the database hands out (one counter for all tables). */
    var nextId: int

    constructor ()
      ensures users == map[] && horses == [] && horseBuyers == [] && installments == []
      ensures buyerInstallments == [] && transactions == [] && nextId == 1
    {
      users := map[];
      horses := [];
      horseBuyers := [];
      installments := [];
      buyerInstallments := [];
      transactions := [];
      nextId := 1;
    }
  }

  /** `horse.buyers`: the ownership rows of a horse, in query order. */
  function BuyersOf(hbs: seq<HorseBuyer>, horseId: int): (r: seq<HorseBuyer>)
    ensures |r| <= |hbs|
    ensures forall k :: 0 <= k < |r| ==> r[k] in hbs && r[k].horseId == horseId
    ensures forall k :: 0 <= k < |hbs| && hbs[k].horseId == horseId ==> hbs[k] in r
  {
    if hbs == [] then []
    else
      var init := BuyersOf(hbs[..|hbs| - 1], horseId);
      if hbs[|hbs| - 1].horseId == horseId then init + [hbs[|hbs| - 1]] else init
  }

  /** The ownership rows of another horse are not among `horse.buyers`, and adding one does not change them. */
  lemma BuyersOfAppend(hbs: seq<HorseBuyer>, hb: HorseBuyer, horseId: int)
    ensures BuyersOf(hbs + [hb], horseId)
         == if hb.horseId == horseId then BuyersOf(hbs, horseId) + [hb] else BuyersOf(hbs, horseId)
  {
    assert (hbs + [hb])[..|hbs|] == hbs;
  }

  /** Position of the first row with the given id, as `query(...).filter(id == …).first()`. */
  function FindHorseBuyer(hbs: seq<HorseBuyer>, id: int): (r: Option<nat>)
    ensures r.Some? ==> r.value < |hbs| && hbs[r.value].id == id
                        && forall k :: 0 <= k < r.value ==> hbs[k].id != id
    ensures r.None? ==> forall k :: 0 <= k < |hbs| ==> hbs[k].id != id
  {
    if hbs == [] then None
    else if hbs[0].id == id then Some(0)
    else match FindHorseBuyer(hbs[1..], id)
      case None => None
      case Some(k) => Some(k + 1)
  }

  /** Position of the first ownership row of `buyerId` on `horseId`. */
  function FindShare(hbs: seq<HorseBuyer>, buyerId: int, horseId: int): (r: Option<nat>)
    ensures r.Some? ==> r.value < |hbs| && hbs[r.value].buyerId == buyerId && hbs[r.value].horseId == horseId
                        && forall k :: 0 <= k < r.value ==> !(hbs[k].buyerId == buyerId && hbs[k].horseId == horseId)
    ensures r.None? ==> forall k :: 0 <= k < |hbs| ==> !(hbs[k].buyerId == buyerId && hbs[k].horseId == horseId)
  {
    if hbs == [] then None
    else if hbs[0].buyerId == buyerId && hbs[0].horseId == horseId then Some(0)
    else match FindShare(hbs[1..], buyerId, horseId)
      case None => None
      case Some(k) => Some(k + 1)
  }

  function FindBuyerInstallment(rows: seq<BuyerInstallment>, id: int): (r: Option<nat>)
    ensures r.Some? ==> r.value < |rows| && rows[r.value].id == id
                        && forall k :: 0 <= k < r.value ==> rows[k].id != id
    ensures r.None? ==> forall k :: 0 <= k < |rows| ==> rows[k].id != id
  {
    if rows == [] then None
    else if rows[0].id == id then Some(0)
    else match FindBuyerInstallment(rows[1..], id)
      case None => None
      case Some(k) => Some(k + 1)
  }

  function FindInstallment(insts: seq<Installment>, id: int): (r: Option<nat>)
    ensures r.Some? ==> r.value < |insts| && insts[r.value].id == id
                        && forall k :: 0 <= k < r.value ==> insts[k].id != id
    ensures r.None? ==> forall k :: 0 <= k < |insts| ==> insts[k].id != id
  {
    if insts == [] then None
    else if insts[0].id == id then Some(0)
    else match FindInstallment(insts[1..], id)
      case None => None
      case Some(k) => Some(k + 1)
  }

  function FindTransaction(ts: seq<Transaction>, id: int): (r: Option<nat>)
    ensures r.Some? ==> r.value < |ts| && ts[r.value].id == id
                        && forall k :: 0 <= k < r.value ==> ts[k].id != id
    ensures r.None? ==> forall k :: 0 <= k < |ts| ==> ts[k].id != id
  {
    if ts == [] then None
    else if ts[0].id == id then Some(0)
    else match FindTransaction(ts[1..], id)
      case None => None
      case Some(k) => Some(k + 1)
  }

  /** A sequence with element `k` left out (`session.delete` of one row). */
  function RemoveAt<T>(s: seq<T>, k: nat): (r: seq<T>)
    requires k < |s|
    ensures |r| == |s| - 1
    ensures forall j :: 0 <= j < k ==> r[j] == s[j]
    ensures forall j :: k <= j < |r| ==> r[j] == s[j + 1]
  {
    s[..k] + s[k + 1..]
  }

  /** The buyer-installment row belongs to an ownership row of `buyerId` (the join on `horse_buyer_id`). */
  predicate OwnedBy(hbs: seq<HorseBuyer>, bi: BuyerInstallment, buyerId: int) {
    exists k :: 0 <= k < |hbs| && hbs[k].id == bi.horseBuyerId && hbs[k].buyerId == buyerId
  }

  function Outstanding(bi: BuyerInstallment): real {
    bi.amount - bi.amountPaid
  }

  /** `get_pending_installments_amount`: the sum of `amount - amount_paid` over the buyer's rows
      that are PENDING or PARTIAL (OVERDUE and PAID rows are not counted); 0 when there are none. */
  function PendingAmount(rows: seq<BuyerInstallment>, hbs: seq<HorseBuyer>, buyerId: int): real {
    if rows == [] then 0.0
    else PendingAmount(rows[..|rows| - 1], hbs, buyerId) + PendingPart(rows[|rows| - 1], hbs, buyerId)
  }

  /** What one row adds to the buyer's pending amount. */
  function PendingPart(bi: BuyerInstallment, hbs: seq<HorseBuyer>, buyerId: int): real {
    if (bi.status == Pending || bi.status == Partial) && OwnedBy(hbs, bi, buyerId) then Outstanding(bi) else 0.0
  }

  /** The pending amount of a table is the sum over its parts. */
  lemma {:induction false} PendingAmountAppend(a: seq<BuyerInstallment>, b: seq<BuyerInstallment>,
                                               hbs: seq<HorseBuyer>, buyerId: int)
    ensures PendingAmount(a + b, hbs, buyerId) == PendingAmount(a, hbs, buyerId) + PendingAmount(b, hbs, buyerId)
    decreases |b|
  {
    if b != [] {
      var b' := b[..|b| - 1];
      assert (a + b)[..|a + b| - 1] == a + b';
      PendingAmountAppend(a, b', hbs, buyerId);
    } else {
      assert a + b == a;
    }
  }

  /** When no row is overpaid, the pending amount is never negative. */
  lemma {:induction false} PendingAmountNonNegative(rows: seq<BuyerInstallment>, hbs: seq<HorseBuyer>, buyerId: int)
    requires forall k :: 0 <= k < |rows| ==> rows[k].amountPaid <= rows[k].amount
    ensures PendingAmount(rows, hbs, buyerId) >= 0.0
  {
    if rows != [] {
      PendingAmountNonNegative(rows[..|rows| - 1], hbs, buyerId);
    }
  }

  /** Replacing one row changes the pending amount by the difference of the two rows' parts. */
  lemma PendingAmountReplace(rows: seq<BuyerInstallment>, k: nat, x: BuyerInstallment, hbs: seq<HorseBuyer>, buyerId: int)
    requires k < |rows|
    ensures PendingAmount(rows[k := x], hbs, buyerId)
         == PendingAmount(rows, hbs, buyerId) - PendingPart(rows[k], hbs, buyerId) + PendingPart(x, hbs, buyerId)
  {
    var rows' := rows[k := x];
    assert rows == rows[..k] + [rows[k]] + rows[k + 1..];
    assert rows' == rows[..k] + [x] + rows[k + 1..];
    PendingAmountAppend(rows[..k] + [rows[k]], rows[k + 1..], hbs, buyerId);
    PendingAmountAppend(rows[..k] + [x], rows[k + 1..], hbs, buyerId);
    PendingAmountAppend(rows[..k], [rows[k]], hbs, buyerId);
    PendingAmountAppend(rows[..k], [x], hbs, buyerId);
    assert [rows[k]][..0] == [];
    assert [x][..0] == [];
  }

  /** An OVERDUE row is excluded: relabelling a PENDING row as OVERDUE lowers the buyer's pending
      amount by exactly that row's outstanding amount, when the row is the buyer's. */
  lemma PendingAmountOverdueRow(rows: seq<BuyerInstallment>, k: nat, hbs: seq<HorseBuyer>, buyerId: int)
    requires k < |rows| && rows[k].status == Pending
    ensures PendingAmount(rows[k := rows[k].(status := Overdue)], hbs, buyerId)
         == PendingAmount(rows, hbs, buyerId) - if OwnedBy(hbs, rows[k], buyerId) then Outstanding(rows[k]) else 0.0
  {
    PendingAmountReplace(rows, k, rows[k].(status := Overdue), hbs, buyerId);
  }
}
