/** Ownership-share validation: the list given at horse creation or update must sum to 100 within
    0.01, and a single new ownership row may not push a horse's total above 100. */
module ShareChecks {
  import opened Entities
  import opened Money
  import opened Store
  import opened Balances
  import ProdModels

  /** `abs(total_percentage - 100) > 0.01` is the rejection test, so the accepted band is closed. */
  predicate WithinTolerance(total: real) {
    -0.01 <= total - 100.0 <= 0.01
  }

  function PercentagesOfData(data: seq<BuyerData>): (r: seq<real>)
    ensures |r| == |data|
    ensures forall k :: 0 <= k < |data| ==> r[k] == data[k].percentage
  {
    if data == [] then [] else PercentagesOfData(data[..|data| - 1]) + [data[|data| - 1].percentage]
  }

  /** `validate_horse_buyers` (the same in all three copies): an empty list and a sum off 100 by more
      than 0.01 are rejected, in that order. */
  function ValidateHorseBuyers(data: seq<BuyerData>): (r: Outcome)
    ensures r == Fail(NoBuyers) <==> data == []
    ensures r == Fail(ShareSumNot100) <==> data != [] && !WithinTolerance(Sum(PercentagesOfData(data)))
    ensures r == Pass <==> data != [] && WithinTolerance(Sum(PercentagesOfData(data)))
  {
    if data == [] then Fail(NoBuyers)
    else if !WithinTolerance(Sum(PercentagesOfData(data))) then Fail(ShareSumNot100)
    else Pass
  }

  /** The check at the head of horse creation: only the sum is tested, so an empty list fails it
      too (its sum is 0), with the sum message rather than the missing-buyer one. */
  function CheckCreationShares(data: seq<BuyerData>): (r: Outcome)
    ensures r == Pass <==> WithinTolerance(Sum(PercentagesOfData(data)))
    ensures r.Fail? ==> r.error == ShareSumNot100
  {
    if !WithinTolerance(Sum(PercentagesOfData(data))) then Fail(ShareSumNot100) else Pass
  }

  /** Creation and update accept the same lists. */
  lemma CreationAndUpdateAgree(data: seq<BuyerData>)
    ensures CheckCreationShares(data) == Pass <==> ValidateHorseBuyers(data) == Pass
  {
    if data == [] {
      assert PercentagesOfData(data) == [];
    }
  }

  /** An accepted list splits any non-negative amount among its buyers, before rounding, to within
      one ten-thousandth of that amount. */
  lemma AcceptedSplitNearlyExact(data: seq<BuyerData>, total: real)
    requires ValidateHorseBuyers(data) == Pass
    requires total >= 0.0
    ensures -total * 0.0001 <= Sum(Shares(total, PercentagesOfData(data))) - total <= total * 0.0001
  {
    SharesWithinTolerance(total, PercentagesOfData(data));
  }

  /** `SUM(percentage)` over the horse's ownership rows, or 0.0 when it has none. */
  function HorseShareTotal(hbs: seq<HorseBuyer>, horseId: int): real {
    Sum(Percentages(BuyersOf(hbs, horseId)))
  }

  /** A new ownership row leaves other horses' totals alone and adds its percentage to its own horse's. */
  lemma HorseShareTotalAppend(hbs: seq<HorseBuyer>, hb: HorseBuyer, horseId: int)
    ensures HorseShareTotal(hbs + [hb], horseId)
         == HorseShareTotal(hbs, horseId) + if hb.horseId == horseId then hb.percentage else 0.0
  {
    BuyersOfAppend(hbs, hb, horseId);
    var b := BuyersOf(hbs, horseId);
    if hb.horseId == horseId {
      assert Percentages(b + [hb])[..|b|] == Percentages(b);
    }
  }

  /** The guard of `create_horse_buyer`: the existing total plus the new share may not exceed 100. */
  function CheckShareCap(hbs: seq<HorseBuyer>, horseId: int, percentage: real): (r: Outcome)
    ensures r == Pass <==> HorseShareTotal(hbs, horseId) + percentage <= 100.0
    ensures r.Fail? ==> r.error == ShareCapExceeded
  {
    if HorseShareTotal(hbs, horseId) + percentage > 100.0 then Fail(ShareCapExceeded) else Pass
  }

  /** `create_horse_buyer` (the same in all three copies). The cap is checked first (400); then the
      `percentage` validator raises for a value outside (0, 100]; then the commit fails (500, rolled
      back) when the horse already has a row for that buyer. Otherwise the row is added, active as
      given, with a zero balance. */
  method CreateHorseBuyer(db: Session, horseId: int, buyerId: int, percentage: real, active: bool)
    returns (r: Result<int>)
    modifies db
    ensures r.Err? ==> unchanged(db)
    ensures r == Err(ShareCapExceeded) <==> HorseShareTotal(old(db.horseBuyers), horseId) + percentage > 100.0
    ensures r.Ok? <==> (HorseShareTotal(old(db.horseBuyers), horseId) + percentage <= 100.0
                        && ProdModels.PercentageInRange(percentage)
                        && FindShare(old(db.horseBuyers), buyerId, horseId).None?)
    ensures r.Ok? ==> r.value == old(db.nextId) && db.nextId == old(db.nextId) + 1
                      && db.horseBuyers == old(db.horseBuyers) + [HorseBuyer(r.value, horseId, buyerId, percentage, active, 0.0)]
                      && db.users == old(db.users) && db.horses == old(db.horses)
                      && db.installments == old(db.installments) && db.buyerInstallments == old(db.buyerInstallments)
                      && db.transactions == old(db.transactions)
  {
    var cap := CheckShareCap(db.horseBuyers, horseId, percentage);
    if cap.Fail? {
      return Err(cap.error);
    }
    var valid := ProdModels.ValidatePercentage(percentage);
    if valid.Fail? {
      return Err(valid.error);
    }
    if FindShare(db.horseBuyers, buyerId, horseId).Some? {
      return Err(ConstraintViolation);
    }
    r := Ok(db.nextId);
    db.horseBuyers := db.horseBuyers + [HorseBuyer(db.nextId, horseId, buyerId, percentage, active, 0.0)];
    db.nextId := db.nextId + 1;
  }

  /** The cap is an invariant: a horse whose shares total at most 100 still does after any
      successful `create_horse_buyer`, whichever horse the new row is for. */
  lemma ShareCapPreserved(hbs: seq<HorseBuyer>, hb: HorseBuyer, horseId: int)
    requires HorseShareTotal(hbs, horseId) <= 100.0
    requires CheckShareCap(hbs, hb.horseId, hb.percentage) == Pass
    ensures HorseShareTotal(hbs + [hb], horseId) <= 100.0
  {
    HorseShareTotalAppend(hbs, hb, horseId);
  }
}
