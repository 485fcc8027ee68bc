/** Balance changes applied user by user, as the distribution loops do: each ownership row adds one
    signed amount to the balance of its buyer's user row. */
module Balances {
  import opened Entities
  import opened Money

  /** Add `amount` to the balance of user `userId`. */
  datatype Delta = Delta(userId: int, amount: real)

  /** Apply the changes in order; a change for a user that does not exist is skipped, as the
      newest copy does with `if user_instance:`. Only balances change. */
  function Apply(users: map<int, User>, ds: seq<Delta>): (r: map<int, User>)
    ensures r.Keys == users.Keys
    ensures forall u :: u in users ==> r[u] == users[u].(balance := r[u].balance)
  {
    if ds == [] then users
    else
      var prev := Apply(users, ds[..|ds| - 1]);
      var d := ds[|ds| - 1];
      if d.userId in prev then prev[d.userId := prev[d.userId].(balance := prev[d.userId].balance + d.amount)]
      else prev
  }

  /** Total of the changes addressed to user `u`. */
  function SumFor(ds: seq<Delta>, u: int): real {
    if ds == [] then 0.0
    else SumFor(ds[..|ds| - 1], u) + if ds[|ds| - 1].userId == u then ds[|ds| - 1].amount else 0.0
  }

  /** Every existing user ends with their old balance plus the sum of the changes addressed to them. */
  lemma {:induction false} ApplyAt(users: map<int, User>, ds: seq<Delta>, u: int)
    requires u in users
    ensures Apply(users, ds)[u].balance == users[u].balance + SumFor(ds, u)
  {
    if ds != [] {
      ApplyAt(users, ds[..|ds| - 1], u);
    }
  }

  /** Every user ends with their old row plus the changes addressed to them (extensional form). */
  lemma ApplyIs(users: map<int, User>, ds: seq<Delta>, r: map<int, User>)
    requires r.Keys == users.Keys
    requires forall u :: u in users ==> r[u] == users[u].(balance := users[u].balance + SumFor(ds, u))
    ensures Apply(users, ds) == r
  {
    forall u | u in users ensures Apply(users, ds)[u] == r[u] {
      ApplyAt(users, ds, u);
    }
  }

  /** A user no change is addressed to keeps their balance. */
  lemma {:induction false} SumForAbsent(ds: seq<Delta>, u: int)
    requires forall k :: 0 <= k < |ds| ==> ds[k].userId != u
    ensures SumFor(ds, u) == 0.0
  {
    if ds != [] {
      SumForAbsent(ds[..|ds| - 1], u);
    }
  }

  /** When every change is addressed to a different user, each user receives exactly their own change. */
  lemma {:induction false} SumForDistinct(ds: seq<Delta>, k: nat)
    requires k < |ds|
    requires forall i, j :: 0 <= i < j < |ds| ==> ds[i].userId != ds[j].userId
    ensures SumFor(ds, ds[k].userId) == ds[k].amount
  {
    var init := ds[..|ds| - 1];
    if k == |ds| - 1 {
      SumForAbsent(init, ds[k].userId);
    } else {
      SumForDistinct(init, k);
    }
  }

  function Negated(ds: seq<Delta>): (r: seq<Delta>)
    ensures |r| == |ds|
    ensures forall k :: 0 <= k < |ds| ==> r[k] == Delta(ds[k].userId, -ds[k].amount)
  {
    if ds == [] then [] else Negated(ds[..|ds| - 1]) + [Delta(ds[|ds| - 1].userId, -ds[|ds| - 1].amount)]
  }

  lemma {:induction false} SumForNegated(ds: seq<Delta>, u: int)
    ensures SumFor(Negated(ds), u) == -SumFor(ds, u)
  {
    if ds != [] {
      assert Negated(ds)[..|ds| - 1] == Negated(ds[..|ds| - 1]);
      SumForNegated(ds[..|ds| - 1], u);
    }
  }

  lemma NegatedTwice(ds: seq<Delta>)
    ensures Negated(Negated(ds)) == ds
  {
  }

  /** Applying a list of changes and then the same list negated restores every balance exactly. */
  lemma ApplyThenUndo(users: map<int, User>, ds: seq<Delta>)
    ensures Apply(Apply(users, ds), Negated(ds)) == users
  {
    var mid := Apply(users, ds);
    forall u | u in users ensures Apply(mid, Negated(ds))[u] == users[u] {
      ApplyAt(users, ds, u);
      ApplyAt(mid, Negated(ds), u);
      SumForNegated(ds, u);
    }
  }

  /** One ownership row's part of a transaction rounded to cents, as in the newest copy:
      `round(total * (percentage / 100), 2)` for the row's buyer. */
  function RoundedShares(buyers: seq<HorseBuyer>, total: real): (r: seq<Delta>)
    ensures |r| == |buyers|
    ensures forall k :: 0 <= k < |buyers| ==>
              r[k] == Delta(buyers[k].buyerId, Round2(Share(total, buyers[k].percentage)))
  {
    if buyers == [] then []
    else RoundedShares(buyers[..|buyers| - 1], total)
           + [Delta(buyers[|buyers| - 1].buyerId, Round2(Share(total, buyers[|buyers| - 1].percentage)))]
  }

  /** The unrounded `total * (percentage / 100)` of the older copies. */
  function ExactShares(buyers: seq<HorseBuyer>, total: real): (r: seq<Delta>)
    ensures |r| == |buyers|
    ensures forall k :: 0 <= k < |buyers| ==> r[k] == Delta(buyers[k].buyerId, Share(total, buyers[k].percentage))
  {
    if buyers == [] then []
    else ExactShares(buyers[..|buyers| - 1], total)
           + [Delta(buyers[|buyers| - 1].buyerId, Share(total, buyers[|buyers| - 1].percentage))]
  }

  /** Total of all changes. */
  function Total(ds: seq<Delta>): real {
    if ds == [] then 0.0 else Total(ds[..|ds| - 1]) + ds[|ds| - 1].amount
  }

  /** The unrounded split hands out `total * (sum of percentages) / 100`: all of `total` when the
      shares sum to 100. */
  lemma {:induction false} ExactSharesTotal(buyers: seq<HorseBuyer>, total: real)
    ensures Total(ExactShares(buyers, total)) == total * (Sum(Percentages(buyers)) / 100.0)
  {
    if buyers != [] {
      var init := buyers[..|buyers| - 1];
      ExactSharesTotal(init, total);
      assert ExactShares(buyers, total)[..|buyers| - 1] == ExactShares(init, total);
      assert Percentages(buyers)[..|buyers| - 1] == Percentages(init);
      var p := buyers[|buyers| - 1].percentage;
      calc {
        Total(ExactShares(buyers, total));
        total * (Sum(Percentages(init)) / 100.0) + total * (p / 100.0);
        total * (Sum(Percentages(buyers)) / 100.0);
      }
    }
  }

  /** The rounded split differs from the unrounded one by at most half a cent per ownership row. */
  lemma {:induction false} RoundedSharesTotal(buyers: seq<HorseBuyer>, total: real)
    ensures -0.005 * (|buyers| as real) <= Total(RoundedShares(buyers, total)) - Total(ExactShares(buyers, total))
    ensures Total(RoundedShares(buyers, total)) - Total(ExactShares(buyers, total)) <= 0.005 * (|buyers| as real)
  {
    if buyers != [] {
      var init := buyers[..|buyers| - 1];
      RoundedSharesTotal(init, total);
      assert RoundedShares(buyers, total)[..|buyers| - 1] == RoundedShares(init, total);
      assert ExactShares(buyers, total)[..|buyers| - 1] == ExactShares(init, total);
    }
  }

  function Percentages(buyers: seq<HorseBuyer>): (r: seq<real>)
    ensures |r| == |buyers|
    ensures forall k :: 0 <= k < |buyers| ==> r[k] == buyers[k].percentage
  {
    if buyers == [] then [] else Percentages(buyers[..|buyers| - 1]) + [buyers[|buyers| - 1].percentage]
  }
}
