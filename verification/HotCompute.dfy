/** What computing a transaction fills in, in the figures it was given. */
module HotCompute {
  import opened Wrappers
  import opened HotFile

  /** What the taxes add up to. */
  function TaxesOf(taxes: seq<Tax>): int {
    if taxes == [] then 0 else taxes[0].amount + TaxesOf(taxes[1..])
  }

  lemma {:induction false} TaxSumConcat(xs: seq<Tax>, ys: seq<Tax>)
    ensures TaxSum(xs + ys) == TaxSum(xs) + TaxSum(ys)
    decreases |ys|
  {
    if ys == [] {
      assert xs + ys == xs;
    } else {
      assert (xs + ys)[..|xs| + |ys| - 1] == xs + ys[..|ys| - 1];
      TaxSumConcat(xs, ys[..|ys| - 1]);
    }
  }

  lemma {:induction false} TaxSumIs(taxes: seq<Tax>)
    ensures TaxSum(taxes) == TaxesOf(taxes)
    decreases |taxes|
  {
    if taxes != [] {
      TaxSumIs(taxes[1..]);
      TaxSumConcat([taxes[0]], taxes[1..]);
      assert taxes == [taxes[0]] + taxes[1..];
      assert [taxes[0]][..0] == [];
      assert TaxSum([taxes[0]]) == TaxSum([taxes[0]][..0]) + taxes[0].amount;
    }
  }

  /** A commission a rate in hundredths of a percent comes to, to the nearest unit, half a
      unit going away from nothing. */
  predicate IsNearest(commission: int, fare: int, rate: int) {
    var due := fare * rate;
    var over := 10000 * commission - due;
    -10000 <= 2 * over <= 10000 && (2 * over == 10000 ==> due >= 0) && (2 * over == -10000 ==> due < 0)
  }

  lemma RoundDivIsNearest(fare: int, rate: int)
    ensures IsNearest(RoundDiv(fare * rate, 10000), fare, rate)
  {
    Nearest(fare * rate);
  }

  lemma Nearest(due: int)
    ensures var over := 10000 * RoundDiv(due, 10000) - due;
            -10000 <= 2 * over <= 10000 && (2 * over == 10000 ==> due >= 0) && (2 * over == -10000 ==> due < 0)
  {
  }

  predicate IsLastCash(ps: seq<Payment>, i: nat) {
    i < |ps| && ps[i].kind == "CA" && forall k | i < k < |ps| :: ps[k].kind != "CA"
  }

  lemma {:induction false} LastCashIs(ps: seq<Payment>, i: nat)
    ensures LastCash(ps) == Some(i) <==> IsLastCash(ps, i)
    ensures LastCash(ps).None? <==> forall k | 0 <= k < |ps| :: ps[k].kind != "CA"
    decreases |ps|
  {
    if ps != [] && ps[|ps| - 1].kind != "CA" {
      LastCashIs(ps[..|ps| - 1], i);
    }
  }

  /** The payments as paid: the last cash one is remitted less the commission, all others
      remit nothing; with no cash paid, a last payment of no amount stands in for it. */
  predicate RemitsLastCash(ps: seq<Payment>, paid: seq<Payment>, commission: int) {
    if exists i | 0 <= i < |ps| :: ps[i].kind == "CA" then
      && |paid| == |ps|
      && forall i: nat | i < |ps| :: paid[i] == ps[i].(remittance := if IsLastCash(ps, i) then ps[i].amount - commission else 0)
    else
      && |paid| == |ps| + 1 && paid[|ps|] == Payment("CA", 0, "", 0 - commission)
      && forall i | 0 <= i < |ps| :: paid[i] == ps[i].(remittance := 0)
  }

  lemma RemittedIs(ps: seq<Payment>, commission: int)
    ensures RemitsLastCash(ps, Remitted(ps, commission), commission)
  {
    var zero := Unremitted(ps);
    var cash := LastCash(zero);
    LastCashIs(zero, if cash.Some? then cash.value else 0);
    forall i: nat ensures IsLastCash(zero, i) <==> IsLastCash(ps, i) {
    }
    if cash.Some? {
      assert ps[cash.value].kind == "CA";
    }
  }

  /** Computing changes three things. A document amount that is not given becomes fare plus
      taxes. A commission that is not given, with a rate that is, becomes the rate of the
      fare alone, to the nearest unit. The remittance goes on the last cash payment. The
      totals are the document amount, that remittance, the commission owed as a negative
      amount, and the taxes. */
  lemma ComputeMeans(t: Transaction)
    ensures var c, tot := Computed(t), TotalsOf(t);
            && c == t.(total := c.total, commission := c.commission, payments := c.payments)
            && c.total == (if t.total != 0 then t.total else t.fare + TaxesOf(t.taxes))
            && (if t.commission != 0 || t.commissionRate == 0 then c.commission == t.commission
                else IsNearest(c.commission, t.fare, t.commissionRate))
            && RemitsLastCash(t.payments, c.payments, c.commission)
            && tot.gross == c.total && tot.commission == 0 - c.commission && tot.taxes == TaxesOf(t.taxes)
            && exists i: nat :: IsLastCash(c.payments, i) && tot.remittance == c.payments[i].remittance
  {
    hide LastCash, Remitted, RoundDiv, RemitsLastCash, IsNearest;
    var c := Computed(t);
    TaxSumIs(t.taxes);
    RoundDivIsNearest(t.fare, t.commissionRate);
    RemittedIs(t.payments, CommissionDue(t));
    LastCashIs(c.payments, LastCash(c.payments).value);
  }
}
