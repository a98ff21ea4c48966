/**
 * The platform fee. The web surface (apps/web/lib/format.ts), the API
 * (apps/api/src/lib/money.ts) and the contract (Escrow._feeOn) all use this floor.
 */
module Fees {
  import opened Basics
  import EthText

  function FeeOn(principal: nat, bps: nat): nat {
    principal * bps / 10_000
  }

  /** The largest whole number of wei that is at most `bps` ten-thousandths of the principal. */
  predicate IsFee(fee: nat, principal: nat, bps: nat) {
    10_000 * fee <= principal * bps < 10_000 * (fee + 1)
  }

  lemma FeeIsFloor(fee: nat, principal: nat, bps: nat)
    ensures IsFee(fee, principal, bps) <==> fee == FeeOn(principal, bps)
  {
  }

  lemma FeeIsPart(principal: nat, bps: nat)
    requires bps <= 10_000
    ensures FeeOn(principal, bps) <= principal
  {
    assert principal * bps <= principal * 10_000;
  }

  lemma FloorSum(x: nat, y: nat)
    ensures x / 10_000 + y / 10_000 <= (x + y) / 10_000 <= x / 10_000 + y / 10_000 + 1
  {
  }

  function FeeTotal(amounts: seq<nat>, bps: nat): nat {
    if amounts == [] then 0 else FeeOn(amounts[0], bps) + FeeTotal(amounts[1..], bps)
  }

  function AmountTotal(amounts: seq<nat>): nat {
    if amounts == [] then 0 else amounts[0] + AmountTotal(amounts[1..])
  }

  /** Taking the fee milestone by milestone costs the platform at most one wei for every milestone but one. */
  lemma {:induction false} FeesPerMilestone(amounts: seq<nat>, bps: nat)
    requires amounts != []
    ensures FeeTotal(amounts, bps) <= FeeOn(AmountTotal(amounts), bps) <= FeeTotal(amounts, bps) + |amounts| - 1
  {
    if |amounts| > 1 {
      FeesPerMilestone(amounts[1..], bps);
      var rest := AmountTotal(amounts[1..]);
      assert (amounts[0] + rest) * bps == amounts[0] * bps + rest * bps;
      FloorSum(amounts[0] * bps, rest * bps);
    } else {
      assert amounts == [amounts[0]];
    }
  }

  /** The printed fee and the printed payout read back to the printed value, to the wei. */
  lemma PrintedFeeAndPayout(amount: nat, bps: nat)
    requires bps <= 10_000
    ensures FeeOn(amount, bps) <= amount
    ensures EthText.Reread(FeeOn(amount, bps)) + EthText.Reread(amount - FeeOn(amount, bps)) == EthText.Reread(amount)
  {
    FeeIsPart(amount, bps);
    var fee := FeeOn(amount, bps);
    PrintedParts(fee, amount - fee, amount);
  }

  lemma PrintedParts(part: nat, rest: nat, all: nat)
    requires part + rest == all
    ensures EthText.Reread(part) + EthText.Reread(rest) == EthText.Reread(all)
  {
    EthText.ReadBack(part);
    EthText.ReadBack(rest);
    EthText.ReadBack(all);
  }
}
