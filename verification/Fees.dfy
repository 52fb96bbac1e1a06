/**
 Integer amounts that a payer approves and sends: `CalculateOnchainApprovalAmount` and the bridge
 fee margin of internal/usecases/payment_usecase.go. Amounts are unbounded integers and division
 is Euclidean, as with big.Int.
 */
module Fees {
  import opened Wrappers
  import opened Numerals

  const BRIDGE_SAFETY_BPS: nat := 12000
  const BPS: nat := 10000
  const MIN_BUFFER: nat := 1000

  /** What the gateway contract answers to each call that the calculation tries in turn. */
  datatype Gateway = Gateway(
    paymentCost: Option<int>,
    reachable: bool,
    totalAmount: Option<int>,
    fixedFee: Option<nat>,
    feeBps: Option<nat>)

  function Min(a: int, b: int): int { if a < b then a else b }

  function Max(a: int, b: int): int { if a < b then b else a }

  /** What the contract will take: the amount and a fee that is capped. */
  function OnchainTotal(amount: int, bps: nat, cap: nat): int { amount + Min(amount * bps / BPS, cap) }

  function Fallback(amount: int, charged: int, bps: nat, cap: nat): int {
    var base := Max(OnchainTotal(amount, bps, cap), charged);
    base + Max(base / 100, MIN_BUFFER)
  }

  function Charged(amount: int, totalCharged: Option<int>): int {
    if totalCharged.Some? then totalCharged.value else amount
  }

  /**
   `CalculateOnchainApprovalAmount`; None is an error. An amount of None is a missing payment, a missing
   gateway address or a text that is no number; the gateway is reachable when chain, URL, client and ABI resolve.
   */
  method ApprovalAmount(amount: Option<int>, totalCharged: Option<int>, g: Gateway) returns (r: Option<int>)
    ensures amount.None? ==> r.None?
    ensures r.Some? ==> r.value >= Charged(amount.value, totalCharged)
    ensures r.Some? ==> r.value >= if totalCharged.Some? then totalCharged.value else amount.value
    ensures amount.Some? && g.paymentCost.Some? ==> r == Some(Max(g.paymentCost.value, Charged(amount.value, totalCharged)))
    ensures amount.Some? && g.paymentCost.None? && g.reachable && g.totalAmount.Some? ==>
              r == Some(Max(g.totalAmount.value, Charged(amount.value, totalCharged)))
    ensures amount.Some? && g.paymentCost.None? && !g.reachable ==> r.None?
    ensures amount.Some? && g.paymentCost.None? && g.reachable && g.totalAmount.None? ==>
              if g.fixedFee.None? || g.feeBps.None? then r.None?
              else r == Some(Fallback(amount.value, Charged(amount.value, totalCharged), g.feeBps.value, g.fixedFee.value))
  {
    if amount.None? {
      return None;
    }
    var charged := amount.value;
    if totalCharged.Some? {
      charged := totalCharged.value;
    }
    if g.paymentCost.Some? {
      return if g.paymentCost.value < charged then Some(charged) else g.paymentCost;
    }
    if !g.reachable {
      return None;
    }
    if g.totalAmount.Some? {
      return if g.totalAmount.value < charged then Some(charged) else g.totalAmount;
    }
    if g.fixedFee.None? || g.feeBps.None? {
      return None;
    }
    var platformFee := amount.value * g.feeBps.value / BPS;
    if platformFee > g.fixedFee.value {
      platformFee := g.fixedFee.value;
    }
    var total := amount.value + platformFee;
    if total < charged {
      total := charged;
    }
    var buffer := total / 100;
    if buffer < MIN_BUFFER {
      buffer := MIN_BUFFER;
    }
    return Some(total + buffer);
  }

  /** The fallback leaves at least one per cent and 1000 units above both the contract's total and the charge. */
  lemma FallbackCovers(amount: int, charged: int, bps: nat, cap: nat)
    ensures var total := OnchainTotal(amount, bps, cap);
            var approved := Fallback(amount, charged, bps, cap);
            && approved >= total + Max(total / 100, MIN_BUFFER)
            && approved >= charged + Max(charged / 100, MIN_BUFFER)
            && (amount >= 0 ==> approved >= amount + MIN_BUFFER)
  {
    assert amount >= 0 ==> amount * bps >= 0 by {
      if amount >= 0 {
        MulMono(0, amount, bps, bps);
      }
    }
  }

  lemma FeeGrows(a: int, b: int, bps: nat)
    requires a <= b
    ensures a * bps / BPS <= b * bps / BPS
  {
    assert a * bps <= b * bps;
  }

  /** A larger amount never lowers the approval, with the charge fixed or following the amount. */
  lemma FallbackGrows(a: int, b: int, chargedA: int, chargedB: int, bps: nat, cap: nat)
    requires a <= b && chargedA <= chargedB
    ensures Fallback(a, chargedA, bps, cap) <= Fallback(b, chargedB, bps, cap)
  {
    FeeGrows(a, b, bps);
  }

  /** The native value sent with a bridged payment. */
  method BridgeValue(fee: nat) returns (value: nat)
    ensures value == fee * BRIDGE_SAFETY_BPS / BPS
    ensures fee <= value && 5 * value <= 6 * fee < 5 * (value + 1)
  {
    value := fee * BRIDGE_SAFETY_BPS / BPS;
    if value < fee {
      value := fee;
    }
  }

  /** The fallback in terms of its inputs: the fee is the rate's share, at most the cap; the buffer is one per cent, at least 1000. */
  lemma FallbackIs(amount: int, charged: int, bps: nat, cap: nat)
    ensures var fee := OnchainTotal(amount, bps, cap) - amount;
            var base := if amount + fee < charged then charged else amount + fee;
            && fee <= cap && fee <= amount * bps / 10000 && (fee == cap || fee == amount * bps / 10000)
            && (base >= 100000 ==> Fallback(amount, charged, bps, cap) == base + base / 100)
            && (base < 100000 ==> Fallback(amount, charged, bps, cap) == base + 1000)
  {
  }
}
