/**
 The cross-chain invoice quote of internal/usecases/create_payment_usecase.go: the
 invoice is turned into a bridge-token amount on the destination chain, and that into
 an amount of the selected token on the source chain.
 */
module InvoiceQuote {
  import opened Numerals
  import opened QuoteSolver

  /** One leg of the conversion: the token is already the right one, or it is swapped; a preview answers per target. */
  datatype Leg = Direct | Swap(engine: Oracle, preview: nat -> Preview)

  datatype Result = Quote(amount: nat) | Refused

  /** What a leg asks for so that it yields `target`. */
  function RequiredFor(leg: Leg, target: nat): Result {
    match leg
    case Direct => Quote(target)
    case Swap(engine, preview) =>
      match Solve(engine, target, preview(target))
      case Solved(amount, _, _) => Quote(amount)
      case _ => Refused
  }

  /**
   The two inversions chained. `bridgeOnSource` is whether the bridge token is active on
   the source chain; it matters only when the selected token is not the bridge token.
   */
  function SourceAmount(dest: Leg, source: Leg, bridgeOnSource: bool, invoice: nat): Result {
    match RequiredFor(dest, invoice)
    case Refused => Refused
    case Quote(bridge) =>
      if source.Swap? && !bridgeOnSource then Refused else RequiredFor(source, bridge)
  }

  /** Paying `amount` into a leg yields at least `target`. */
  predicate Yields(leg: Leg, amount: nat, target: nat) {
    match leg
    case Direct => amount >= target
    case Swap(engine, _) => amount > 0 && Suffices(engine, target, amount)
  }

  /** More input never stops a leg from yielding. */
  ghost predicate LegMonotone(leg: Leg) {
    forall x: nat, y: nat, t: nat :: x <= y && Yields(leg, x, t) ==> Yields(leg, y, t)
  }

  /** The engine's own inverse answers are honest; a search needs no such promise. */
  ghost predicate HonestPreview(leg: Leg, target: nat) {
    leg.Swap? && target > 0 && leg.preview(target).Preview? && leg.preview(target).amount > 0 ==>
      Suffices(leg.engine, target, leg.preview(target).amount)
  }

  lemma RequiredYields(leg: Leg, target: nat)
    requires HonestPreview(leg, target)
    ensures RequiredFor(leg, target).Quote? ==> Yields(leg, RequiredFor(leg, target).amount, target)
  {
    if leg.Swap? && target > 0 {
      SearchSound(leg.engine, target);
    }
  }

  /** A 1:1 bridge moves an amount between tokens of `from` and `to` decimals. */
  function Bridged(amount: nat, from: nat, to: nat): nat {
    amount * Pow(10, to) / Pow(10, from)
  }

  /** What a leg delivers for an amount paid into it. */
  function Delivered(leg: Leg, amount: nat): nat {
    match leg
    case Direct => amount
    case Swap(engine, _) => if amount == 0 then 0 else Out(engine(amount))
  }

  lemma YieldsIsDelivered(leg: Leg, amount: nat, target: nat)
    requires Yields(leg, amount, target)
    ensures Delivered(leg, amount) >= target
  {
  }

  /** The amount is pushed through the source leg, over the bridge and through the destination leg, and covers the invoice. */
  predicate Covers(dest: Leg, source: Leg, from: nat, to: nat, amount: nat, invoice: nat) {
    Yields(dest, Bridged(Delivered(source, amount), from, to), invoice)
  }

  lemma BridgedGrows(amount: nat, from: nat, to: nat)
    requires from <= to
    ensures Bridged(amount, from, to) >= amount
  {
    PowAdd(10, from, to - from);
    var p, k := Pow(10, from), Pow(10, to - from);
    assert p <= p * k by { MulMono(p, p, 1, k); }
    assert amount * p <= amount * (p * k) by { MulMono(amount, amount, p, p * k); }
    QuotientAtLeast(amount, p, amount * (p * k));
  }

  lemma QuotientAtLeast(a: nat, p: nat, n: nat)
    requires p > 0 && a * p <= n
    ensures n / p >= a
  {
    var d, m := n / p, n % p;
    assert n == d * p + m by { DivMod(n, p); }
    if d < a {
      assert (d + 1) * p <= a * p by { MulMono(d + 1, a, p, p); }
    }
  }

  /**
   Every quoted amount covers the invoice, in the direct branches and the searched ones,
   when the bridge token has no more decimals on the source chain than on the destination.
   */
  lemma QuoteCoversInvoice(dest: Leg, source: Leg, bridgeOnSource: bool, from: nat, to: nat, invoice: nat)
    requires LegMonotone(dest)
    requires HonestPreview(dest, invoice) && forall t: nat :: HonestPreview(source, t)
    requires from <= to
    requires SourceAmount(dest, source, bridgeOnSource, invoice).Quote?
    ensures Covers(dest, source, from, to, SourceAmount(dest, source, bridgeOnSource, invoice).amount, invoice)
  {
    RequiredYields(dest, invoice);
    var bridge := RequiredFor(dest, invoice).amount;
    RequiredYields(source, bridge);
    var amount := SourceAmount(dest, source, bridgeOnSource, invoice).amount;
    YieldsIsDelivered(source, amount, bridge);
    BridgedGrows(Delivered(source, amount), from, to);
    assert Yields(dest, bridge, invoice);
  }

  /**
   The atomic bridge amount is carried across without rescaling. With more decimals on the
   source chain the promise breaks: both legs direct, an invoice of 1 is quoted 1 and delivers 0.
   */
  lemma MoreSourceDecimalsUndercharge(from: nat, to: nat)
    requires from > to
    ensures SourceAmount(Direct, Direct, true, 1) == Quote(1)
    ensures LegMonotone(Direct) && !Covers(Direct, Direct, from, to, 1, 1)
  {
    PowAdd(10, to, from - to);
    var p, k := Pow(10, to), Pow(10, from - to);
    assert k == 10 * Pow(10, from - to - 1);
    assert p * 10 <= p * k by { MulMono(p, p, 10, k); }
    SmallQuotient(p, p * k);
  }

  /** The exact condition on the two decimals under which every quote covers its invoice. */
  lemma CoversForEveryLegIff(from: nat, to: nat)
    ensures from <= to <==>
            forall dest: Leg, source: Leg, ok: bool, invoice: nat ::
              LegMonotone(dest) && HonestPreview(dest, invoice) && (forall t: nat :: HonestPreview(source, t))
              && SourceAmount(dest, source, ok, invoice).Quote?
              ==> Covers(dest, source, from, to, SourceAmount(dest, source, ok, invoice).amount, invoice)
  {
    if from <= to {
      forall dest: Leg, source: Leg, ok: bool, invoice: nat
        | LegMonotone(dest) && HonestPreview(dest, invoice) && (forall t: nat :: HonestPreview(source, t))
          && SourceAmount(dest, source, ok, invoice).Quote?
        ensures Covers(dest, source, from, to, SourceAmount(dest, source, ok, invoice).amount, invoice)
      {
        QuoteCoversInvoice(dest, source, ok, from, to, invoice);
      }
    } else {
      MoreSourceDecimalsUndercharge(from, to);
      assert forall t: nat :: HonestPreview(Direct, t);
      assert SourceAmount(Direct, Direct, true, 1).Quote?;
    }
  }

  /** What a leg asks for its target, and when it asks for anything. */
  lemma LegAsks(leg: Leg, target: nat)
    ensures leg.Direct? ==> RequiredFor(leg, target) == Quote(target)
    ensures leg.Swap? && target > 0 && leg.preview(target).Preview? && leg.preview(target).amount > 0 ==>
              RequiredFor(leg, target) == Quote(leg.preview(target).amount)
    ensures leg.Swap? && target > 0 && !(leg.preview(target).Preview? && leg.preview(target).amount > 0) ==>
              RequiredFor(leg, target) == match Search(leg.engine, target) case Solved(amount, _, _) => Quote(amount) case _ => Refused
    ensures leg.Swap? && target == 0 ==> RequiredFor(leg, target) == Refused
  {
  }

  /** The invoice is quoted exactly when both legs answer and, for a swapped source leg, the bridge token is active there. */
  lemma QuotedIff(dest: Leg, source: Leg, bridgeOnSource: bool, invoice: nat, amount: nat)
    ensures SourceAmount(dest, source, bridgeOnSource, invoice) == Quote(amount) <==>
            exists bridge: nat ::
              RequiredFor(dest, invoice) == Quote(bridge) && (source.Direct? || bridgeOnSource) && RequiredFor(source, bridge) == Quote(amount)
  {
  }

  /**
   With monotone engines that never err and give no previews the quote exists exactly when the bridge
   amount and then the source amount lie within the reach of the two searches.
   */
  lemma QuotedWithinReach(dest: Oracle, source: Oracle, bridgeOnSource: bool, invoice: nat)
    requires Monotone(dest) && ErrorFree(dest) && Monotone(source) && ErrorFree(source)
    ensures var none: nat -> Preview := (t: nat) => NoPreview;
            var bridge := RequiredFor(Swap(dest, none), invoice);
            SourceAmount(Swap(dest, none), Swap(source, none), bridgeOnSource, invoice).Quote? <==>
            && bridgeOnSource && invoice > 0
            && (exists x: nat :: 0 < x <= Reach(dest, invoice) && Suffices(dest, invoice, x))
            && bridge.Quote? && bridge.amount > 0
            && (exists x: nat :: 0 < x <= Reach(source, bridge.amount) && Suffices(source, bridge.amount, x))
  {
    if invoice > 0 {
      GivesUpIff(dest, invoice);
      SearchSound(dest, invoice);
      if Search(dest, invoice).Solved? {
        GivesUpIff(source, Search(dest, invoice).amount);
      }
    }
  }

  /** The largest input a search tries. */
  function Reach(q: Oracle, target: nat): nat {
    var a := Out(q(target));
    (if a == 0 || a == target then target else 2 * CeilDiv(target * target, a)) * Pow(2, 31)
  }
}
