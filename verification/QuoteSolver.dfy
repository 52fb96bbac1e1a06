/**
 The inverse quote search of internal/usecases/create_payment_usecase.go:
 given a quote engine that maps an input amount to an output amount, find an
 input whose output reaches a target. An anchor probe at the target itself picks
 the interval, the upper end is doubled until it suffices, and a bounded
 bisection narrows the rest.
 */
module QuoteSolver {
  import opened Numerals

  /** One call of the quote engine, as `quoteForInput` classifies it. */
  datatype Probe =
    | Quoted(out: nat, route: string, source: string)
    | ZeroLike   // a 400 error that counts as zero output
    | ProbeError // any other error, or an unparsable amount

  /** The engine, deterministic during one request. */
  type Oracle = nat -> Probe

  /** The answer of the engine's own inverse preview, when it has one and is asked. */
  datatype Preview = NoPreview | Preview(amount: int, route: string, source: string)

  datatype Solution =
    | Solved(amount: nat, route: string, source: string)
    | BadTarget
    | QuoteFailed
    | NoUpperBound

  datatype Bound = Found(amount: nat) | Exhausted | Broken

  datatype Interval = Interval(low: nat, high: nat)

  const MAX_DOUBLINGS: nat := 32
  const MAX_BISECTIONS: nat := 64

  function Out(p: Probe): nat {
    if p.Quoted? then p.out else 0
  }

  /** Input `x` is quoted at `target` or more. */
  predicate Suffices(q: Oracle, target: nat, x: nat) {
    q(x).Quoted? && q(x).out >= target
  }

  /** More input never buys less output; inputs on which the engine errs are exempt. */
  ghost predicate Monotone(q: Oracle) {
    forall x: nat, y: nat :: 0 < x <= y && !q(x).ProbeError? && !q(y).ProbeError? ==> Out(q(x)) <= Out(q(y))
  }

  /** The price never improves with size: Out(x) / x does not increase. */
  ghost predicate DiminishingReturns(q: Oracle) {
    forall x: nat, y: nat :: 0 < x <= y && !q(x).ProbeError? && !q(y).ProbeError? ==> Out(q(y)) * x <= Out(q(x)) * y
  }

  ghost predicate ErrorFree(q: Oracle) {
    forall x: nat :: x > 0 ==> !q(x).ProbeError?
  }

  /** No smaller input reaches the target. */
  ghost predicate LeastSufficient(q: Oracle, target: nat, r: nat) {
    && r > 0
    && Suffices(q, target, r)
    && forall x: nat :: 0 < x < r ==> !Suffices(q, target, x)
  }

  /** The quotient rounded up: the least c with a <= b * c. */
  function CeilDiv(a: nat, b: nat): (c: nat)
    requires b > 0
    ensures a > 0 ==> c > 0
    ensures a <= b * c && (c > 0 ==> b * (c - 1) < a)
  {
    CeilBounds(a, b);
    a / b + if a % b > 0 then 1 else 0
  }

  lemma CeilBounds(a: nat, b: nat)
    requires b > 0
    ensures var c := a / b + if a % b > 0 then 1 else 0; a <= b * c && (a > 0 ==> c > 0) && (c > 0 ==> b * (c - 1) < a)
  {
    var d, m := a / b, a % b;
    assert a == d * b + m by { DivMod(a, b); }
    assert b * (d + 1) == d * b + b && b * d == d * b && b * (d - 1) == d * b - b;
  }

  lemma CeilDivLeast(a: nat, b: nat, x: nat)
    requires b > 0 && a <= b * x
    ensures CeilDiv(a, b) <= x
  {
    var d, m := a / b, a % b;
    assert a == d * b + m;
    if x <= d && m > 0 {
      assert x * b <= d * b by { MulMono(x, d, b, b); }
    }
    if x < d {
      assert (x + 1) * b <= d * b by { MulMono(x + 1, d, b, b); }
    }
  }

  /** The interval the anchor probe chooses. */
  function StartInterval(q: Oracle, target: nat): (i: Interval)
    requires target > 0
    ensures 0 < i.low <= i.high
  {
    var anchor := Out(q(target));
    if anchor == 0 then Interval(1, target)
    else if anchor == target then Interval(target, target)
    else
      var guess := CeilDiv(target * target, anchor);
      Interval(if guess / 2 == 0 then 1 else guess / 2, guess * 2)
  }

  function FindUpper(q: Oracle, target: nat, high: nat, tries: nat): (b: Bound)
    decreases tries, high
  {
    if tries == 0 then Exhausted
    else if q(high).ProbeError? then Broken
    else if Out(q(high)) >= target then Found(high)
    else FindUpper(q, target, 2 * high, tries - 1)
  }

  function Bisect(q: Oracle, target: nat, low: nat, high: nat, tries: nat): (b: Bound)
    decreases tries, low, high
  {
    if tries == 0 || low >= high then Found(high)
    else
      var mid := (low + high) / 2;
      if q(mid).ProbeError? then Broken
      else if Out(q(mid)) >= target then Bisect(q, target, low, mid, tries - 1)
      else Bisect(q, target, mid + 1, high, tries - 1)
  }

  function Upper(q: Oracle, target: nat): Bound
    requires target > 0
  {
    FindUpper(q, target, StartInterval(q, target).high, MAX_DOUBLINGS)
  }

  /** The search: where the interval starts, the first sufficient doubling, the bisection. */
  function Search(q: Oracle, target: nat): Solution
    requires target > 0
  {
    match Upper(q, target)
    case Broken => QuoteFailed
    case Exhausted => NoUpperBound
    case Found(high) =>
      match Bisect(q, target, StartInterval(q, target).low, high, MAX_BISECTIONS)
      case Found(r) => Solved(r, RouteAt(q, r), SourceAt(q, r))
      case _ => QuoteFailed
  }

  function RouteAt(q: Oracle, x: nat): string { if q(x).Quoted? then q(x).route else "" }

  function SourceAt(q: Oracle, x: nat): string { if q(x).Quoted? then q(x).source else "" }

  /** The whole operation: an inverse preview with a positive amount is trusted as it is. */
  function Solve(q: Oracle, target: int, preview: Preview): Solution {
    if target <= 0 then BadTarget
    else if preview.Preview? && preview.amount > 0 then Solved(preview.amount, preview.route, preview.source)
    else Search(q, target)
  }

  /**
   The loops of `solveRequiredInputForTargetOutput`, with the best route and source
   carried beside `high`. It answers what `Solve` says with at most 1 + 32 + 64 probes.
   */
  method SolveRequiredInput(q: Oracle, target: int, preview: Preview) returns (r: Solution, probes: nat)
    ensures r == Solve(q, target, preview)
    ensures probes <= 97
  {
    probes := 0;
    if target <= 0 {
      return BadTarget, probes;
    }
    if preview.Preview? && preview.amount > 0 {
      return Solved(preview.amount, preview.route, preview.source), probes;
    }
    var low: nat, high: nat := 1, target;
    var bestRoute, bestSource := "", "";
    var anchor := q(target);
    probes := probes + 1;
    if anchor.Quoted? && anchor.out > 0 {
      bestRoute, bestSource := anchor.route, anchor.source;
      if anchor.out == target {
        return Solved(target, bestRoute, bestSource), probes;
      }
      var guess := CeilDiv(target * target, anchor.out);
      low := guess / 2;
      if low == 0 {
        low := 1;
      }
      high := guess * 2;
    }
    assert Interval(low, high) == StartInterval(q, target);
    var foundUpperBound := false;
    var i := 0;
    while i < MAX_DOUBLINGS && !foundUpperBound
      invariant 0 <= i <= MAX_DOUBLINGS
      invariant probes <= 1 + i
      invariant !foundUpperBound ==> Upper(q, target) == FindUpper(q, target, high, MAX_DOUBLINGS - i)
      invariant foundUpperBound ==> Upper(q, target) == Found(high) && Suffices(q, target, high)
      invariant foundUpperBound ==> bestRoute == RouteAt(q, high) && bestSource == SourceAt(q, high)
    {
      var probe := q(high);
      probes := probes + 1;
      if probe.ProbeError? {
        return QuoteFailed, probes;
      }
      if Out(probe) >= target {
        bestRoute, bestSource := probe.route, probe.source;
        foundUpperBound := true;
      } else {
        high := 2 * high;
      }
      i := i + 1;
    }
    if !foundUpperBound {
      return NoUpperBound, probes;
    }
    var more: nat;
    r, more := Narrow(q, target, low, high, bestRoute, bestSource);
    probes := probes + more;
  }

  /** The bisection loop, from the first sufficient upper end. */
  method Narrow(q: Oracle, target: nat, start: nat, end: nat, route: string, source: string)
    returns (r: Solution, probes: nat)
    requires target > 0 && route == RouteAt(q, end) && source == SourceAt(q, end)
    ensures probes <= MAX_BISECTIONS
    ensures r == match Bisect(q, target, start, end, MAX_BISECTIONS)
                 case Found(x) => Solved(x, RouteAt(q, x), SourceAt(q, x))
                 case _ => QuoteFailed
  {
    var low, high, bestRoute, bestSource := start, end, route, source;
    probes := 0;
    var i := 0;
    while i < MAX_BISECTIONS && low < high
      invariant 0 <= i <= MAX_BISECTIONS && probes <= i
      invariant Bisect(q, target, low, high, MAX_BISECTIONS - i) == Bisect(q, target, start, end, MAX_BISECTIONS)
      invariant bestRoute == RouteAt(q, high) && bestSource == SourceAt(q, high)
    {
      var mid := (low + high) / 2;
      var probe := q(mid);
      probes := probes + 1;
      if probe.ProbeError? {
        return QuoteFailed, probes;
      }
      if Out(probe) >= target {
        high := mid;
        bestRoute, bestSource := probe.route, probe.source;
      } else {
        low := mid + 1;
      }
      i := i + 1;
    }
    r := Solved(high, bestRoute, bestSource);
  }

  // ---------------------------------------------------------------- soundness

  lemma {:induction false} FindUpperSound(q: Oracle, target: nat, high: nat, tries: nat)
    requires target > 0 && high > 0
    ensures FindUpper(q, target, high, tries).Found? ==>
              var u := FindUpper(q, target, high, tries).amount;
              Suffices(q, target, u) && u >= high
    decreases tries
  {
    if tries != 0 {
      FindUpperSound(q, target, 2 * high, tries - 1);
    }
  }

  lemma {:induction false} BisectSound(q: Oracle, target: nat, low: nat, high: nat, tries: nat)
    requires 0 < low <= high && Suffices(q, target, high) && target > 0
    ensures Bisect(q, target, low, high, tries).Found? ==>
              var r := Bisect(q, target, low, high, tries).amount;
              low <= r <= high && Suffices(q, target, r)
    decreases tries
  {
    if tries != 0 && low < high {
      var mid := (low + high) / 2;
      if Suffices(q, target, mid) {
        BisectSound(q, target, low, mid, tries - 1);
      } else {
        BisectSound(q, target, mid + 1, high, tries - 1);
      }
    }
  }

  /** Whatever the engine, an answer is quoted at the target or more, with that quote's route and source. */
  lemma SearchSound(q: Oracle, target: nat)
    requires target > 0
    ensures Search(q, target).Solved? ==>
              var s := Search(q, target);
              s.amount > 0 && q(s.amount).Quoted? && q(s.amount).out >= target
              && q(s.amount).route == s.route && q(s.amount).source == s.source
  {
    var start := StartInterval(q, target);
    FindUpperSound(q, target, start.high, MAX_DOUBLINGS);
    if Upper(q, target).Found? {
      BisectSound(q, target, start.low, Upper(q, target).amount, MAX_BISECTIONS);
    }
  }

  // ------------------------------------------------------------- completeness

  lemma {:induction false} FindUpperReach(q: Oracle, target: nat, high: nat, tries: nat)
    requires target > 0 && high > 0 && tries > 0 && Monotone(q) && ErrorFree(q)
    ensures FindUpper(q, target, high, tries) == Exhausted
            <==> forall x: nat :: 0 < x <= high * Pow(2, tries - 1) ==> !Suffices(q, target, x)
    ensures !FindUpper(q, target, high, tries).Broken?
    decreases tries
  {
    var last := high * Pow(2, tries - 1);
    assert last >= high by { MulMono(high, high, 1, Pow(2, tries - 1)); }
    if Out(q(high)) >= target {
      assert Suffices(q, target, high);
    } else if tries == 1 {
      assert last == high;
      assert FindUpper(q, target, 2 * high, 0) == Exhausted;
    } else {
      FindUpperReach(q, target, 2 * high, tries - 1);
      assert 2 * high * Pow(2, tries - 2) == last by {
        assert Pow(2, tries - 1) == 2 * Pow(2, tries - 2);
        assert high * (2 * Pow(2, tries - 2)) == 2 * high * Pow(2, tries - 2);
      }
    }
  }

  lemma {:induction false} BisectCompletes(q: Oracle, target: nat, low: nat, high: nat, tries: nat)
    requires 0 < low && ErrorFree(q)
    ensures Bisect(q, target, low, high, tries).Found?
    decreases tries
  {
    if tries != 0 && low < high {
      var mid := (low + high) / 2;
      BisectCompletes(q, target, low, mid, tries - 1);
      BisectCompletes(q, target, mid + 1, high, tries - 1);
    }
  }

  /**
   For a monotone engine without errors the search gives up exactly when no input
   up to 2^31 times the first upper bound suffices, and otherwise answers.
   */
  lemma SearchComplete(q: Oracle, target: nat)
    requires target > 0 && Monotone(q) && ErrorFree(q)
    ensures Search(q, target).Solved? || Search(q, target).NoUpperBound?
    ensures Search(q, target).NoUpperBound? <==>
            forall x: nat :: 0 < x <= StartInterval(q, target).high * Pow(2, 31) ==> !Suffices(q, target, x)
  {
    var start := StartInterval(q, target);
    FindUpperReach(q, target, start.high, MAX_DOUBLINGS);
    FindUpperSound(q, target, start.high, MAX_DOUBLINGS);
    if Upper(q, target).Found? {
      BisectCompletes(q, target, start.low, Upper(q, target).amount, MAX_BISECTIONS);
    }
  }

  // --------------------------------------------------- convergence, minimality

  lemma Halved(excess: int, tries: nat, shorter: int, len: int)
    requires tries > 0 && excess * Pow(2, tries - 1) <= shorter && 2 * shorter <= len
    ensures excess * Pow(2, tries) <= len
  {
    DoubleScale(excess, Pow(2, tries - 1), shorter, len);
  }

  lemma DoubleScale(excess: int, p: nat, shorter: int, len: int)
    requires excess * p <= shorter && 2 * shorter <= len
    ensures excess * (2 * p) <= len
  {
    assert excess * (2 * p) == 2 * (excess * p);
  }

  lemma NoExcess(excess: int, p: nat)
    requires excess <= 0
    ensures excess * p <= 0
  {
  }

  /** Each bisection halves the interval and never steps over a sufficient input. */
  lemma {:induction false} BisectClose(q: Oracle, target: nat, low: nat, high: nat, tries: nat, x: nat)
    requires target > 0 && Monotone(q) && 0 < low <= high && Suffices(q, target, high)
    requires low <= x && Suffices(q, target, x)
    ensures Bisect(q, target, low, high, tries).Found? ==>
              (Bisect(q, target, low, high, tries).amount - x) * Pow(2, tries) <= high - low
    decreases tries
  {
    var b := Bisect(q, target, low, high, tries);
    if tries != 0 && low < high && b.Found? {
      var mid := (low + high) / 2;
      if Suffices(q, target, mid) {
        BisectClose(q, target, low, mid, tries - 1, x);
        Halved(b.amount - x, tries, mid - low, high - low);
      } else {
        assert mid < x by { ShortBelow(q, target, mid); }
        BisectClose(q, target, mid + 1, high, tries - 1, x);
        Halved(b.amount - x, tries, high - (mid + 1), high - low);
      }
    } else if tries != 0 && low == high {
      NoExcess(high - x, Pow(2, tries));
    }
  }

  /**
   For a monotone engine the answer exceeds any sufficient input at or above the starting
   low end by at most the interval's length divided by 2^64.
   */
  lemma SearchClose(q: Oracle, target: nat, x: nat)
    requires target > 0 && Monotone(q) && Search(q, target).Solved?
    requires StartInterval(q, target).low <= x && Suffices(q, target, x)
    ensures Upper(q, target).Found? && StartInterval(q, target).low <= Upper(q, target).amount
    ensures (Search(q, target).amount - x) * Pow(2, 64)
            <= Upper(q, target).amount - StartInterval(q, target).low
  {
    var start := StartInterval(q, target);
    FindUpperSound(q, target, start.high, MAX_DOUBLINGS);
    BisectClose(q, target, start.low, Upper(q, target).amount, MAX_BISECTIONS, x);
  }

  /** The bisections close the interval: it is shorter than 2^64 when they start. */
  ghost predicate Closes(q: Oracle, target: nat)
    requires target > 0
  {
    Upper(q, target).Found? ==>
      Upper(q, target).amount - StartInterval(q, target).low < Pow(2, 64)
  }

  /** A closed bisection ends at its low end or just above a probe that fell short. */
  lemma {:induction false} BisectEdge(q: Oracle, target: nat, low: nat, high: nat, tries: nat)
    requires low <= high && high - low < Pow(2, tries)
    ensures Bisect(q, target, low, high, tries).Found? ==>
              var r := Bisect(q, target, low, high, tries).amount;
              r == low || (r > low && !q(r - 1).ProbeError? && Out(q(r - 1)) < target)
    decreases tries
  {
    if tries != 0 && low < high {
      var mid := (low + high) / 2;
      BisectEdge(q, target, low, mid, tries - 1);
      BisectEdge(q, target, mid + 1, high, tries - 1);
    }
  }

  /**
   Exactly when the answer is the globally least sufficient input. The low end the anchor
   chooses is never probed, so everything hangs on the input just below it.
   */
  lemma SearchLeastIff(q: Oracle, target: nat)
    requires target > 0 && Monotone(q) && Search(q, target).Solved? && Closes(q, target)
    requires StartInterval(q, target).low > 1 ==> !q(StartInterval(q, target).low - 1).ProbeError?
    ensures LeastSufficient(q, target, Search(q, target).amount) <==>
            StartInterval(q, target).low == 1 || !Suffices(q, target, StartInterval(q, target).low - 1)
  {
    var low, r := StartInterval(q, target).low, Search(q, target).amount;
    SearchSound(q, target);
    SearchEdge(q, target);
    if r > low {
      AnswerAboveLowIsLeast(q, target);
    } else if low > 1 && !Suffices(q, target, low - 1) {
      ShortBelow(q, target, low - 1);
    }
  }

  /** An answer above the starting low end is always the globally least one. */
  lemma AnswerAboveLowIsLeast(q: Oracle, target: nat)
    requires target > 0 && Monotone(q) && Search(q, target).Solved? && Closes(q, target)
    requires Search(q, target).amount > StartInterval(q, target).low
    ensures LeastSufficient(q, target, Search(q, target).amount)
  {
    SearchSound(q, target);
    SearchEdge(q, target);
    ShortBelow(q, target, Search(q, target).amount - 1);
  }

  lemma ShortBelow(q: Oracle, target: nat, y: nat)
    requires target > 0 && Monotone(q) && !q(y).ProbeError? && Out(q(y)) < target
    ensures forall x: nat :: 0 < x <= y ==> !Suffices(q, target, x)
  {
  }

  /**
   With diminishing returns and an anchor that errs, gives nothing or falls short, the
   starting low end is safe and the answer is always the globally least one.
   */
  lemma SearchLeastWithDiminishingReturns(q: Oracle, target: nat)
    requires target > 0 && Monotone(q) && DiminishingReturns(q)
    requires Out(q(target)) < target
    requires Search(q, target).Solved? && Closes(q, target)
    ensures LeastSufficient(q, target, Search(q, target).amount)
  {
    var low := StartInterval(q, target).low;
    var r := Search(q, target).amount;
    SearchSound(q, target);
    SearchEdge(q, target);
    if r == low && low > 1 {
      forall x: nat | 0 < x < low ensures !Suffices(q, target, x) {
        LowIsSafe(q, target, x);
      }
    } else if r > 1 {
      ShortBelow(q, target, r - 1);
    }
  }

  lemma LowIsSafe(q: Oracle, target: nat, x: nat)
    requires target > 0 && Monotone(q) && DiminishingReturns(q) && Out(q(target)) < target
    requires 0 < x < StartInterval(q, target).low
    ensures !Suffices(q, target, x)
  {
    if Suffices(q, target, x) {
      var anchor := Out(q(target));
      assert anchor > 0 && !q(target).ProbeError? && target < x;
      assert Out(q(x)) * target <= anchor * x;
      assert target * target <= Out(q(x)) * target by { MulMono(target, Out(q(x)), target, target); }
      CeilDivLeast(target * target, anchor, x);
    }
  }

  lemma SearchEdge(q: Oracle, target: nat)
    requires target > 0 && Search(q, target).Solved? && Closes(q, target)
    ensures var low, r := StartInterval(q, target).low, Search(q, target).amount;
            r == low || (r > low && !q(r - 1).ProbeError? && Out(q(r - 1)) < target)
  {
    var start := StartInterval(q, target);
    FindUpperSound(q, target, start.high, MAX_DOUBLINGS);
    BisectEdge(q, target, start.low, Upper(q, target).amount, MAX_BISECTIONS);
  }

  /** The engine that gives 11 for anything: monotone, yet for target 10 the search answers 5 where 1 suffices. */
  lemma SearchCanMissTheLeast()
    ensures var q: Oracle := _ => Quoted(11, "", "");
            Monotone(q) && ErrorFree(q) && Closes(q, 10)
            && Search(q, 10).Solved? && Search(q, 10).amount == 5 && Suffices(q, 10, 1)
  {
    var q: Oracle := _ => Quoted(11, "", "");
    assert StartInterval(q, 10) == Interval(5, 20);
    assert Upper(q, 10) == Found(20);
    assert Bisect(q, 10, 5, 5, 60) == Found(5);
    assert Bisect(q, 10, 5, 6, 61) == Found(5);
    assert Bisect(q, 10, 5, 8, 62) == Found(5);
    assert Bisect(q, 10, 5, 12, 63) == Found(5);
    assert Bisect(q, 10, 5, 20, 64) == Found(5);
    PowAdd(2, 5, MAX_BISECTIONS - 5);
  }

  // ------------------------------------------------- the search by its anchor alone

  /** The interval in terms of the anchor's output: where it starts and where the doubling starts. */
  lemma StartIs(q: Oracle, target: nat)
    requires target > 0
    ensures var a, i := Out(q(target)), StartInterval(q, target);
            && (a == 0 ==> i == Interval(1, target))
            && (a == target ==> i == Interval(target, target))
            && (a > 0 && a != target ==>
                  && (forall x: nat :: x > 0 ==> (x < i.low <==> a * (2 * x + 1) < target * target))
                  && i.high % 2 == 0 && target * target <= a * (i.high / 2) && a * (i.high / 2 - 1) < target * target)
  {
    var a, i := Out(q(target)), StartInterval(q, target);
    if a > 0 && a != target {
      var guess := CeilDiv(target * target, a);
      assert i.high / 2 == guess;
      forall x: nat | x > 0 ensures x < i.low <==> a * (2 * x + 1) < target * target {
        assert x < i.low <==> 2 * x + 1 < guess;
        BelowCeil(target * target, a, 2 * x + 1);
      }
    }
  }

  lemma BelowCeil(n: nat, a: nat, y: nat)
    requires a > 0
    ensures y < CeilDiv(n, a) <==> a * y < n
  {
    var c := CeilDiv(n, a);
    if y < c {
      assert a * y <= a * (c - 1) by { MulMono(a, a, y, c - 1); }
    } else {
      assert a * c <= a * y by { MulMono(a, a, c, y); }
    }
  }

  /**
   With an anchor output a that is neither zero nor the target, the answer of a closing search is the
   globally least input exactly when no input x with a (2x + 1) < target^2 suffices.
   */
  lemma LeastByAnchorIff(q: Oracle, target: nat)
    requires target > 0 && Monotone(q) && ErrorFree(q) && Search(q, target).Solved? && Closes(q, target)
    requires 0 < Out(q(target)) != target
    ensures LeastSufficient(q, target, Search(q, target).amount) <==>
            forall x: nat :: x > 0 && Out(q(target)) * (2 * x + 1) < target * target ==> !Suffices(q, target, x)
  {
    var low := StartInterval(q, target).low;
    SearchLeastIff(q, target);
    StartIs(q, target);
    if low > 1 && !Suffices(q, target, low - 1) {
      ShortBelow(q, target, low - 1);
    }
  }

  /** An anchor that gives exactly the target is the answer, with its own route and source. */
  lemma ExactAnchorIsTheAnswer(q: Oracle, target: nat)
    requires target > 0 && Out(q(target)) == target
    ensures Search(q, target) == Solved(target, q(target).route, q(target).source)
  {
    assert FindUpper(q, target, target, MAX_DOUBLINGS) == Found(target);
    assert Bisect(q, target, target, target, MAX_BISECTIONS) == Found(target);
  }

  /** An anchor that gives nothing leaves no input out: a closing search answers the least one. */
  lemma ZeroAnchorIsLeast(q: Oracle, target: nat)
    requires target > 0 && Monotone(q) && Search(q, target).Solved? && Closes(q, target) && Out(q(target)) == 0
    ensures LeastSufficient(q, target, Search(q, target).amount)
  {
    SearchLeastIff(q, target);
  }

  /** When the search of a monotone engine without errors gives up, in terms of its anchor alone. */
  lemma GivesUpIff(q: Oracle, target: nat)
    requires target > 0 && Monotone(q) && ErrorFree(q)
    ensures var a := Out(q(target));
            var first := if a == 0 || a == target then target else 2 * CeilDiv(target * target, a);
            Search(q, target).NoUpperBound? <==> forall x: nat :: 0 < x <= first * Pow(2, 31) ==> !Suffices(q, target, x)
    ensures Search(q, target).Solved? || Search(q, target).NoUpperBound?
  {
    SearchComplete(q, target);
  }

  lemma {:induction false} FindUpperWithin(q: Oracle, target: nat, high: nat, tries: nat)
    requires tries > 0 && FindUpper(q, target, high, tries).Found?
    ensures FindUpper(q, target, high, tries).amount <= high * Pow(2, tries - 1)
    decreases tries
  {
    var p := Pow(2, tries - 1);
    assert high <= high * p by { MulMono(high, high, 1, p); }
    if FindUpper(q, target, high, tries) != Found(high) {
      FindUpperWithin(q, target, 2 * high, tries - 1);
      Regroup(high, Pow(2, tries - 2));
    }
  }

  lemma Regroup(h: nat, p: nat)
    ensures (2 * h) * p == h * (2 * p)
  {
  }

  /** The search closes its interval whenever the guess is below 2^32, that is when target^2 < 2^32 a. */
  lemma ClosesWhenGuessIsSmall(q: Oracle, target: nat)
    requires target > 0 && Out(q(target)) > 0 && target * target <= Out(q(target)) * (Pow(2, 32) - 1) && target < Pow(2, 32)
    ensures Closes(q, target)
  {
    var a, start := Out(q(target)), StartInterval(q, target);
    if Upper(q, target).Found? {
      FindUpperWithin(q, target, start.high, MAX_DOUBLINGS);
      assert start.high <= 2 * (Pow(2, 32) - 1) by {
        if a != target {
          CeilDivLeast(target * target, a, Pow(2, 32) - 1);
        }
      }
      SmallerProduct(start.high, Pow(2, 32), Pow(2, 31), Upper(q, target).amount);
      PowAdd(2, 32, 31);
    }
  }

  lemma SmallerProduct(high: nat, m: nat, p: nat, u: nat)
    requires m > 0 && p > 0 && high <= 2 * (m - 1) && u <= high * p
    ensures u < 2 * (m * p)
  {
    assert high * p <= 2 * (m - 1) * p by { MulMono(high, 2 * (m - 1), p, p); }
    assert 2 * (m - 1) * p == 2 * (m * p) - 2 * p;
  }

  // -------------------------------------------------------------------- failing probes

  /** The probe at the i-th doubling falls short without an error. */
  predicate ShortAt(q: Oracle, target: nat, high: nat, i: nat) {
    !q(high * Pow(2, i)).ProbeError? && Out(q(high * Pow(2, i))) < target
  }

  /** The doubling stops at its first probe that errs or suffices, and only then. */
  lemma {:induction false} DoublingIs(q: Oracle, target: nat, high: nat, tries: nat) returns (i: nat)
    ensures i <= tries && forall j: nat :: j < i ==> ShortAt(q, target, high, j)
    ensures FindUpper(q, target, high, tries) ==
            if i == tries then Exhausted
            else if q(high * Pow(2, i)).ProbeError? then Broken else Found(high * Pow(2, i))
    ensures i < tries ==> !ShortAt(q, target, high, i)
    decreases tries
  {
    i := 0;
    assert high * Pow(2, 0) == high;
    if tries > 0 && !q(high).ProbeError? && Out(q(high)) < target {
      var k := DoublingIs(q, target, 2 * high, tries - 1);
      i := k + 1;
      forall j: nat | j < i ensures ShortAt(q, target, high, j) {
        if j > 0 {
          Regroup(high, Pow(2, j - 1));
          assert ShortAt(q, target, 2 * high, j - 1);
        }
      }
      Regroup(high, Pow(2, k));
    }
  }

  /** A bisection fails exactly when a probe of its own errs: at its middle, or in the half it goes on with. */
  lemma {:induction false} BisectFails(q: Oracle, target: nat, low: nat, high: nat, tries: nat)
    ensures tries > 0 && low < high && q((low + high) / 2).ProbeError? ==> Bisect(q, target, low, high, tries) == Broken
    ensures Bisect(q, target, low, high, tries) == Broken ==> exists x: nat :: low <= x < high && q(x).ProbeError?
    ensures Bisect(q, target, low, high, tries) != Exhausted
    decreases tries
  {
    if tries > 0 && low < high {
      var mid := (low + high) / 2;
      BisectFails(q, target, low, mid, tries - 1);
      BisectFails(q, target, mid + 1, high, tries - 1);
    }
  }

  /** A preview with a positive amount is the answer; otherwise the search decides; no target below one is tried. */
  lemma PreviewIsTrusted(q: Oracle, target: int, amount: int, route: string, source: string)
    ensures target > 0 && amount > 0 ==> Solve(q, target, Preview(amount, route, source)) == Solved(amount, route, source)
    ensures target > 0 && amount <= 0 ==> Solve(q, target, Preview(amount, route, source)) == Search(q, target)
    ensures target > 0 ==> Solve(q, target, NoPreview) == Search(q, target)
    ensures target <= 0 ==> Solve(q, target, Preview(amount, route, source)) == Solve(q, target, NoPreview) == BadTarget
  {
  }
}
