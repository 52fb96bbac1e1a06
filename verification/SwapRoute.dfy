/**
 The multi-hop quotes of internal/usecases/payment_usecase.go: an amount is pushed
 forward through the exact-input quotes of a route, or a required output is pulled
 backward through the exact-output quotes. The two passes are adjoint when every hop is.
 */
module SwapRoute {
  import opened Wrappers
  import opened QuoteSolver

  datatype Pool = Active | Inactive | PoolError

  /** One V3 pool on the route with its two quoter calls; None is a failed call. */
  datatype Hop = Hop(pool: Pool, exactInput: nat -> Option<int>, exactOutput: nat -> Option<int>)

  /** What the request resolves to before any hop is quoted. */
  datatype Route = SameToken | Unavailable | Path(hops: seq<Hop>)

  /** The amount a hop passes on: the pool must be active and the quoter's answer positive. */
  function Positive(h: Hop, quote: Option<int>): (r: Option<nat>)
    ensures r.Some? ==> r.value > 0
  {
    if h.pool.Active? && quote.Some? && quote.value > 0 then Some(quote.value) else None
  }

  function PushHop(h: Hop, x: nat): Option<nat> { Positive(h, h.exactInput(x)) }

  function PullHop(h: Hop, y: nat): Option<nat> { Positive(h, h.exactOutput(y)) }

  function Push(hops: seq<Hop>, x: nat): Option<nat> {
    if hops == [] then Some(x)
    else match PushHop(hops[0], x)
      case None => None
      case Some(v) => Push(hops[1..], v)
  }

  function Pull(hops: seq<Hop>, y: nat): Option<nat> {
    if hops == [] then Some(y)
    else match Pull(hops[1..], y)
      case None => None
      case Some(v) => PullHop(hops[0], v)
  }

  /** `getAccuratePartnerQuote`, on values. */
  function Forward(route: Route, x: int): Option<nat> {
    if x <= 0 then None
    else match route
      case SameToken => Some(x)
      case Unavailable => None
      case Path(hops) => if hops == [] then None else Push(hops, x)
  }

  /** `getAccuratePartnerRequiredInput`, on values. */
  function Backward(route: Route, y: int): Option<nat> {
    if y <= 0 then None
    else match route
      case SameToken => Some(y)
      case Unavailable => None
      case Path(hops) => if hops == [] then None else Pull(hops, y)
  }

  /** The forward loop over the hops. */
  method AccurateQuote(route: Route, amountIn: int) returns (out: Option<nat>)
    ensures out == Forward(route, amountIn)
  {
    if amountIn <= 0 {
      return None;
    }
    if route.SameToken? {
      return Some(amountIn);
    }
    if route.Unavailable? || route.hops == [] {
      return None;
    }
    var hops := route.hops;
    var currentAmount: nat := amountIn;
    for i := 0 to |hops|
      invariant Push(hops[i..], currentAmount) == Push(hops, amountIn)
    {
      assert hops[i..][1..] == hops[i + 1..];
      if !hops[i].pool.Active? {
        return None;
      }
      var quote := hops[i].exactInput(currentAmount);
      if quote.None? || quote.value <= 0 {
        return None;
      }
      currentAmount := quote.value;
    }
    out := Some(currentAmount);
  }

  /** The backward loop, from the last hop to the first. */
  method AccurateRequiredInput(route: Route, amountOut: int) returns (required: Option<nat>)
    ensures required == Backward(route, amountOut)
  {
    if amountOut <= 0 {
      return None;
    }
    if route.SameToken? {
      return Some(amountOut);
    }
    if route.Unavailable? || route.hops == [] {
      return None;
    }
    var hops := route.hops;
    var requiredInput: nat := amountOut;
    var i := |hops|;
    while i > 0
      invariant 0 <= i <= |hops|
      invariant Pull(hops[i..], amountOut) == Some(requiredInput)
    {
      i := i - 1;
      assert hops[i..][1..] == hops[i + 1..];
      var quote := hops[i].exactOutput(requiredInput);
      if !hops[i].pool.Active? || quote.None? || quote.value <= 0 {
        PullFails(hops, i, amountOut);
        return None;
      }
      requiredInput := quote.value;
    }
    assert hops[0..] == hops;
    required := Some(requiredInput);
  }

  lemma {:induction false} PullFails(hops: seq<Hop>, i: nat, y: nat)
    requires i <= |hops| && Pull(hops[i..], y) == None
    ensures Pull(hops, y) == None
    decreases i
  {
    if i == 0 {
      assert hops[0..] == hops;
    } else {
      assert hops[i - 1..][1..] == hops[i..];
      PullFails(hops, i - 1, y);
    }
  }

  // --------------------------------------------------------------- adjunction

  ghost predicate PushReaches(h: Hop, x: nat, y: nat) {
    PushHop(h, x).Some? && PushHop(h, x).value >= y
  }

  /** The hop's exact-input quote never falls with more input. */
  ghost predicate HopMonotone(h: Hop) {
    forall x: nat, x': nat, y: nat :: 0 < x <= x' && PushReaches(h, x, y) ==> PushReaches(h, x', y)
  }

  /** The hop's exact-output quote is the least input that reaches the output, or fails when none does. */
  ghost predicate HopExact(h: Hop) {
    forall y: nat :: y > 0 ==>
      match PullHop(h, y)
      case Some(b) => PushReaches(h, b, y) && forall x: nat :: 0 < x < b ==> !PushReaches(h, x, y)
      case None => forall x: nat :: x > 0 ==> !PushReaches(h, x, y)
  }

  ghost predicate Adjoint(hops: seq<Hop>) {
    forall h :: h in hops ==> HopMonotone(h) && HopExact(h)
  }

  lemma HopAdjunction(h: Hop, x: nat, y: nat)
    requires HopMonotone(h) && HopExact(h) && x > 0 && y > 0
    ensures PushReaches(h, x, y) <==> PullHop(h, y).Some? && PullHop(h, y).value <= x
  {
    match PullHop(h, y)
    case Some(b) =>
      if b <= x { assert PushReaches(h, b, y); } else { assert !PushReaches(h, x, y); }
    case None =>
      assert !PushReaches(h, x, y);
  }

  lemma {:induction false} PathAdjunction(hops: seq<Hop>, x: nat, y: nat)
    requires Adjoint(hops) && x > 0 && y > 0
    ensures Push(hops, x).Some? && Push(hops, x).value >= y <==> Pull(hops, y).Some? && Pull(hops, y).value <= x
    ensures Pull(hops, y).Some? ==> Pull(hops, y).value > 0
  {
    if hops != [] {
      var h, rest := hops[0], hops[1..];
      assert h in hops;
      PathAdjunction(rest, 1, y);
      if Pull(rest, y).Some? {
        HopAdjunction(h, x, Pull(rest, y).value);
      }
      if PushHop(h, x).Some? {
        PathAdjunction(rest, PushHop(h, x).value, y);
      }
    }
  }

  /** Over a route of any length: x is quoted at y or more exactly when x covers the required input of y. */
  lemma RouteAdjunction(route: Route, x: nat, y: nat)
    requires route.Path? ==> Adjoint(route.hops)
    requires x > 0 && y > 0
    ensures Forward(route, x).Some? && Forward(route, x).value >= y
            <==> Backward(route, y).Some? && Backward(route, y).value <= x
    ensures Backward(route, y).Some? ==> Backward(route, y).value > 0
  {
    if route.Path? && route.hops != [] {
      PathAdjunction(route.hops, x, y);
    }
  }

  /** The engine quotes what the forward pass computes and quotes nothing where that pass fails. */
  ghost predicate Quotes(q: Oracle, route: Route) {
    forall x: nat :: x > 0 ==>
      match Forward(route, x)
      case Some(v) => q(x).Quoted? && q(x).out == v
      case None => !q(x).Quoted?
  }

  lemma RouteIsMonotone(q: Oracle, route: Route)
    requires Quotes(q, route) && (route.Path? ==> Adjoint(route.hops))
    ensures Monotone(q)
  {
    forall x: nat, y: nat | 0 < x <= y && !q(x).ProbeError? && !q(y).ProbeError? ensures Out(q(x)) <= Out(q(y)) {
      if Out(q(x)) > 0 {
        RouteAdjunction(route, x, Out(q(x)));
        RouteAdjunction(route, y, Out(q(x)));
      }
    }
  }

  /**
   The search over forward quotes and the single backward pass return the same amount,
   whenever the search closes its interval and the input below its low end is short.
   */
  lemma SearchMeetsBackward(q: Oracle, route: Route, target: nat)
    requires target > 0 && Quotes(q, route) && (route.Path? ==> Adjoint(route.hops))
    requires Search(q, target).Solved? && Closes(q, target)
    requires var low := StartInterval(q, target).low;
             low > 1 ==> !q(low - 1).ProbeError? && !Suffices(q, target, low - 1)
    ensures Backward(route, target) == Some(Search(q, target).amount)
  {
    RouteIsMonotone(q, route);
    SearchLeastIff(q, target);
    var r := Search(q, target).amount;
    assert LeastSufficient(q, target, r);
    RouteAdjunction(route, r, target);
    var b := Backward(route, target).value;
    RouteAdjunction(route, b, target);
    assert Suffices(q, target, b);
  }

  /** The preview answers, which the solver trusts unchecked, are sound when they come from the backward pass. */
  lemma BackwardPreviewIsSound(q: Oracle, route: Route, target: nat)
    requires target > 0 && Quotes(q, route) && (route.Path? ==> Adjoint(route.hops))
    requires Backward(route, target).Some?
    ensures LeastSufficient(q, target, Backward(route, target).value)
  {
    var b := Backward(route, target).value;
    RouteAdjunction(route, 1, target);
    RouteAdjunction(route, b, target);
    forall x: nat | 0 < x < b ensures !Suffices(q, target, x) {
      RouteAdjunction(route, x, target);
    }
  }

  // ---------------------------------------------------------- the passes as chains of quotes

  /** The amounts along a route: each pool active, each exact-input quote positive and passed on. */
  predicate ChainedForward(hops: seq<Hop>, amounts: seq<nat>) {
    && |amounts| == |hops| + 1
    && forall i :: 0 <= i < |hops| ==> Gives(hops[i], amounts[i], amounts[i + 1])
  }

  predicate Gives(h: Hop, x: nat, y: nat) { h.pool == Active && h.exactInput(x) == Some(y) && y > 0 }

  predicate Takes(h: Hop, x: nat, y: nat) { h.pool == Active && h.exactOutput(y) == Some(x) && x > 0 }

  /** The amounts along a route in reverse: each exact-output quote is what the hop before must deliver. */
  predicate ChainedBackward(hops: seq<Hop>, amounts: seq<nat>) {
    && |amounts| == |hops| + 1
    && forall i :: 0 <= i < |hops| ==> Takes(hops[i], amounts[i], amounts[i + 1])
  }

  lemma {:induction false} PushIsChain(hops: seq<Hop>, x: nat) returns (amounts: seq<nat>)
    ensures Push(hops, x).Some? ==>
              ChainedForward(hops, amounts) && amounts[0] == x && amounts[|hops|] == Push(hops, x).value
  {
    amounts := [x];
    if hops != [] && Push(hops, x).Some? {
      var rest := PushIsChain(hops[1..], PushHop(hops[0], x).value);
      amounts := [x] + rest;
      assert amounts[1] == rest[0];
      forall i | 0 <= i < |hops| ensures Gives(hops[i], amounts[i], amounts[i + 1]) {
        if i > 0 {
          assert hops[i] == hops[1..][i - 1] && amounts[i] == rest[i - 1] && amounts[i + 1] == rest[i];
        }
      }
    }
  }

  lemma {:induction false} ChainIsPush(hops: seq<Hop>, amounts: seq<nat>)
    requires ChainedForward(hops, amounts)
    ensures Push(hops, amounts[0]) == Some(amounts[|hops|])
  {
    if hops != [] {
      assert Gives(hops[0], amounts[0], amounts[1]);
      forall i | 0 <= i < |hops[1..]| ensures Gives(hops[1..][i], amounts[1..][i], amounts[1..][i + 1]) {
        assert Gives(hops[i + 1], amounts[i + 1], amounts[i + 2]);
      }
      ChainIsPush(hops[1..], amounts[1..]);
    }
  }

  lemma {:induction false} PullIsChain(hops: seq<Hop>, y: nat) returns (amounts: seq<nat>)
    ensures Pull(hops, y).Some? ==>
              ChainedBackward(hops, amounts) && amounts[0] == Pull(hops, y).value && amounts[|hops|] == y
  {
    amounts := [y];
    if hops != [] && Pull(hops, y).Some? {
      var rest := PullIsChain(hops[1..], y);
      amounts := [Pull(hops, y).value] + rest;
      assert amounts[1] == rest[0];
      forall i | 0 <= i < |hops| ensures Takes(hops[i], amounts[i], amounts[i + 1]) {
        if i > 0 {
          assert hops[i] == hops[1..][i - 1] && amounts[i] == rest[i - 1] && amounts[i + 1] == rest[i];
        }
      }
    }
  }

  lemma {:induction false} ChainIsPull(hops: seq<Hop>, amounts: seq<nat>)
    requires ChainedBackward(hops, amounts)
    ensures Pull(hops, amounts[|hops|]) == Some(amounts[0])
  {
    if hops != [] {
      forall i | 0 <= i < |hops[1..]| ensures Takes(hops[1..][i], amounts[1..][i], amounts[1..][i + 1]) {
        assert Takes(hops[i + 1], amounts[i + 1], amounts[i + 2]);
      }
      ChainIsPull(hops[1..], amounts[1..]);
      assert Takes(hops[0], amounts[0], amounts[1]);
    }
  }

  /** The forward quote of a route is v exactly when amounts from x to v chain through every hop's pool and quoter. */
  lemma ForwardIff(hops: seq<Hop>, x: int, v: nat)
    ensures Forward(Path(hops), x) == Some(v) <==>
            x > 0 && hops != [] && exists amounts: seq<nat> :: ChainedForward(hops, amounts) && amounts[0] == x && amounts[|hops|] == v
  {
    if x > 0 && hops != [] {
      var amounts := PushIsChain(hops, x);
      forall other: seq<nat> | ChainedForward(hops, other) && other[0] == x && other[|hops|] == v
        ensures Push(hops, x) == Some(v)
      {
        ChainIsPush(hops, other);
      }
    }
  }

  /** The required input of a route is v exactly when amounts from v to y chain through every hop's pool and quoter. */
  lemma BackwardIff(hops: seq<Hop>, y: int, v: nat)
    ensures Backward(Path(hops), y) == Some(v) <==>
            y > 0 && hops != [] && exists amounts: seq<nat> :: ChainedBackward(hops, amounts) && amounts[0] == v && amounts[|hops|] == y
  {
    if y > 0 && hops != [] {
      var amounts := PullIsChain(hops, y);
      forall other: seq<nat> | ChainedBackward(hops, other) && other[0] == v && other[|hops|] == y
        ensures Pull(hops, y) == Some(v)
      {
        ChainIsPull(hops, other);
      }
    }
  }

  /** Equal tokens pass the amount through; a route that cannot be resolved gives nothing. */
  lemma WithoutPath(x: int)
    ensures Forward(SameToken, x) == Backward(SameToken, x) == (if x > 0 then Some(x) else None)
    ensures Forward(Unavailable, x) == Backward(Unavailable, x) == None
  {
  }
}
