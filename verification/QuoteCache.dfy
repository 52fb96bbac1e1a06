/**
 The per-request quote cache: its tables, keys and clones (internal/usecases/quote_request_cache.go),
 the cached lookups (internal/usecases/payment_quote_cache_helpers.go and
 internal/usecases/partner_quote_usecase.go) and the cached route support check
 (internal/usecases/payment_usecase.go). Slices are arrays, so that sharing one shows.
 */
module QuoteCache {
  import opened Amounts
  import opened Wrappers
  import Numerals
  import Hex

  datatype Read<T> = Failed | Got(value: T)

  // ------------------------------------------------------------------- the world

  /** The text of a UUID, which holds no colon. */
  type ChainId = s: string | forall i :: 0 <= i < |s| ==> s[i] != ':'

  type Address = b: seq<nat> | |b| == 20 && forall i :: 0 <= i < 20 ==> b[i] < 256
    witness [0, 0, 0, 0, 0, 0, 0, 0, 0, 0, 0, 0, 0, 0, 0, 0, 0, 0, 0, 0]

  predicate IsZero(a: Address) { forall i :: 0 <= i < 20 ==> a[i] == 0 }

  type Row = nat

  /** No error and no contract is an answer of its own. */
  datatype Contract = NoContract | Contract(row: Row)

  datatype Pool = Pool(active: bool, feeTier: nat)

  datatype Found = Found(found: bool, isDirect: bool, path: seq<string>)

  /** Repositories and contracts, fixed while one request runs, and which letters an address's checksum writes in upper case. */
  datatype World = World(
    chain: ChainId -> Read<Row>,
    token: (ChainId, string) -> Read<Row>,
    contract: (ChainId, string) -> Read<Contract>,
    path: (ChainId, string, string, string) -> Read<seq<string>>,
    quoter: (ChainId, string) -> Read<Address>,
    knownQuoter: ChainId -> Read<Address>,
    pool: (ChainId, string, string, string) -> Read<Pool>,
    findRoute: (ChainId, Row, string, string) -> Read<Found>,
    routerV3: (ChainId, Row) -> Read<Address>,
    universalRouter: (ChainId, Row) -> Read<Address>,
    checksum: Address -> set<nat>)

  datatype Flaw =
    | NoRouteRegistered | V3ReadFailed | UniversalReadFailed | V3NotSet | UniversalNotSet | NoExecutor

  datatype Status = Status(
    found: bool, isDirect: bool, path: seq<string>, executable: bool, reasons: seq<Flaw>,
    routerV3: Read<Address>, universalRouter: Read<Address>)

  function If<T>(b: bool, x: T): seq<T> { if b then [x] else [] }

  predicate Ready(r: Read<Address>) { r.Got? && !IsZero(r.value) }

  /** The status that the contract reads amount to. */
  function StatusOf(w: World, chain: ChainId, swapper: Row, f: Found): Status {
    if !f.found then Status(false, f.isDirect, f.path, false, [NoRouteRegistered], Failed, Failed)
    else
      var v3, uni := w.routerV3(chain, swapper), w.universalRouter(chain, swapper);
      Status(true, f.isDirect, f.path, Ready(v3) || Ready(uni),
             If(v3.Failed?, V3ReadFailed) + If(uni.Failed?, UniversalReadFailed)
             + If(!Ready(v3), V3NotSet) + If(!Ready(uni), UniversalNotSet)
             + If(!Ready(v3) && !Ready(uni), NoExecutor),
             v3, uni)
  }

  const SWAPPER := "TOKEN_SWAPPER"

  function SupportRead(w: World, chain: ChainId, swapper: Contract, tokenIn: string, tokenOut: string): Read<Answer> {
    if swapper.NoContract? then Failed
    else match w.findRoute(chain, swapper.row, tokenIn, tokenOut)
      case Failed => Failed
      case Got(f) => Got(SupportIs(StatusOf(w, chain, swapper.row, f)))
  }

  // ----------------------------------------------------------------- calls and answers

  datatype Call =
    | ChainById(chain: ChainId)
    | TokenByAddress(chain: ChainId, address: string)
    | ActiveContract(chain: ChainId, kind: string)
    | RoutePath(chain: ChainId, swapper: string, tokenIn: string, tokenOut: string)
    | QuoterV3(chain: ChainId, swapper: string)
    | PoolConfig(chain: ChainId, swapper: string, tokenIn: string, tokenOut: string)
    | RouteSupport(chain: ChainId, tokenIn: string, tokenOut: string)

  datatype Answer =
    | ChainIs(row: Row) | TokenIs(row: Row) | ContractIs(contract: Contract) | PathIs(path: seq<string>)
    | QuoterIs(address: Address) | PoolIs(pool: Pool) | SupportIs(status: Status)

  function QuoterRead(w: World, chain: ChainId, swapper: string): Read<Address> {
    match w.quoter(chain, swapper)
    case Failed => Failed
    case Got(a) => if IsZero(a) then w.knownQuoter(chain) else Got(a)
  }

  predicate SameToken(c: Call) { c.RouteSupport? && c.tokenIn == c.tokenOut }

  /** The answer without a cache. */
  function Direct(w: World, c: Call): Read<Answer> {
    match c
    case ChainById(chain) => if w.chain(chain).Got? then Got(ChainIs(w.chain(chain).value)) else Failed
    case TokenByAddress(chain, address) => if w.token(chain, address).Got? then Got(TokenIs(w.token(chain, address).value)) else Failed
    case ActiveContract(chain, kind) => if w.contract(chain, kind).Got? then Got(ContractIs(w.contract(chain, kind).value)) else Failed
    case RoutePath(chain, swapper, a, b) => if w.path(chain, swapper, a, b).Got? then Got(PathIs(w.path(chain, swapper, a, b).value)) else Failed
    case QuoterV3(chain, swapper) => if QuoterRead(w, chain, swapper).Got? then Got(QuoterIs(QuoterRead(w, chain, swapper).value)) else Failed
    case PoolConfig(chain, swapper, a, b) => if w.pool(chain, swapper, a, b).Got? then Got(PoolIs(w.pool(chain, swapper, a, b).value)) else Failed
    case RouteSupport(chain, a, b) =>
      if a == b then Got(SupportIs(Status(true, true, [a], true, [], Failed, Failed)))
      else if w.chain(chain).Failed? || w.contract(chain, SWAPPER).Failed? then Failed
      else SupportRead(w, chain, w.contract(chain, SWAPPER).value, a, b)
  }

  // ------------------------------------------------------------------------ keys

  const ZERO_TEXT := "0x0000000000000000000000000000000000000000"

  /** `normalizeEvmAddress`. */
  function Normal(address: string): string {
    if address == "" || address == "native" || address == ZERO_TEXT || !("0x" <= address) then ZERO_TEXT else address
  }

  function Join(a: string, b: string): string { a + ":" + b }

  /** One entry of one of the cache's tables. */
  datatype Slot =
    | ChainSlot(key: string) | TokenSlot(key: string) | ContractSlot(key: string) | PathSlot(key: string)
    | QuoterSlot(key: string) | PoolSlot(key: string) | SupportSlot(key: string)

  function SlotOf(c: Call): Slot {
    match c
    case ChainById(chain) => ChainSlot(chain)
    case TokenByAddress(chain, address) => TokenSlot(Join(chain, Normal(address)))
    case ActiveContract(chain, kind) => ContractSlot(Join(chain, TrimSpace(kind)))
    case RoutePath(chain, swapper, a, b) => PathSlot(Join(chain, Join(Normal(swapper), Join(Normal(a), Normal(b)))))
    case QuoterV3(chain, swapper) => QuoterSlot(Join(chain, Normal(swapper)))
    case PoolConfig(chain, swapper, a, b) => PoolSlot(Join(chain, Join(Normal(swapper), Join(Normal(a), Normal(b)))))
    case RouteSupport(chain, a, b) => SupportSlot(Join(chain, Join(Normal(a), Normal(b))))
  }

  predicate NoColon(s: string) { forall i :: 0 <= i < |s| ==> s[i] != ':' }

  lemma JoinInjective(a: string, b: string, c: string, d: string)
    requires NoColon(a) && NoColon(c) && Join(a, b) == Join(c, d)
    ensures a == c && b == d
  {
    var s := Join(a, b);
    assert s[|a|] == ':' && s[|c|] == ':';
    assert s[..|a|] == a && s[..|c|] == c;
    assert s[|a| + 1..] == b && s[|c| + 1..] == d;
  }

  /** 0x and 40 hex digits. */
  predicate HexAddress(s: string) {
    |s| == 42 && "0x" <= s && forall i :: 2 <= i < 42 ==> Hex.Digit(s[i]) >= 0
  }

  /** Addresses are 0x hex, contract types are written without spaces around. */
  predicate WellFormed(c: Call) {
    match c
    case ChainById(_) => true
    case TokenByAddress(_, address) => HexAddress(address)
    case ActiveContract(_, kind) => TrimSpace(kind) == kind
    case RoutePath(_, swapper, a, b) => HexAddress(swapper) && HexAddress(a) && HexAddress(b)
    case QuoterV3(_, swapper) => HexAddress(swapper)
    case PoolConfig(_, swapper, a, b) => HexAddress(swapper) && HexAddress(a) && HexAddress(b)
    case RouteSupport(_, a, b) => HexAddress(a) && HexAddress(b)
  }

  lemma HexAddressKey(s: string)
    requires HexAddress(s)
    ensures Normal(s) == s && NoColon(s)
  {
    assert s[0] == '0' && s[1] == 'x';
    forall i | 0 <= i < |s| ensures s[i] != ':' {
      if i >= 2 {
        assert Hex.Digit(s[i]) >= 0;
      }
    }
  }

  /** Well-formed calls never share an entry. */
  lemma SlotsAreDistinct(a: Call, b: Call)
    requires WellFormed(a) && WellFormed(b) && SlotOf(a) == SlotOf(b)
    ensures a == b
  {
    forall s: string | HexAddress(s) ensures Normal(s) == s && NoColon(s) {
      HexAddressKey(s);
    }
    match a
    case ChainById(_) =>
    case TokenByAddress(chain, x) => JoinInjective(chain, x, b.chain, b.address);
    case ActiveContract(chain, kind) => JoinInjective(chain, kind, b.chain, b.kind);
    case QuoterV3(chain, x) => JoinInjective(chain, x, b.chain, b.swapper);
    case RoutePath(chain, x, y, z) =>
      JoinInjective(chain, Join(x, Join(y, z)), b.chain, Join(b.swapper, Join(b.tokenIn, b.tokenOut)));
      JoinInjective(x, Join(y, z), b.swapper, Join(b.tokenIn, b.tokenOut));
      JoinInjective(y, z, b.tokenIn, b.tokenOut);
    case PoolConfig(chain, x, y, z) =>
      JoinInjective(chain, Join(x, Join(y, z)), b.chain, Join(b.swapper, Join(b.tokenIn, b.tokenOut)));
      JoinInjective(x, Join(y, z), b.swapper, Join(b.tokenIn, b.tokenOut));
      JoinInjective(y, z, b.tokenIn, b.tokenOut);
    case RouteSupport(chain, y, z) =>
      JoinInjective(chain, Join(y, z), b.chain, Join(b.tokenIn, b.tokenOut));
      JoinInjective(y, z, b.tokenIn, b.tokenOut);
  }

  // ------------------------------------------------------------- cached lookups, on values

  type Entries = map<Slot, Answer>

  datatype Outcome = Outcome(answer: Read<Answer>, entries: Entries)

  /** A route that is not registered is answered but not kept. */
  predicate Kept(r: Read<Answer>) { r.Got? && (r.value.SupportIs? ==> r.value.status.found) }

  function Through(entries: Entries, slot: Slot, answer: Read<Answer>): Outcome {
    if slot in entries then Outcome(Got(entries[slot]), entries)
    else if Kept(answer) then Outcome(answer, entries[slot := answer.value])
    else Outcome(answer, entries)
  }

  /** The route support check on a miss looks its swapper contract up in the cache as well. */
  function Missed(w: World, entries: Entries, chain: ChainId, tokenIn: string, tokenOut: string): Outcome {
    if w.chain(chain).Failed? then Outcome(Failed, entries)
    else
      var swapper := ActiveContract(chain, SWAPPER);
      var o := Through(entries, SlotOf(swapper), Direct(w, swapper));
      if o.answer.Failed? || !o.answer.value.ContractIs? then Outcome(Failed, o.entries)
      else Outcome(SupportRead(w, chain, o.answer.value.contract, tokenIn, tokenOut), o.entries)
  }

  function Support(w: World, entries: Entries, c: Call): Outcome
    requires c.RouteSupport?
  {
    if c.tokenIn == c.tokenOut then Outcome(Direct(w, c), entries)
    else if SlotOf(c) in entries then Outcome(Got(entries[SlotOf(c)]), entries)
    else
      var o := Missed(w, entries, c.chain, c.tokenIn, c.tokenOut);
      if Kept(o.answer) then Outcome(o.answer, o.entries[SlotOf(c) := o.answer.value]) else o
  }

  function Cached(w: World, entries: Entries, c: Call): Outcome {
    if c.RouteSupport? then Support(w, entries, c) else Through(entries, SlotOf(c), Direct(w, c))
  }

  /** A check is answered from its entry, or by a miss whose answer is kept where there is a route. */
  lemma CachedSupport(w: World, entries: Entries, chain: ChainId, tokenIn: string, tokenOut: string)
    requires tokenIn != tokenOut
    ensures var slot := SupportSlot(Join(chain, Join(Normal(tokenIn), Normal(tokenOut))));
            var o := Missed(w, entries, chain, tokenIn, tokenOut);
            Cached(w, entries, RouteSupport(chain, tokenIn, tokenOut)) ==
            if slot in entries then Outcome(Got(entries[slot]), entries)
            else if Kept(o.answer) then Outcome(o.answer, o.entries[slot := o.answer.value]) else o
  {
  }

  function After(w: World, entries: Entries, calls: seq<Call>): Entries
    decreases calls
  {
    if calls == [] then entries else After(w, Cached(w, entries, calls[0]).entries, calls[1..])
  }

  // ---------------------------------------------------------------- transparency

  /** After these calls the cache answers the next one as the world does. */
  predicate Exact(w: World, calls: seq<Call>, c: Call) {
    Cached(w, After(w, map[], calls), c).answer == Direct(w, c)
  }

  predicate AllIn(calls: seq<Call>, ok: Call -> bool) { forall i :: 0 <= i < |calls| ==> ok(calls[i]) }

  /** Over every sequence of the given calls, each answer is the uncached one. */
  ghost predicate Transparent(w: World, ok: Call -> bool) {
    forall calls, c :: AllIn(calls, ok) && ok(c) ==> Exact(w, calls, c)
  }

  /** The check for a route asks for the swapper contract too. */
  ghost predicate Closed(ok: Call -> bool) {
    forall chain, a, b :: ok(RouteSupport(chain, a, b)) ==> ok(ActiveContract(chain, SWAPPER))
  }

  /** Calls that share an entry have one answer, where the first one's is kept. */
  ghost predicate Agree(w: World, ok: Call -> bool) {
    forall a, b :: ok(a) && ok(b) && !SameToken(a) && !SameToken(b) && SlotOf(a) == SlotOf(b) && Kept(Direct(w, a)) ==>
      Direct(w, b) == Direct(w, a)
  }

  predicate Origin(w: World, ok: Call -> bool, a: Call, slot: Slot, v: Answer) {
    ok(a) && !SameToken(a) && SlotOf(a) == slot && Kept(Direct(w, a)) && Direct(w, a).value == v
  }

  ghost predicate Honest(w: World, ok: Call -> bool, entries: Entries) {
    forall slot :: slot in entries ==> exists a :: Origin(w, ok, a, slot, entries[slot])
  }

  lemma ThroughIsHonest(w: World, ok: Call -> bool, entries: Entries, c: Call)
    requires Agree(w, ok) && Honest(w, ok, entries) && ok(c) && !SameToken(c)
    ensures var o := Through(entries, SlotOf(c), Direct(w, c));
            o.answer == Direct(w, c) && Honest(w, ok, o.entries)
  {
    if SlotOf(c) in entries {
      var a :| Origin(w, ok, a, SlotOf(c), entries[SlotOf(c)]);
    } else if Kept(Direct(w, c)) {
      assert Origin(w, ok, c, SlotOf(c), Direct(w, c).value);
    }
  }

  lemma MissedIsHonest(w: World, ok: Call -> bool, entries: Entries, c: Call)
    requires Agree(w, ok) && Honest(w, ok, entries) && c.RouteSupport? && !SameToken(c) && ok(ActiveContract(c.chain, SWAPPER))
    ensures var o := Missed(w, entries, c.chain, c.tokenIn, c.tokenOut);
            o.answer == Direct(w, c) && Honest(w, ok, o.entries)
  {
    ThroughIsHonest(w, ok, entries, ActiveContract(c.chain, SWAPPER));
  }

  lemma CachedIsHonest(w: World, ok: Call -> bool, entries: Entries, c: Call)
    requires Agree(w, ok) && Closed(ok) && Honest(w, ok, entries) && ok(c)
    ensures Cached(w, entries, c).answer == Direct(w, c) && Honest(w, ok, Cached(w, entries, c).entries)
  {
    if !SameToken(c) && (!c.RouteSupport? || SlotOf(c) in entries) {
      ThroughIsHonest(w, ok, entries, c);
    } else if !SameToken(c) {
      assert ok(RouteSupport(c.chain, c.tokenIn, c.tokenOut));
      MissedIsHonest(w, ok, entries, c);
      var o := Missed(w, entries, c.chain, c.tokenIn, c.tokenOut);
      if Kept(o.answer) {
        StoreIsHonest(w, ok, o.entries, c);
      }
    }
  }

  lemma {:induction false} AfterIsHonest(w: World, ok: Call -> bool, entries: Entries, calls: seq<Call>)
    requires Agree(w, ok) && Closed(ok) && Honest(w, ok, entries) && AllIn(calls, ok)
    ensures Honest(w, ok, After(w, entries, calls))
    decreases calls
  {
    if calls != [] {
      CachedIsHonest(w, ok, entries, calls[0]);
      AfterIsHonest(w, ok, Cached(w, entries, calls[0]).entries, calls[1..]);
    }
  }

  lemma FirstCallIsKept(w: World, a: Call)
    requires !SameToken(a) && Kept(Direct(w, a))
    ensures var entries := After(w, map[], [a]); SlotOf(a) in entries && entries[SlotOf(a)] == Direct(w, a).value
  {
    assert [a][1..] == [];
    assert After(w, map[], [a]) == Cached(w, map[], a).entries;
  }

  /** The cache is transparent exactly when calls that share an entry have the same answer. */
  lemma TransparentIff(w: World, ok: Call -> bool)
    requires Closed(ok)
    ensures Transparent(w, ok) <==> Agree(w, ok)
  {
    if Agree(w, ok) {
      forall calls, c | AllIn(calls, ok) && ok(c) ensures Exact(w, calls, c) {
        AfterIsHonest(w, ok, map[], calls);
        CachedIsHonest(w, ok, After(w, map[], calls), c);
      }
    }
    if Transparent(w, ok) {
      forall a, b | ok(a) && ok(b) && !SameToken(a) && !SameToken(b) && SlotOf(a) == SlotOf(b) && Kept(Direct(w, a))
        ensures Direct(w, b) == Direct(w, a)
      {
        FirstCallIsKept(w, a);
        assert AllIn([a], ok);
        assert Exact(w, [a], b);
      }
    }
  }

  lemma SwapperIsTrimmed()
    ensures TrimSpace(SWAPPER) == SWAPPER
  {
    assert SWAPPER[0] == 'T' && SWAPPER[|SWAPPER| - 1] == 'R';
  }

  /** On well-formed calls the cache is transparent, whatever the repositories and contracts hold. */
  lemma CacheIsTransparent(w: World)
    ensures Transparent(w, WellFormed)
  {
    WellFormedAgree(w);
    TransparentIff(w, WellFormed);
  }

  lemma WellFormedAgree(w: World)
    ensures Closed(WellFormed) && Agree(w, WellFormed)
  {
    SwapperIsTrimmed();
    forall a, b | WellFormed(a) && WellFormed(b) && SlotOf(a) == SlotOf(b) ensures a == b {
      SlotsAreDistinct(a, b);
    }
  }

  /**
   Every text without 0x shares its entries with the native token, so the cache is not transparent
   for such texts as soon as the repository tells one of them from the native token.
   */
  lemma UnprefixedTextsCollide(w: World, chain: ChainId, text: string, ok: Call -> bool)
    requires !("0x" <= text) && Closed(ok)
    requires ok(TokenByAddress(chain, text)) && ok(TokenByAddress(chain, "native"))
    requires w.token(chain, text) != w.token(chain, "native")
    ensures !Transparent(w, ok)
  {
    var a, b := TokenByAddress(chain, text), TokenByAddress(chain, "native");
    assert SlotOf(a) == SlotOf(b);
    assert Direct(w, a) != Direct(w, b);
    assert Kept(Direct(w, a)) || Kept(Direct(w, b));
    TransparentIff(w, ok);
  }

  /** Different calls never share an entry; a route from a token to itself has none. */
  ghost predicate NoSharing(ok: Call -> bool) {
    forall a, b :: ok(a) && ok(b) && !SameToken(a) && !SameToken(b) && SlotOf(a) == SlotOf(b) ==> a == b
  }

  /** A world that knows the one call, and otherwise only contracts. */
  function Knowing(a: Call): World {
    World(_ => Got(0),
          (c: ChainId, x) => if a == TokenByAddress(c, x) then Got(0) else Failed,
          (c: ChainId, k) => if a == ActiveContract(c, k) then Got(Contract(1)) else Got(Contract(0)),
          (c: ChainId, s, x, y) => if a == RoutePath(c, s, x, y) then Got([]) else Failed,
          (c: ChainId, s) => if a == QuoterV3(c, s) then Got(ONES) else Failed,
          _ => Failed,
          (c: ChainId, s, x, y) => if a == PoolConfig(c, s, x, y) then Got(Pool(true, 0)) else Failed,
          (c: ChainId, k, x, y) => if a == RouteSupport(c, x, y) then Got(Found(true, true, [])) else Failed,
          (c, k) => Failed,
          (c, k) => Failed,
          _ => {})
  }

  const ONES: Address := [1, 1, 1, 1, 1, 1, 1, 1, 1, 1, 1, 1, 1, 1, 1, 1, 1, 1, 1, 1]

  lemma KnowingTellsApart(a: Call, b: Call)
    requires !SameToken(a) && !SameToken(b) && SlotOf(a) == SlotOf(b) && a != b
    ensures Kept(Direct(Knowing(a), a)) && Direct(Knowing(a), b) != Direct(Knowing(a), a)
  {
    assert a.QuoterV3? ==> !IsZero(ONES) by {
      assert ONES[0] == 1;
    }
  }

  /** A set of calls is answered transparently in every world exactly when no two of its calls share an entry. */
  lemma TransparentEverywhereIff(ok: Call -> bool)
    requires Closed(ok)
    ensures (forall w :: Transparent(w, ok)) <==> NoSharing(ok)
  {
    if NoSharing(ok) {
      forall w ensures Transparent(w, ok) {
        TransparentIff(w, ok);
      }
    }
    if forall w :: Transparent(w, ok) {
      forall a, b | ok(a) && ok(b) && !SameToken(a) && !SameToken(b) && SlotOf(a) == SlotOf(b) ensures a == b {
        if a != b {
          KnowingTellsApart(a, b);
          assert Transparent(Knowing(a), ok);
          TransparentIff(Knowing(a), ok);
        }
      }
    }
  }

  // -------------------------------------------------------------- lookups in parallel

  /** Where a lookup that missed is, outside the lock. */
  datatype Phase =
    | Computing(call: Call)
    | SwapperMissed(call: Call)
    | HasSwapper(call: Call, contract: Contract)

  datatype Given = Given(call: Call, answer: Read<Answer>)

  /** The shared entries, the lookups under way and the answers given. */
  datatype Shared = Shared(entries: Entries, phases: map<nat, Phase>, given: seq<Given>)

  datatype Move = Begin(t: nat, call: Call) | Advance(t: nat)

  function Give(s: Shared, t: nat, c: Call, answer: Read<Answer>): Shared {
    s.(phases := s.phases - {t}, given := s.given + [Given(c, answer)])
  }

  /** The answer is stored, whatever another lookup has stored since, and given. */
  function StoreAndGive(s: Shared, t: nat, c: Call, answer: Read<Answer>): Shared {
    Give(if Kept(answer) then s.(entries := s.entries[SlotOf(c) := answer.value]) else s, t, c, answer)
  }

  function SwapperOf(c: Call): Call { ActiveContract(c.chain, SWAPPER) }

  function WithSwapper(s: Shared, t: nat, c: Call, answer: Answer): Shared {
    if answer.ContractIs? then s.(phases := s.phases[t := HasSwapper(c, answer.contract)]) else Give(s, t, c, Failed)
  }

  function Continue(w: World, s: Shared, t: nat, p: Phase): Shared {
    match p
    case Computing(c) =>
      if !c.RouteSupport? then StoreAndGive(s, t, c, Direct(w, c))
      else if w.chain(c.chain).Failed? then Give(s, t, c, Failed)
      else if SlotOf(SwapperOf(c)) in s.entries then WithSwapper(s, t, c, s.entries[SlotOf(SwapperOf(c))])
      else s.(phases := s.phases[t := SwapperMissed(c)])
    case SwapperMissed(c) =>
      var answer := Direct(w, SwapperOf(c));
      if answer.Failed? then Give(s, t, c, Failed)
      else WithSwapper(s.(entries := s.entries[SlotOf(SwapperOf(c)) := answer.value]), t, c, answer.value)
    case HasSwapper(c, contract) =>
      if !c.RouteSupport? then s else StoreAndGive(s, t, c, SupportRead(w, c.chain, contract, c.tokenIn, c.tokenOut))
  }

  /** One look into the tables, or one store, under the lock. */
  function Step(w: World, s: Shared, m: Move): Shared {
    match m
    case Begin(t, c) =>
      if t in s.phases then s
      else if SameToken(c) then Give(s, t, c, Direct(w, c))
      else if SlotOf(c) in s.entries then Give(s, t, c, Got(s.entries[SlotOf(c)]))
      else s.(phases := s.phases[t := Computing(c)])
    case Advance(t) => if t in s.phases then Continue(w, s, t, s.phases[t]) else s
  }

  function Interleave(w: World, s: Shared, moves: seq<Move>): Shared
    decreases moves
  {
    if moves == [] then s else Interleave(w, Step(w, s, moves[0]), moves[1..])
  }

  predicate PhaseOk(w: World, ok: Call -> bool, p: Phase) {
    && ok(p.call) && !SameToken(p.call)
    && (!p.Computing? ==> p.call.RouteSupport? && w.chain(p.call.chain).Got?)
    && (p.HasSwapper? ==> w.contract(p.call.chain, SWAPPER) == Got(p.contract))
  }

  ghost predicate SharedOk(w: World, ok: Call -> bool, s: Shared) {
    && Honest(w, ok, s.entries)
    && (forall t :: t in s.phases ==> PhaseOk(w, ok, s.phases[t]))
    && (forall i :: 0 <= i < |s.given| ==> s.given[i].answer == Direct(w, s.given[i].call))
  }

  lemma EntryIsDirect(w: World, ok: Call -> bool, entries: Entries, c: Call)
    requires Agree(w, ok) && Honest(w, ok, entries) && ok(c) && !SameToken(c) && SlotOf(c) in entries
    ensures Got(entries[SlotOf(c)]) == Direct(w, c)
  {
    ThroughIsHonest(w, ok, entries, c);
  }

  lemma StoreIsHonest(w: World, ok: Call -> bool, entries: Entries, c: Call)
    requires Honest(w, ok, entries) && ok(c) && !SameToken(c) && Kept(Direct(w, c))
    ensures Honest(w, ok, entries[SlotOf(c) := Direct(w, c).value])
  {
    assert Origin(w, ok, c, SlotOf(c), Direct(w, c).value);
  }

  lemma StoreKeepsOk(w: World, ok: Call -> bool, s: Shared, t: nat, c: Call)
    requires SharedOk(w, ok, s) && ok(c) && !SameToken(c)
    ensures SharedOk(w, ok, StoreAndGive(s, t, c, Direct(w, c)))
  {
    if Kept(Direct(w, c)) {
      StoreIsHonest(w, ok, s.entries, c);
    }
  }

  lemma SwapperKeepsOk(w: World, ok: Call -> bool, s: Shared, t: nat, c: Call, answer: Answer)
    requires SharedOk(w, ok, s) && ok(c) && !SameToken(c) && c.RouteSupport? && w.chain(c.chain).Got?
    requires Got(answer) == Direct(w, SwapperOf(c))
    ensures SharedOk(w, ok, WithSwapper(s, t, c, answer))
  {
  }

  lemma ContinueKeepsOk(w: World, ok: Call -> bool, s: Shared, t: nat)
    requires Agree(w, ok) && Closed(ok) && SharedOk(w, ok, s) && t in s.phases
    ensures SharedOk(w, ok, Continue(w, s, t, s.phases[t]))
  {
    var p := s.phases[t];
    var c := p.call;
    assert PhaseOk(w, ok, p);
    if !c.RouteSupport? || p.HasSwapper? {
      StoreKeepsOk(w, ok, s, t, c);
    } else {
      assert ok(RouteSupport(c.chain, c.tokenIn, c.tokenOut));
      SwapperStepKeepsOk(w, ok, s, t);
    }
  }

  lemma SwapperStepKeepsOk(w: World, ok: Call -> bool, s: Shared, t: nat)
    requires Agree(w, ok) && SharedOk(w, ok, s) && t in s.phases && !s.phases[t].HasSwapper?
    requires s.phases[t].call.RouteSupport? && ok(SwapperOf(s.phases[t].call))
    ensures SharedOk(w, ok, Continue(w, s, t, s.phases[t]))
  {
    var c := s.phases[t].call;
    var swapper := SwapperOf(c);
    if s.phases[t].SwapperMissed? && Direct(w, swapper).Got? {
      StoreIsHonest(w, ok, s.entries, swapper);
      SwapperKeepsOk(w, ok, s.(entries := s.entries[SlotOf(swapper) := Direct(w, swapper).value]), t, c, Direct(w, swapper).value);
    } else if s.phases[t].Computing? && w.chain(c.chain).Got? && SlotOf(swapper) in s.entries {
      EntryIsDirect(w, ok, s.entries, swapper);
      SwapperKeepsOk(w, ok, s, t, c, s.entries[SlotOf(swapper)]);
    }
  }

  lemma StepKeepsOk(w: World, ok: Call -> bool, s: Shared, m: Move)
    requires Agree(w, ok) && Closed(ok) && SharedOk(w, ok, s) && (m.Begin? ==> ok(m.call))
    ensures SharedOk(w, ok, Step(w, s, m))
  {
    if m.Advance? {
      if m.t in s.phases {
        ContinueKeepsOk(w, ok, s, m.t);
      }
    } else if !SameToken(m.call) && SlotOf(m.call) in s.entries {
      EntryIsDirect(w, ok, s.entries, m.call);
    }
  }

  lemma {:induction false} InterleaveKeepsOk(w: World, ok: Call -> bool, s: Shared, moves: seq<Move>)
    requires Agree(w, ok) && Closed(ok) && SharedOk(w, ok, s)
    requires forall i :: 0 <= i < |moves| && moves[i].Begin? ==> ok(moves[i].call)
    ensures SharedOk(w, ok, Interleave(w, s, moves))
    decreases moves
  {
    if moves != [] {
      StepKeepsOk(w, ok, s, moves[0]);
      InterleaveKeepsOk(w, ok, Step(w, s, moves[0]), moves[1..]);
    }
  }

  /**
   Any number of well-formed lookups in parallel, each look and each store its own step, in any
   interleaving: every answer given is the uncached one.
   */
  lemma ParallelLookupsAreTransparent(w: World, moves: seq<Move>, i: nat)
    requires forall k :: 0 <= k < |moves| && moves[k].Begin? ==> WellFormed(moves[k].call)
    requires i < |Interleave(w, Shared(map[], map[], []), moves).given|
    ensures var g := Interleave(w, Shared(map[], map[], []), moves).given[i]; g.answer == Direct(w, g.call)
  {
    WellFormedAgree(w);
    InterleaveKeepsOk(w, WellFormed, Shared(map[], map[], []), moves);
  }

  // ------------------------------------------------------------------ address texts

  /** `Address.Hex`: the digits after 0x, letters in the case that the checksum asks for. */
  function AddressText(w: World, a: Address): string { "0x" + Hex.UpperAt(Hex.Encode(a), w.checksum(a)) }

  /** The last 20 bytes, with zeros in front of fewer. */
  function ToAddress(b: seq<nat>): Address
    requires forall i :: 0 <= i < |b| ==> b[i] < 256
  {
    if |b| > 20 then b[|b| - 20..] else Numerals.Zeros(20 - |b|) + b
  }

  /** `HexToAddress`, on a text with a two-character prefix. */
  function ReadAddress(text: string): Address {
    match Hex.Decode(if |text| < 2 then "" else text[2..])
    case None => ToAddress([])
    case Some(b) => ToAddress(b)
  }

  /** A written address reads back as itself, whatever its checksum, and is not blank. */
  lemma AddressTextRoundTrip(w: World, a: Address)
    ensures ReadAddress(AddressText(w, a)) == a && TrimSpace(AddressText(w, a)) != ""
  {
    var digits := Hex.UpperAt(Hex.Encode(a), w.checksum(a));
    Hex.UpperDecodes(a, w.checksum(a));
    var text := "0x" + digits;
    assert text[2..] == digits && text[0] == '0';
    FirstStays(text);
  }

  lemma {:induction false} FirstStays(s: string)
    requires s != "" && !IsSpace(s[0])
    ensures TrimRight(s) != "" && TrimLeft(s) == s
  {
    if IsSpace(s[|s| - 1]) {
      FirstStays(s[..|s| - 1]);
    }
  }

  /** The contract's quoter, or the known one where the contract has none. */
  method ReadQuoter(w: World, chain: ChainId, swapper: string) returns (r: Read<Address>)
    ensures r == QuoterRead(w, chain, swapper)
  {
    r := w.quoter(chain, swapper);
    if r.Got? && IsZero(r.value) {
      r := w.knownQuoter(chain);
    }
  }

  /** The reads behind a status, and the reasons as they are collected. */
  method ReadStatus(w: World, chain: ChainId, swapper: Row, f: Found) returns (s: Status)
    ensures s == StatusOf(w, chain, swapper, f)
  {
    if !f.found {
      return Status(false, f.isDirect, f.path, false, [NoRouteRegistered], Failed, Failed);
    }
    var v3, uni := w.routerV3(chain, swapper), w.universalRouter(chain, swapper);
    var reasons: seq<Flaw> := [];
    if v3.Failed? {
      reasons := reasons + [V3ReadFailed];
    }
    if uni.Failed? {
      reasons := reasons + [UniversalReadFailed];
    }
    var v3Ready := v3.Got? && !IsZero(v3.value);
    var uniReady := uni.Got? && !IsZero(uni.value);
    if !v3Ready {
      reasons := reasons + [V3NotSet];
    }
    if !uniReady {
      reasons := reasons + [UniversalNotSet];
    }
    var executable := v3Ready || uniReady;
    if !executable {
      reasons := reasons + [NoExecutor];
    }
    return Status(true, f.isDirect, f.path, executable, reasons, v3, uni);
  }

  method PrintAddress(w: World, a: Address) returns (text: string)
    ensures ReadAddress(text) == a && TrimSpace(text) != ""
  {
    AddressTextRoundTrip(w, a);
    text := AddressText(w, a);
  }

  // ------------------------------------------------------------- the cache in memory

  /** A status whose slices a caller may write to. */
  class RouteStatus {
    var found: bool
    var isDirect: bool
    var path: array<string>
    var executable: bool
    var reasons: array<Flaw>
    var routerV3: Read<Address>
    var universalRouter: Read<Address>

    constructor (s: Status)
      ensures Value() == s && fresh(path) && fresh(reasons)
    {
      found, isDirect, executable, routerV3, universalRouter := s.found, s.isDirect, s.executable, s.routerV3, s.universalRouter;
      path := new string[|s.path|](i requires 0 <= i < |s.path| => s.path[i]);
      reasons := new Flaw[|s.reasons|](i requires 0 <= i < |s.reasons| => s.reasons[i]);
    }

    function Value(): Status
      reads this, path, reasons
    {
      Status(found, isDirect, path[..], executable, reasons[..], routerV3, universalRouter)
    }

    /** `cloneRouteSupportStatus`. */
    method Clone() returns (copy: RouteStatus)
      ensures fresh(copy) && fresh(copy.path) && fresh(copy.reasons) && copy.Value() == Value()
    {
      copy := new RouteStatus(Value());
    }
  }

  /** `cloneStringSlice`. */
  method CloneStrings(a: array<string>) returns (copy: array<string>)
    ensures fresh(copy) && copy[..] == a[..]
  {
    copy := new string[a.Length](i requires 0 <= i < a.Length reads a => a[i]);
  }

  function Find(entries: Entries, slot: Slot): Read<Answer> {
    if slot in entries then Got(entries[slot]) else Failed
  }

  class Cache {
    var activeContracts: map<string, Contract>
    var routePaths: map<string, array<string>>
    var quoterAddresses: map<string, string>
    var poolConfigs: map<string, Pool>
    var routeSupports: map<string, RouteStatus>
    var chainsById: map<string, Row>
    var tokensByAddress: map<string, Row>
    ghost var owned: set<object>
    ghost var entries: Entries

    /** The slices and statuses in the tables belong to the cache alone. */
    ghost predicate Owned()
      reads this, owned
    {
      && this !in owned
      && (forall k :: k in routePaths ==> routePaths[k] in owned)
      && (forall k :: k in routeSupports ==>
            routeSupports[k] in owned && routeSupports[k].path in owned && routeSupports[k].reasons in owned)
    }

    ghost function Stored(slot: Slot): Read<Answer>
      requires Owned()
      reads this, owned
    {
      match slot
      case ChainSlot(k) => if k in chainsById then Got(ChainIs(chainsById[k])) else Failed
      case TokenSlot(k) => if k in tokensByAddress then Got(TokenIs(tokensByAddress[k])) else Failed
      case ContractSlot(k) => if k in activeContracts then Got(ContractIs(activeContracts[k])) else Failed
      case PathSlot(k) => if k in routePaths then Got(PathIs(routePaths[k][..])) else Failed
      case QuoterSlot(k) => if k in quoterAddresses then Got(QuoterIs(ReadAddress(quoterAddresses[k]))) else Failed
      case PoolSlot(k) => if k in poolConfigs then Got(PoolIs(poolConfigs[k])) else Failed
      case SupportSlot(k) => if k in routeSupports then Got(SupportIs(routeSupports[k].Value())) else Failed
    }

    ghost predicate Valid()
      reads this, owned
    {
      && Owned()
      && (forall slot :: Stored(slot) == Find(entries, slot))
      && (forall k :: k in quoterAddresses ==> TrimSpace(quoterAddresses[k]) != "")
    }

    constructor ()
      ensures Valid() && entries == map[] && owned == {}
    {
      activeContracts, routePaths, quoterAddresses, poolConfigs := map[], map[], map[], map[];
      routeSupports, chainsById, tokensByAddress := map[], map[], map[];
      owned, entries := {}, map[];
    }

    method GetCachedChainById(w: World, chain: ChainId) returns (r: Read<Row>)
      requires Valid()
      modifies this
      ensures Valid() && owned == old(owned)
      ensures var o := Cached(w, old(entries), ChainById(chain));
              entries == o.entries && o.answer == if r.Got? then Got(ChainIs(r.value)) else Failed
    {
      ghost var slot := SlotOf(ChainById(chain));
      assert Stored(slot) == Find(entries, slot);
      if chain in chainsById {
        return Got(chainsById[chain]);
      }
      r := w.chain(chain);
      if r.Got? {
        chainsById := chainsById[chain := r.value];
        entries := entries[slot := ChainIs(r.value)];
        forall s ensures Stored(s) == Find(entries, s) {
          assert old(Stored(s)) == Find(old(entries), s);
        }
      }
    }

    method GetCachedTokenByAddress(w: World, chain: ChainId, address: string) returns (r: Read<Row>)
      requires Valid()
      modifies this
      ensures Valid() && owned == old(owned)
      ensures var o := Cached(w, old(entries), TokenByAddress(chain, address));
              entries == o.entries && o.answer == if r.Got? then Got(TokenIs(r.value)) else Failed
    {
      var key := Join(chain, Normal(address));
      ghost var slot := TokenSlot(key);
      assert Stored(slot) == Find(entries, slot);
      if key in tokensByAddress {
        return Got(tokensByAddress[key]);
      }
      r := w.token(chain, address);
      if r.Got? {
        tokensByAddress := tokensByAddress[key := r.value];
        entries := entries[slot := TokenIs(r.value)];
        forall s ensures Stored(s) == Find(entries, s) {
          assert old(Stored(s)) == Find(old(entries), s);
        }
      }
    }

    method GetCachedActiveContract(w: World, chain: ChainId, kind: string) returns (r: Read<Contract>)
      requires Valid()
      modifies this
      ensures Valid() && owned == old(owned)
      ensures var o := Cached(w, old(entries), ActiveContract(chain, kind));
              entries == o.entries && o.answer == if r.Got? then Got(ContractIs(r.value)) else Failed
    {
      var key := Join(chain, TrimSpace(kind));
      ghost var slot := ContractSlot(key);
      assert Stored(slot) == Find(entries, slot);
      if key in activeContracts {
        return Got(activeContracts[key]);
      }
      r := w.contract(chain, kind);
      if r.Got? {
        activeContracts := activeContracts[key := r.value];
        entries := entries[slot := ContractIs(r.value)];
        forall s ensures Stored(s) == Find(entries, s) {
          assert old(Stored(s)) == Find(old(entries), s);
        }
      }
    }

    method GetCachedV3PoolConfig(w: World, chain: ChainId, swapper: string, tokenIn: string, tokenOut: string)
      returns (r: Read<Pool>)
      requires Valid()
      modifies this
      ensures Valid() && owned == old(owned)
      ensures var o := Cached(w, old(entries), PoolConfig(chain, swapper, tokenIn, tokenOut));
              entries == o.entries && o.answer == if r.Got? then Got(PoolIs(r.value)) else Failed
    {
      var key := Join(chain, Join(Normal(swapper), Join(Normal(tokenIn), Normal(tokenOut))));
      ghost var slot := PoolSlot(key);
      assert Stored(slot) == Find(entries, slot);
      if key in poolConfigs {
        return Got(poolConfigs[key]);
      }
      r := w.pool(chain, swapper, tokenIn, tokenOut);
      if r.Got? {
        poolConfigs := poolConfigs[key := r.value];
        entries := entries[slot := PoolIs(r.value)];
        forall s ensures Stored(s) == Find(entries, s) {
          assert old(Stored(s)) == Find(old(entries), s);
        }
      }
    }

    /** The quoter is kept as text and read back on a hit. */
    method GetCachedQuoterV3(w: World, chain: ChainId, swapper: string) returns (r: Read<Address>)
      requires Valid()
      modifies this
      ensures Valid() && owned == old(owned)
      ensures var o := Cached(w, old(entries), QuoterV3(chain, swapper));
              entries == o.entries && o.answer == if r.Got? then Got(QuoterIs(r.value)) else Failed
    {
      var key := Join(chain, Normal(swapper));
      ghost var slot := QuoterSlot(key);
      assert Stored(slot) == Find(entries, slot);
      if key in quoterAddresses && TrimSpace(quoterAddresses[key]) != "" {
        return Got(ReadAddress(quoterAddresses[key]));
      }
      r := ReadQuoter(w, chain, swapper);
      if r.Got? {
        var text := PrintAddress(w, r.value);
        PutQuoter(key, text);
      }
    }

    method PutQuoter(key: string, text: string)
      requires Valid() && TrimSpace(text) != ""
      modifies this
      ensures Valid() && owned == old(owned)
      ensures entries == old(entries)[QuoterSlot(key) := QuoterIs(ReadAddress(text))]
    {
      quoterAddresses := quoterAddresses[key := text];
      entries := entries[QuoterSlot(key) := QuoterIs(ReadAddress(text))];
      forall s ensures Stored(s) == Find(entries, s) {
        assert old(Stored(s)) == Find(old(entries), s);
        if s.QuoterSlot? {
          assert s.key != key && s.key in quoterAddresses ==> quoterAddresses[s.key] == old(quoterAddresses[s.key]);
        } else {
          assert Stored(s) == old(Stored(s));
        }
      }
    }

    /** The caller gets a slice of its own, on a hit and on a miss. */
    method GetCachedRoutePath(w: World, chain: ChainId, swapper: string, tokenIn: string, tokenOut: string)
      returns (ok: bool, path: array<string>)
      requires Valid()
      modifies this
      ensures Valid() && fresh(owned - old(owned)) && fresh(path) && path !in owned
      ensures var o := Cached(w, old(entries), RoutePath(chain, swapper, tokenIn, tokenOut));
              entries == o.entries && o.answer == if ok then Got(PathIs(path[..])) else Failed
    {
      var key := Join(chain, Join(Normal(swapper), Join(Normal(tokenIn), Normal(tokenOut))));
      ghost var slot := PathSlot(key);
      assert Stored(slot) == Find(entries, slot);
      if key in routePaths {
        path := CloneStrings(routePaths[key]);
        return true, path;
      }
      var read := w.path(chain, swapper, tokenIn, tokenOut);
      if read.Failed? {
        path := new string[0];
        return false, path;
      }
      path := new string[|read.value|](i requires 0 <= i < |read.value| => read.value[i]);
      assert path[..] == read.value;
      var copy := CloneStrings(path);
      PutPath(key, copy);
      return true, path;
    }

    method PutPath(key: string, path: array<string>)
      requires Valid() && path !in owned
      modifies this
      ensures Valid() && owned == old(owned) + {path}
      ensures entries == old(entries)[PathSlot(key) := PathIs(path[..])]
    {
      routePaths := routePaths[key := path];
      owned := owned + {path};
      entries := entries[PathSlot(key) := PathIs(path[..])];
      forall s ensures Stored(s) == Find(entries, s) {
        assert old(Stored(s)) == Find(old(entries), s);
        if s.PathSlot? && s.key != key && s.key in routePaths {
          assert routePaths[s.key][..] == old(routePaths[s.key][..]);
        }
      }
    }

    /** `CheckRouteSupportDetailed`: the status is the caller's own, its slices included. */
    method CheckRouteSupport(w: World, chain: ChainId, tokenIn: string, tokenOut: string) returns (r: Read<RouteStatus>)
      requires Valid()
      modifies this
      ensures Valid() && fresh(owned - old(owned))
      ensures r.Got? ==> fresh(r.value) && fresh(r.value.path) && fresh(r.value.reasons)
      ensures r.Got? ==> r.value !in owned && r.value.path !in owned && r.value.reasons !in owned
      ensures var o := Cached(w, old(entries), RouteSupport(chain, tokenIn, tokenOut));
              entries == o.entries && o.answer == if r.Got? then Got(SupportIs(r.value.Value())) else Failed
    {
      if tokenIn == tokenOut {
        var direct := new RouteStatus(Status(true, true, [tokenIn], true, [], Failed, Failed));
        return Got(direct);
      }
      var key := Join(chain, Join(Normal(tokenIn), Normal(tokenOut)));
      CachedSupport(w, entries, chain, tokenIn, tokenOut);
      assert key in routeSupports <==> SupportSlot(key) in entries by {
        assert Stored(SupportSlot(key)) == Find(entries, SupportSlot(key));
      }
      if key in routeSupports {
        var copy := CopySupport(key);
        return Got(copy);
      }
      r := FreshSupport(w, chain, tokenIn, tokenOut, key);
    }

    /** The status after a miss, as an object of the caller's own. */
    method FreshSupport(w: World, chain: ChainId, tokenIn: string, tokenOut: string, key: string) returns (r: Read<RouteStatus>)
      requires Valid()
      modifies this
      ensures Valid() && fresh(owned - old(owned))
      ensures r.Got? ==> fresh(r.value) && fresh(r.value.path) && fresh(r.value.reasons)
      ensures r.Got? ==> r.value !in owned && r.value.path !in owned && r.value.reasons !in owned
      ensures var o := Missed(w, old(entries), chain, tokenIn, tokenOut);
              && o.answer == (if r.Got? then Got(SupportIs(r.value.Value())) else Failed)
              && entries == if Kept(o.answer) then o.entries[SupportSlot(key) := o.answer.value] else o.entries
    {
      var value := Refresh(w, chain, tokenIn, tokenOut, key);
      if value.Failed? {
        return Failed;
      }
      var status := new RouteStatus(value.value);
      return Got(status);
    }

    /** A clone of the stored status. */
    method CopySupport(key: string) returns (copy: RouteStatus)
      requires Valid() && key in routeSupports
      ensures fresh(copy) && fresh(copy.path) && fresh(copy.reasons)
      ensures SupportSlot(key) in entries && entries[SupportSlot(key)] == SupportIs(copy.Value())
    {
      assert Stored(SupportSlot(key)) == Find(entries, SupportSlot(key));
      copy := routeSupports[key].Clone();
    }

    /** The status read anew and kept if there is a route. */
    method Refresh(w: World, chain: ChainId, tokenIn: string, tokenOut: string, key: string) returns (value: Read<Status>)
      requires Valid()
      modifies this
      ensures Valid() && fresh(owned - old(owned))
      ensures var o := Missed(w, old(entries), chain, tokenIn, tokenOut);
              && o.answer == (if value.Got? then Got(SupportIs(value.value)) else Failed)
              && entries == if Kept(o.answer) then o.entries[SupportSlot(key) := o.answer.value] else o.entries
    {
      value := ReadSupport(w, chain, tokenIn, tokenOut);
      if value.Got? && value.value.found {
        Keep(key, value.value);
      }
    }

    method Keep(key: string, value: Status)
      requires Valid()
      modifies this
      ensures Valid() && fresh(owned - old(owned))
      ensures entries == old(entries)[SupportSlot(key) := SupportIs(value)]
    {
      var copy := new RouteStatus(value);
      PutSupport(key, copy);
    }

    /** The check on a miss; its swapper contract may still come from the cache. */
    method ReadSupport(w: World, chain: ChainId, tokenIn: string, tokenOut: string) returns (r: Read<Status>)
      requires Valid()
      modifies this
      ensures Valid() && owned == old(owned)
      ensures var o := Missed(w, old(entries), chain, tokenIn, tokenOut);
              entries == o.entries && o.answer == if r.Got? then Got(SupportIs(r.value)) else Failed
    {
      if w.chain(chain).Failed? {
        return Failed;
      }
      var swapper := GetCachedActiveContract(w, chain, SWAPPER);
      if swapper.Failed? || swapper.value.NoContract? {
        return Failed;
      }
      var route := w.findRoute(chain, swapper.value.row, tokenIn, tokenOut);
      if route.Failed? {
        return Failed;
      }
      var value := ReadStatus(w, chain, swapper.value.row, route.value);
      return Got(value);
    }

    method PutSupport(key: string, status: RouteStatus)
      requires Valid()
      modifies this
      ensures Valid() && owned == old(owned) + {status, status.path, status.reasons}
      ensures entries == old(entries)[SupportSlot(key) := SupportIs(status.Value())]
    {
      routeSupports := routeSupports[key := status];
      owned := owned + {status, status.path, status.reasons};
      entries := entries[SupportSlot(key) := SupportIs(status.Value())];
      forall s ensures Stored(s) == Find(entries, s) {
        assert old(Stored(s)) == Find(old(entries), s);
        if s.SupportSlot? && s.key != key && s.key in routeSupports {
          assert routeSupports[s.key].Value() == old(routeSupports[s.key].Value());
        }
      }
    }
  }

  /** A caller that overwrites the path it was given finds the same path at its next lookup. */
  method OverwriteAndLookAgain(
    cache: Cache, w: World, chain: ChainId, swapper: string, tokenIn: string, tokenOut: string, junk: string)
    returns (ok: bool, path: array<string>)
    requires cache.Valid()
    modifies cache
    ensures cache.Valid()
    ensures Cached(w, old(cache.entries), RoutePath(chain, swapper, tokenIn, tokenOut)).answer ==
            if ok then Got(PathIs(path[..])) else Failed
  {
    ok, path := cache.GetCachedRoutePath(w, chain, swapper, tokenIn, tokenOut);
    for i := 0 to path.Length
      modifies path
      invariant cache.Valid() && cache.entries == Cached(w, old(cache.entries), RoutePath(chain, swapper, tokenIn, tokenOut)).entries
      invariant path !in cache.owned
    {
      path[i] := junk;
    }
    ok, path := cache.GetCachedRoutePath(w, chain, swapper, tokenIn, tokenOut);
  }

  /** So does one that spoils a route status, its slices and its fields. */
  method SpoilAndCheckAgain(cache: Cache, w: World, chain: ChainId, tokenIn: string, tokenOut: string, junk: string)
    returns (r: Read<RouteStatus>)
    requires cache.Valid()
    modifies cache
    ensures cache.Valid()
    ensures Cached(w, old(cache.entries), RouteSupport(chain, tokenIn, tokenOut)).answer ==
            if r.Got? then Got(SupportIs(r.value.Value())) else Failed
  {
    r := cache.CheckRouteSupport(w, chain, tokenIn, tokenOut);
    if r.Got? {
      Spoil(cache, r.value, junk);
    }
    r := cache.CheckRouteSupport(w, chain, tokenIn, tokenOut);
  }

  /** Every element of both slices is overwritten, then the flags. */
  method Spoil(cache: Cache, status: RouteStatus, junk: string)
    requires cache.Valid() && status !in cache.owned && status.path !in cache.owned && status.reasons !in cache.owned
    modifies status, status.path, status.reasons
    ensures cache.Valid() && cache.entries == old(cache.entries)
    ensures forall i :: 0 <= i < status.path.Length ==> status.path[i] == junk
    ensures forall i :: 0 <= i < status.reasons.Length ==> status.reasons[i] == NoExecutor
    ensures !status.found && !status.isDirect && !status.executable
  {
    Fill(cache, status.path, junk);
    Fill(cache, status.reasons, NoExecutor);
    status.found, status.isDirect, status.executable := false, false, false;
    assert forall s :: cache.Stored(s) == old(cache.Stored(s));
  }

  method Fill<T>(cache: Cache, slice: array<T>, junk: T)
    requires cache.Valid() && slice !in cache.owned
    modifies slice
    ensures cache.Valid() && cache.entries == old(cache.entries) && cache.owned == old(cache.owned)
    ensures forall i :: 0 <= i < slice.Length ==> slice[i] == junk
  {
    for i := 0 to slice.Length
      invariant cache.Valid() && cache.entries == old(cache.entries) && cache.owned == old(cache.owned)
      invariant forall k :: 0 <= k < i ==> slice[k] == junk
    {
      slice[i] := junk;
    }
  }

  // ------------------------------------------------------------- the uncached answers

  /** The quoter is the contract's own, or where that is zero the known one of the chain; a failed read is an error. */
  lemma QuoterIsKnown(w: World, chain: ChainId, swapper: string, a: Address)
    ensures Direct(w, QuoterV3(chain, swapper)) == Got(QuoterIs(a)) <==>
            || (w.quoter(chain, swapper) == Got(a) && !IsZero(a))
            || (w.quoter(chain, swapper).Got? && IsZero(w.quoter(chain, swapper).value) && w.knownQuoter(chain) == Got(a))
  {
  }

  /** The other lookups pass on what the repository or the contract answers, errors included. */
  lemma LookupsAreRead(w: World, chain: ChainId, x: string, y: string, z: string)
    ensures forall v: Row :: Direct(w, ChainById(chain)) == Got(ChainIs(v)) <==> w.chain(chain) == Got(v)
    ensures forall v: Row :: Direct(w, TokenByAddress(chain, x)) == Got(TokenIs(v)) <==> w.token(chain, x) == Got(v)
    ensures forall v :: Direct(w, ActiveContract(chain, x)) == Got(ContractIs(v)) <==> w.contract(chain, x) == Got(v)
    ensures forall v :: Direct(w, RoutePath(chain, x, y, z)) == Got(PathIs(v)) <==> w.path(chain, x, y, z) == Got(v)
    ensures forall v :: Direct(w, PoolConfig(chain, x, y, z)) == Got(PoolIs(v)) <==> w.pool(chain, x, y, z) == Got(v)
  {
  }

  /** When the route support check answers at all: a route of a token to itself, or chain, swapper and route are read. */
  lemma SupportAnswersIff(w: World, chain: ChainId, tokenIn: string, tokenOut: string)
    ensures Direct(w, RouteSupport(chain, tokenIn, tokenOut)).Got? <==>
            || tokenIn == tokenOut
            || (&& w.chain(chain).Got? && w.contract(chain, "TOKEN_SWAPPER").Got? && w.contract(chain, "TOKEN_SWAPPER").value.Contract?
                && w.findRoute(chain, w.contract(chain, "TOKEN_SWAPPER").value.row, tokenIn, tokenOut).Got?)
  {
  }

  predicate IsSet(r: Read<Address>) { r.Got? && exists i :: 0 <= i < 20 && r.value[i] != 0 }

  /** A registered route is executable exactly when one of the two routers is read and not zero, and each flaw is listed exactly when it is there. */
  lemma StatusIs(w: World, chain: ChainId, swapper: Row, f: Found)
    ensures var s, v3, uni := StatusOf(w, chain, swapper, f), w.routerV3(chain, swapper), w.universalRouter(chain, swapper);
            && s.found == f.found && s.isDirect == f.isDirect && s.path == f.path
            && (s.executable <==> f.found && (IsSet(v3) || IsSet(uni)))
            && (f.found ==> s.routerV3 == v3 && s.universalRouter == uni)
            && (NoRouteRegistered in s.reasons <==> !f.found)
            && (V3ReadFailed in s.reasons <==> f.found && v3.Failed?)
            && (UniversalReadFailed in s.reasons <==> f.found && uni.Failed?)
            && (V3NotSet in s.reasons <==> f.found && !IsSet(v3))
            && (UniversalNotSet in s.reasons <==> f.found && !IsSet(uni))
            && (NoExecutor in s.reasons <==> f.found && !IsSet(v3) && !IsSet(uni))
  {
    ReadyIsSet(w.routerV3(chain, swapper));
    ReadyIsSet(w.universalRouter(chain, swapper));
  }

  lemma ReadyIsSet(r: Read<Address>)
    ensures Ready(r) <==> IsSet(r)
  {
  }

  /** Errors and missing routes are not kept; every other answer is, and the next such call is answered from it. */
  lemma KeptIff(w: World, c: Call)
    requires !SameToken(c)
    ensures SlotOf(c) in Cached(w, map[], c).entries <==>
            && Direct(w, c).Got?
            && (c.RouteSupport? ==> Direct(w, c).value.SupportIs? && Direct(w, c).value.status.found)
  {
    if c.RouteSupport? {
      assert SlotOf(c) != SlotOf(ActiveContract(c.chain, SWAPPER));
    }
  }

  /** Every written address is a well-formed text. */
  lemma WrittenAddressesAreWellFormed(w: World, a: Address)
    ensures HexAddress(AddressText(w, a))
  {
    var text := AddressText(w, a);
    var digits := Hex.UpperAt(Hex.Encode(a), w.checksum(a));
    assert |text| == 42 && text[2..] == digits;
    Hex.UpperDecodes(a, w.checksum(a));
    AllDigitsDecode(digits);
    forall i | 2 <= i < 42 ensures Hex.Digit(text[i]) >= 0 {
      assert text[i] == digits[i - 2];
    }
  }

  lemma {:induction false} AllDigitsDecode(s: string)
    requires Hex.Decode(s).Some?
    ensures forall i :: 0 <= i < |s| ==> Hex.Digit(s[i]) >= 0
  {
    if s != "" {
      AllDigitsDecode(s[2..]);
      forall i | 0 <= i < |s| ensures Hex.Digit(s[i]) >= 0 {
        if i >= 2 {
          assert s[i] == s[2..][i - 2];
        }
      }
    }
  }

  /** A token reaches itself directly and executably, without a look at chain or contracts, and is not kept. */
  lemma SameTokenRoute(w: World, entries: Entries, chain: ChainId, token: string)
    ensures Cached(w, entries, RouteSupport(chain, token, token)) ==
            Outcome(Got(SupportIs(Status(true, true, [token], true, [], Failed, Failed))), entries)
  {
  }
}
