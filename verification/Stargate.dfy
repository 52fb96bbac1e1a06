/**
 The Stargate end-to-end reconciler of internal/usecases/evm_admin_ops_service.go.
 ConfigureStargateE2E reads contract storage on two chains, compares, and sends a
 transaction wherever storage differs; GetStargateE2EStatus reads it back.
 */
module Stargate {
  import opened Wrappers
  import opened AdminText
  import Amounts

  type Bytes32 = nat // zero is the zero word
  type ChainId = nat

  const STARGATE: nat := 2

  predicate ValidText(t: Text) { t.Named? && t.address != 0 }

  // ------------------------------------------------------------------ storage

  /** The storage cells the reconciler reads and writes. */
  datatype Slot =
    | Adapter(router: Address, dest: string)
    | DefaultBridge(gateway: Address, dest: string)
    | DstEid(sender: Address, dest: string)
    | Peer(sender: Address, dest: string)
    | ExtraOptions(sender: Address, dest: string)
    | ComposeGas(sender: Address, dest: string)
    | Delegate(sender: Address)
    | Spender(chain: ChainId, vault: Address, spender: Address)
    | ReceiverPeer(chain: ChainId, receiver: Address, srcEid: nat)
    | GatewayAdapter(chain: ChainId, gateway: Address, adapter: Address)

  datatype Value = Num(n: nat) | Blob(bytes: seq<nat>)

  type Store = map<Slot, Value>

  /** An untouched cell reads as zero, or as no bytes. */
  function Read(store: Store, slot: Slot): Value {
    if slot in store then store[slot] else if slot.ExtraOptions? then Blob([]) else Num(0)
  }

  function ReadNum(store: Store, slot: Slot): nat {
    var v := Read(store, slot);
    if v.Num? then v.n else 0
  }

  // ------------------------------------------------------------------- plans

  datatype StepName =
    | AdapterStep | BridgeStep | RouteStep | OptionsStep | ComposeStep | DelegateStep | SourceVaultStep
    | PeerStep | DestVaultStep | DestGatewayStep

  /**
   One stage of the procedure. `Ensure` sends one transaction unless its comparison finds
   every wanted cell in place; some comparisons can never succeed. `Observe` only reports.
   */
  datatype Action =
    | Ensure(name: StepName, want: Store, comparable: bool)
    | Observe(name: StepName, want: Store)
    | Note(name: StepName)
    | Fail(reason: string)

  datatype Step = Sent(name: StepName) | Skipped(name: StepName)

  datatype Stop = Done | Rejected(reason: string) | TxFailed(name: StepName)

  /** Storage, the number of transactions that will still go through, and the step report. */
  datatype Progress = Progress(store: Store, left: nat, steps: seq<Step>)

  /** Every wanted cell can be read and holds the wanted value. */
  predicate InPlace(store: Store, blind: set<Slot>, want: Store) {
    forall slot :: slot in want ==> slot !in blind && Read(store, slot) == want[slot]
  }

  function Perform(a: Action, p: Progress, blind: set<Slot>): (Progress, Stop) {
    match a
    case Fail(reason) => (p, Rejected(reason))
    case Note(name) => (p.(steps := p.steps + [Skipped(name)]), Done)
    case Observe(name, want) =>
      (if InPlace(p.store, blind, want) then p.(steps := p.steps + [Skipped(name)]) else p, Done)
    case Ensure(name, want, comparable) =>
      if comparable && InPlace(p.store, blind, want) then (p.(steps := p.steps + [Skipped(name)]), Done)
      else if p.left == 0 then (p, TxFailed(name))
      else (Progress(p.store + want, p.left - 1, p.steps + [Sent(name)]), Done)
  }

  function Execute(plan: seq<Action>, p: Progress, blind: set<Slot>): (Progress, Stop) {
    if plan == [] then (p, Done) else
      var (p1, stop) := Perform(plan[0], p, blind);
      if stop.Done? then Execute(plan[1..], p1, blind) else (p1, stop)
  }

  lemma {:induction false} ExecuteAppend(a: seq<Action>, b: seq<Action>, p: Progress, blind: set<Slot>)
    ensures var (p1, stop) := Execute(a, p, blind);
            Execute(a + b, p, blind) == if stop.Done? then Execute(b, p1, blind) else (p1, stop)
  {
    if a == [] {
      assert a + b == b;
    } else {
      var (p1, stop) := Perform(a[0], p, blind);
      assert (a + b)[1..] == a[1..] + b;
      ExecuteAppend(a[1..], b, p1, blind);
    }
  }

  // ----------------------------------------------------------------- requests

  datatype Context = Context(chain: ChainId, dest: string, router: Address, gateway: Address, vault: Option<Address>)

  datatype Source = Source(
    registerAdapter: bool, setDefaultBridge: bool, sender: Text, dstEid: nat, dstPeer: Option<Bytes32>,
    options: OptionsText, composeGas: nat, registerDelegate: bool, authorizeVault: bool)

  datatype Destination = Destination(
    chain: Option<ChainId>, receiver: Text, srcEid: nat, srcSender: Option<Bytes32>,
    vault: Text, gateway: Text, authorizeVault: bool, authorizeGateway: bool)

  /** `composeGasMethod` is whether the sender's ABI has setDestinationComposeGasLimit. */
  datatype Request = Request(ctx: Context, source: Source, dest: Destination, composeGasMethod: bool)

  /** The sender the rest of the run configures: the one given, else the one registered. */
  function Sender(r: Request, current: Address): Address {
    if r.source.sender.Named? then r.source.sender.address else current
  }

  function RegisterPart(r: Request, current: Address): seq<Action> {
    var s := r.source;
    if s.sender.Malformed? || (s.sender.Named? && s.sender.address == 0) then [Fail("invalid source sender address")]
    else if current == 0 && !s.registerAdapter then [Fail("adapter not registered")]
    else if current == 0 && s.sender.Blank? then [Fail("senderAddress is required")]
    else if s.registerAdapter && s.sender.Named? then
      [Ensure(AdapterStep, map[Adapter(r.ctx.router, r.ctx.dest) := Num(s.sender.address)], s.sender.prefixed)]
    else [Note(AdapterStep)]
  }

  function BridgePart(r: Request): seq<Action> {
    if r.source.setDefaultBridge then
      [Ensure(BridgeStep, map[DefaultBridge(r.ctx.gateway, r.ctx.dest) := Num(STARGATE)], true)]
    else []
  }

  function RoutePart(r: Request, sender: Address): seq<Action> {
    var s := r.source;
    if s.dstEid == 0 then [Fail("source dstEid is required")]
    else if s.dstPeer.None? then [Fail("invalid source dstPeerHex")]
    else [Ensure(RouteStep, map[DstEid(sender, r.ctx.dest) := Num(s.dstEid), Peer(sender, r.ctx.dest) := Num(s.dstPeer.value)], true)]
  }

  function OptionsPart(r: Request, sender: Address): seq<Action> {
    match r.source.options
    case NoOptions => [Note(OptionsStep)]
    case Options(bytes, canonical) =>
      [Ensure(OptionsStep, map[ExtraOptions(sender, r.ctx.dest) := Blob(bytes)], canonical)]
  }

  function ComposePart(r: Request, sender: Address): seq<Action> {
    var want := map[ComposeGas(sender, r.ctx.dest) := Num(r.source.composeGas)];
    if r.source.composeGas == 0 then []
    else if r.composeGasMethod then [Ensure(ComposeStep, want, true)]
    else [Observe(ComposeStep, want)]
  }

  function DelegatePart(r: Request, sender: Address): seq<Action> {
    if r.source.registerDelegate then [Ensure(DelegateStep, map[Delegate(sender) := Num(1)], false)] else []
  }

  function VaultPart(r: Request, sender: Address): seq<Action> {
    if !r.source.authorizeVault then []
    else if r.ctx.vault.None? then [Note(SourceVaultStep)]
    else [Ensure(SourceVaultStep, map[Spender(r.ctx.chain, r.ctx.vault.value, sender) := Num(1)], true)]
  }

  /** The destination side is configured when any of its fields asks for it. */
  predicate WantsDestination(d: Destination) {
    !d.receiver.Blank? || d.authorizeVault || d.authorizeGateway
  }

  function ReceiverPart(d: Destination): seq<Action> {
    if !WantsDestination(d) then []
    else if d.chain.None? then [Fail("destination chainId is required")]
    else if !ValidText(d.receiver) then [Fail("invalid destination receiver address")]
    else if d.srcEid == 0 then [Fail("destination srcEid is required")]
    else if d.srcSender.None? then [Fail("invalid destination srcSenderHex")]
    else [Ensure(PeerStep,
                 map[ReceiverPeer(d.chain.value, d.receiver.address, d.srcEid) := Num(d.srcSender.value)],
                 d.srcSender.value != 0)]
  }

  function DestVaultPart(d: Destination): seq<Action> {
    if !d.authorizeVault || d.chain.None? || !d.receiver.Named? then []
    else if !ValidText(d.vault) then [Fail("invalid destination vault address")]
    else [Ensure(DestVaultStep, map[Spender(d.chain.value, d.vault.address, d.receiver.address) := Num(1)], true)]
  }

  function DestGatewayPart(d: Destination): seq<Action> {
    if !d.authorizeGateway || d.chain.None? || !d.receiver.Named? then []
    else if !ValidText(d.gateway) then [Fail("invalid destination gateway address")]
    else [Ensure(DestGatewayStep, map[GatewayAdapter(d.chain.value, d.gateway.address, d.receiver.address) := Num(1)], true)]
  }

  function RoutingPlan(r: Request, current: Address): seq<Action> {
    var sender := Sender(r, current);
    RegisterPart(r, current) + BridgePart(r) + RoutePart(r, sender) + OptionsPart(r, sender)
  }

  function SenderPlan(r: Request, sender: Address): seq<Action> {
    ComposePart(r, sender) + DelegatePart(r, sender) + VaultPart(r, sender)
  }

  function DestPlan(d: Destination): seq<Action> {
    ReceiverPart(d) + DestVaultPart(d) + DestGatewayPart(d)
  }

  /** The whole procedure for a request, given the adapter registered when it starts. */
  function Plan(r: Request, current: Address): seq<Action> {
    RoutingPlan(r, current) + SenderPlan(r, Sender(r, current)) + DestPlan(r.dest)
  }

  function AdapterSlot(r: Request): Slot { Adapter(r.ctx.router, r.ctx.dest) }

  /** A run: the registered adapter must be readable; then the plan for it is executed. */
  function Configure(r: Request, p: Progress, blind: set<Slot>): (Progress, Stop) {
    if AdapterSlot(r) in blind then (p, Rejected("adapter read failed"))
    else Execute(Plan(r, ReadNum(p.store, AdapterSlot(r))), p, blind)
  }

  // ------------------------------------------------------- the procedure itself

  /** The service over live storage: every method is the branch structure of the Go code. */
  class AdminOps {
    var store: Store
    var left: nat
    var steps: seq<Step>

    constructor (store: Store, left: nat)
      ensures Now() == Progress(store, left, [])
    {
      this.store, this.left, this.steps := store, left, [];
    }

    function Now(): Progress
      reads this
    {
      Progress(store, left, steps)
    }

    /** One transaction: it applies at once, or fails and changes nothing. */
    method Send(name: StepName, writes: Store) returns (stop: Stop)
      modifies this
      ensures stop.Done? <==> old(left) > 0
      ensures if stop.Done? then Now() == Progress(old(store) + writes, old(left) - 1, old(steps) + [Sent(name)])
              else Now() == old(Now()) && stop == TxFailed(name)
    {
      if left == 0 {
        return TxFailed(name);
      }
      store := store + writes;
      left := left - 1;
      steps := steps + [Sent(name)];
      stop := Done;
    }

    method Skip(name: StepName)
      modifies this
      ensures Now() == old(Now()).(steps := old(steps) + [Skipped(name)])
    {
      steps := steps + [Skipped(name)];
    }

    /** Read, compare, and send unless everything is in place. */
    method Reconcile(name: StepName, want: Store, blind: set<Slot>) returns (stop: Stop)
      modifies this
      ensures (Now(), stop) == Perform(Ensure(name, want, true), old(Now()), blind)
    {
      stop := Done;
      if InPlace(store, blind, want) {
        Skip(name);
      } else {
        stop := Send(name, want);
      }
    }

    method RegisterAdapter(r: Request, current: Address, blind: set<Slot>) returns (stop: Stop)
      requires current == ReadNum(store, AdapterSlot(r)) && AdapterSlot(r) !in blind
      requires Read(store, AdapterSlot(r)).Num?
      modifies this
      ensures (Now(), stop) == Execute(RegisterPart(r, current), old(Now()), blind)
    {
      var s := r.source;
      if !s.sender.Blank? && !ValidText(s.sender) {
        return Rejected("invalid source sender address");
      }
      stop := Done;
      if current == 0 {
        if !s.registerAdapter {
          return Rejected("adapter not registered");
        }
        if !ValidText(s.sender) {
          return Rejected("senderAddress is required");
        }
        stop := Send(AdapterStep, map[AdapterSlot(r) := Num(s.sender.address)]);
      } else if s.registerAdapter && ValidText(s.sender) && !(s.sender.prefixed && s.sender.address == current) {
        stop := Send(AdapterStep, map[AdapterSlot(r) := Num(s.sender.address)]);
      } else {
        Skip(AdapterStep);
      }
    }

    method SetDefaultBridge(r: Request, blind: set<Slot>) returns (stop: Stop)
      modifies this
      ensures (Now(), stop) == Execute(BridgePart(r), old(Now()), blind)
    {
      stop := Done;
      if r.source.setDefaultBridge {
        stop := Reconcile(BridgeStep, map[DefaultBridge(r.ctx.gateway, r.ctx.dest) := Num(STARGATE)], blind);
      }
    }

    method SetRoute(r: Request, sender: Address, blind: set<Slot>) returns (stop: Stop)
      modifies this
      ensures (Now(), stop) == Execute(RoutePart(r, sender), old(Now()), blind)
    {
      var s := r.source;
      if s.dstEid == 0 {
        return Rejected("source dstEid is required");
      }
      if s.dstPeer.None? {
        return Rejected("invalid source dstPeerHex");
      }
      var eid, peer := DstEid(sender, r.ctx.dest), Peer(sender, r.ctx.dest);
      stop := Done;
      if eid !in blind && peer !in blind && Read(store, eid) == Num(s.dstEid) && Read(store, peer) == Num(s.dstPeer.value) {
        Skip(RouteStep);
      } else {
        stop := Send(RouteStep, map[eid := Num(s.dstEid), peer := Num(s.dstPeer.value)]);
      }
    }

    method SetOptions(r: Request, sender: Address, blind: set<Slot>) returns (stop: Stop)
      modifies this
      ensures (Now(), stop) == Execute(OptionsPart(r, sender), old(Now()), blind)
    {
      stop := Done;
      match r.source.options
      case NoOptions =>
        Skip(OptionsStep);
      case Options(bytes, canonical) =>
        var slot := ExtraOptions(sender, r.ctx.dest);
        if slot !in blind && canonical && Read(store, slot) == Blob(bytes) {
          Skip(OptionsStep);
        } else {
          stop := Send(OptionsStep, map[slot := Blob(bytes)]);
        }
    }

    method SetComposeGas(r: Request, sender: Address, blind: set<Slot>) returns (stop: Stop)
      modifies this
      ensures (Now(), stop) == Execute(ComposePart(r, sender), old(Now()), blind)
    {
      stop := Done;
      if r.source.composeGas > 0 {
        var slot := ComposeGas(sender, r.ctx.dest);
        if slot !in blind && Read(store, slot) == Num(r.source.composeGas) {
          Skip(ComposeStep);
        } else if r.composeGasMethod {
          stop := Send(ComposeStep, map[slot := Num(r.source.composeGas)]);
        }
      }
    }

    method RegisterDelegate(r: Request, sender: Address, blind: set<Slot>) returns (stop: Stop)
      modifies this
      ensures (Now(), stop) == Execute(DelegatePart(r, sender), old(Now()), blind)
    {
      stop := Done;
      if r.source.registerDelegate {
        stop := Send(DelegateStep, map[Delegate(sender) := Num(1)]);
      }
    }

    method AuthorizeSourceVault(r: Request, sender: Address, blind: set<Slot>) returns (stop: Stop)
      modifies this
      ensures (Now(), stop) == Execute(VaultPart(r, sender), old(Now()), blind)
    {
      stop := Done;
      if r.source.authorizeVault {
        if r.ctx.vault.None? {
          Skip(SourceVaultStep);
        } else {
          stop := Reconcile(SourceVaultStep, map[Spender(r.ctx.chain, r.ctx.vault.value, sender) := Num(1)], blind);
        }
      }
    }

    method ConfigureDestination(d: Destination, blind: set<Slot>) returns (stop: Stop)
      modifies this
      ensures (Now(), stop) == Execute(DestPlan(d), old(Now()), blind)
    {
      ghost var p := Now();
      ExecuteAppend(ReceiverPart(d) + DestVaultPart(d), DestGatewayPart(d), p, blind);
      ExecuteAppend(ReceiverPart(d), DestVaultPart(d), p, blind);
      if !WantsDestination(d) {
        return Done;
      }
      stop := SetReceiverPeer(d, blind);
      if stop.Done? {
        stop := AuthorizeDestination(d, blind);
      }
    }

    method SetReceiverPeer(d: Destination, blind: set<Slot>) returns (stop: Stop)
      requires WantsDestination(d)
      modifies this
      ensures (Now(), stop) == Execute(ReceiverPart(d), old(Now()), blind)
      ensures stop.Done? ==> d.chain.Some? && ValidText(d.receiver)
    {
      if d.chain.None? {
        return Rejected("destination chainId is required");
      }
      if !ValidText(d.receiver) {
        return Rejected("invalid destination receiver address");
      }
      if d.srcEid == 0 {
        return Rejected("destination srcEid is required");
      }
      if d.srcSender.None? {
        return Rejected("invalid destination srcSenderHex");
      }
      var slot := ReceiverPeer(d.chain.value, d.receiver.address, d.srcEid);
      stop := Done;
      if slot !in blind && PeerConfigured(store, slot) && PeerTrusted(store, slot, d.srcSender.value) {
        Skip(PeerStep);
      } else {
        stop := Send(PeerStep, map[slot := Num(d.srcSender.value)]);
      }
    }

    method AuthorizeDestination(d: Destination, blind: set<Slot>) returns (stop: Stop)
      requires d.chain.Some? && ValidText(d.receiver)
      modifies this
      ensures (Now(), stop) ==
              var (p1, stop1) := Execute(DestVaultPart(d), old(Now()), blind);
              if stop1.Done? then Execute(DestGatewayPart(d), p1, blind) else (p1, stop1)
    {
      stop := Done;
      if d.authorizeVault {
        if !ValidText(d.vault) {
          return Rejected("invalid destination vault address");
        }
        stop := Reconcile(DestVaultStep,
                          map[Spender(d.chain.value, d.vault.address, d.receiver.address) := Num(1)], blind);
        if !stop.Done? {
          return;
        }
      }
      if d.authorizeGateway {
        if !ValidText(d.gateway) {
          return Rejected("invalid destination gateway address");
        }
        stop := Reconcile(DestGatewayStep,
                          map[GatewayAdapter(d.chain.value, d.gateway.address, d.receiver.address) := Num(1)], blind);
      }
    }

    method ConfigureRouting(r: Request, current: Address, blind: set<Slot>) returns (stop: Stop)
      requires current == ReadNum(store, AdapterSlot(r)) && AdapterSlot(r) !in blind
      requires Read(store, AdapterSlot(r)).Num?
      modifies this
      ensures (Now(), stop) == Execute(RoutingPlan(r, current), old(Now()), blind)
    {
      ghost var p := Now();
      var sender := Sender(r, current);
      ghost var ab := RegisterPart(r, current) + BridgePart(r);
      ExecuteAppend(ab + RoutePart(r, sender), OptionsPart(r, sender), p, blind);
      ExecuteAppend(ab, RoutePart(r, sender), p, blind);
      ExecuteAppend(RegisterPart(r, current), BridgePart(r), p, blind);
      stop := RegisterAdapter(r, current, blind);
      if !stop.Done? { return; }
      stop := SetDefaultBridge(r, blind);
      if !stop.Done? { return; }
      stop := SetRoute(r, sender, blind);
      if !stop.Done? { return; }
      stop := SetOptions(r, sender, blind);
    }

    method ConfigureSender(r: Request, sender: Address, blind: set<Slot>) returns (stop: Stop)
      modifies this
      ensures (Now(), stop) == Execute(SenderPlan(r, sender), old(Now()), blind)
    {
      ghost var p := Now();
      ExecuteAppend(ComposePart(r, sender) + DelegatePart(r, sender), VaultPart(r, sender), p, blind);
      ExecuteAppend(ComposePart(r, sender), DelegatePart(r, sender), p, blind);
      stop := SetComposeGas(r, sender, blind);
      if !stop.Done? { return; }
      stop := RegisterDelegate(r, sender, blind);
      if !stop.Done? { return; }
      stop := AuthorizeSourceVault(r, sender, blind);
    }

    /** The full procedure does what `Configure` says, step for step, write for write. */
    method ConfigureStargateE2E(r: Request, blind: set<Slot>) returns (stop: Stop)
      requires Read(store, AdapterSlot(r)).Num?
      modifies this
      ensures (Now(), stop) == Configure(r, old(Now()), blind)
    {
      if AdapterSlot(r) in blind {
        return Rejected("adapter read failed");
      }
      var current := ReadNum(store, AdapterSlot(r));
      var sender := Sender(r, current);
      ghost var p := Now();
      ghost var a, b := RoutingPlan(r, current), SenderPlan(r, sender);
      ExecuteAppend(a + b, DestPlan(r.dest), p, blind);
      ExecuteAppend(a, b, p, blind);
      stop := ConfigureRouting(r, current, blind);
      if !stop.Done? { return; }
      stop := ConfigureSender(r, sender, blind);
      if !stop.Done? { return; }
      stop := ConfigureDestination(r.dest, blind);
    }

    /** The status checker fills its checks and issues one by one: source side, then destination side. */
    method GetStargateE2EStatus(r: Request) returns (ready: bool, issues: seq<Issue>)
      ensures ready <==> issues == []
      ensures ready <==> Ready(store, r)
      ensures ready <==> NothingMissing(store, r)
    {
      var source := SourceIssues(r);
      var dest := DestinationIssues(r.dest);
      issues := source + dest;
      ready := issues == [];
    }

    method SourceIssues(r: Request) returns (issues: seq<Issue>)
      ensures issues == [] <==> SourceReady(store, r)
      ensures var sender := ReadNum(store, Adapter(r.ctx.router, r.ctx.dest));
              var eid, peer := ReadNum(store, DstEid(sender, r.ctx.dest)), ReadNum(store, Peer(sender, r.ctx.dest));
              && (AdapterMissing in issues <==> sender == 0)
              && (WrongDefaultBridge in issues <==> ReadNum(store, DefaultBridge(r.ctx.gateway, r.ctx.dest)) != 2)
              && (RouteMissing in issues <==> sender != 0 && (eid == 0 || peer == 0))
              && (PeerIncomplete in issues <==> sender != 0 && (eid == 0 || peer == 0))
              && (SourceVaultUnauthorized in issues <==>
                    sender == 0 || r.ctx.vault == None || ReadNum(store, Spender(r.ctx.chain, r.ctx.vault.value, sender)) != 1)
    {
      issues := [];
      var sender := ReadNum(store, AdapterSlot(r));
      var vaultAuthorized := false;
      if sender == 0 {
        issues := issues + [AdapterMissing];
      }
      if ReadNum(store, DefaultBridge(r.ctx.gateway, r.ctx.dest)) != STARGATE {
        issues := issues + [WrongDefaultBridge];
      }
      if sender != 0 {
        if !RouteConfigured(store, sender, r.ctx.dest) {
          issues := issues + [RouteMissing];
        }
        if ReadNum(store, DstEid(sender, r.ctx.dest)) == 0 || ReadNum(store, Peer(sender, r.ctx.dest)) == 0 {
          issues := issues + [PeerIncomplete];
        }
        vaultAuthorized := r.ctx.vault.Some? && ReadNum(store, Spender(r.ctx.chain, r.ctx.vault.value, sender)) == 1;
      }
      if !vaultAuthorized {
        issues := issues + [SourceVaultUnauthorized];
      }
    }

    method DestinationIssues(d: Destination) returns (issues: seq<Issue>)
      ensures issues == [] <==> DestinationReady(store, d)
      ensures var given := d.chain.Some? && d.receiver.Named?;
              var peer := if given then ReadNum(store, ReceiverPeer(d.chain.value, d.receiver.address, d.srcEid)) else 0;
              var full := given && d.srcEid != 0 && d.srcSender.Some?;
              && (DestinationPeerMissing in issues <==> !full || peer == 0)
              && (DestinationPeerUntrusted in issues <==> !full || peer == 0 || peer != d.srcSender.value)
              && (DestinationVaultUnauthorized in issues <==>
                    !given || !d.vault.Named? || ReadNum(store, Spender(d.chain.value, d.vault.address, d.receiver.address)) != 1)
              && (DestinationGatewayUnauthorized in issues <==>
                    !given || !d.gateway.Named? || ReadNum(store, GatewayAdapter(d.chain.value, d.gateway.address, d.receiver.address)) != 1)
    {
      issues := [];
      var configured, trusted := false, false;
      if d.chain.Some? && d.receiver.Named? && d.srcEid != 0 && d.srcSender.Some? {
        var slot := ReceiverPeer(d.chain.value, d.receiver.address, d.srcEid);
        configured := PeerConfigured(store, slot);
        trusted := PeerTrusted(store, slot, d.srcSender.value);
      }
      if !configured {
        issues := issues + [DestinationPeerMissing];
      }
      if !trusted {
        issues := issues + [DestinationPeerUntrusted];
      }
      if !(d.chain.Some? && d.vault.Named? && d.receiver.Named?
           && ReadNum(store, Spender(d.chain.value, d.vault.address, d.receiver.address)) == 1) {
        issues := issues + [DestinationVaultUnauthorized];
      }
      if !(d.chain.Some? && d.gateway.Named? && d.receiver.Named?
           && ReadNum(store, GatewayAdapter(d.chain.value, d.gateway.address, d.receiver.address)) == 1) {
        issues := issues + [DestinationGatewayUnauthorized];
      }
    }
  }

  datatype Issue =
    | AdapterMissing | WrongDefaultBridge | RouteMissing | PeerIncomplete | SourceVaultUnauthorized
    | DestinationPeerMissing | DestinationPeerUntrusted | DestinationVaultUnauthorized | DestinationGatewayUnauthorized

  /** The sender contract's own view of its route: both halves are set. */
  predicate RouteConfigured(store: Store, sender: Address, dest: string) {
    ReadNum(store, DstEid(sender, dest)) != 0 && ReadNum(store, Peer(sender, dest)) != 0
  }

  predicate PeerConfigured(store: Store, slot: Slot) { ReadNum(store, slot) != 0 }

  predicate PeerTrusted(store: Store, slot: Slot, sender: Bytes32) {
    PeerConfigured(store, slot) && ReadNum(store, slot) == sender
  }

  predicate SourceReady(store: Store, r: Request) {
    var sender := ReadNum(store, AdapterSlot(r));
    && sender != 0
    && ReadNum(store, DefaultBridge(r.ctx.gateway, r.ctx.dest)) == STARGATE
    && RouteConfigured(store, sender, r.ctx.dest)
    && r.ctx.vault.Some? && ReadNum(store, Spender(r.ctx.chain, r.ctx.vault.value, sender)) == 1
  }

  predicate DestinationReady(store: Store, d: Destination) {
    && d.chain.Some? && d.receiver.Named? && d.vault.Named? && d.gateway.Named? && d.srcEid != 0 && d.srcSender.Some?
    && PeerTrusted(store, ReceiverPeer(d.chain.value, d.receiver.address, d.srcEid), d.srcSender.value)
    && ReadNum(store, Spender(d.chain.value, d.vault.address, d.receiver.address)) == 1
    && ReadNum(store, GatewayAdapter(d.chain.value, d.gateway.address, d.receiver.address)) == 1
  }

  /** The storage the checker calls ready: a complete path from the source gateway to the destination gateway. */
  predicate Ready(store: Store, r: Request) {
    SourceReady(store, r) && DestinationReady(store, r.dest)
  }

  /** Every cell on the path, written out. */
  predicate NothingMissing(store: Store, r: Request) {
    var sender, d := ReadNum(store, Adapter(r.ctx.router, r.ctx.dest)), r.dest;
    && sender != 0 && ReadNum(store, DefaultBridge(r.ctx.gateway, r.ctx.dest)) == 2
    && ReadNum(store, DstEid(sender, r.ctx.dest)) != 0 && ReadNum(store, Peer(sender, r.ctx.dest)) != 0
    && r.ctx.vault.Some? && ReadNum(store, Spender(r.ctx.chain, r.ctx.vault.value, sender)) == 1
    && d.chain.Some? && d.receiver.Named? && d.vault.Named? && d.gateway.Named? && d.srcEid != 0
    && d.srcSender.Some? && d.srcSender.value != 0
    && ReadNum(store, ReceiverPeer(d.chain.value, d.receiver.address, d.srcEid)) == d.srcSender.value
    && ReadNum(store, Spender(d.chain.value, d.vault.address, d.receiver.address)) == 1
    && ReadNum(store, GatewayAdapter(d.chain.value, d.gateway.address, d.receiver.address)) == 1
  }

  // ------------------------------------------------------- what a run leaves behind

  /** The cells a plan wants, up to its first failure; later stages win. */
  function Wants(plan: seq<Action>): Store {
    if plan == [] || plan[0].Fail? then map[]
    else (if plan[0].Ensure? then plan[0].want else map[]) + Wants(plan[1..])
  }

  /** No stage of the plan rejects the request. */
  predicate Accepts(plan: seq<Action>) {
    forall a :: a in plan ==> !a.Fail?
  }

  /**
   Whatever was skipped or sent, a run that is not cut short leaves every wanted cell at its
   wanted value and every other cell as it was. A run cut short touches wanted cells only.
   */
  lemma {:induction false} ExecuteReads(plan: seq<Action>, p: Progress, blind: set<Slot>)
    ensures var (p1, stop) := Execute(plan, p, blind);
            && (forall slot :: slot !in Wants(plan) ==> Read(p1.store, slot) == Read(p.store, slot))
            && (!stop.TxFailed? ==> forall slot :: slot in Wants(plan) ==> Read(p1.store, slot) == Wants(plan)[slot])
            && (p.left >= |plan| ==> !stop.TxFailed?)
            && (stop.Done? ==> Accepts(plan))
            && (Accepts(plan) ==> !stop.Rejected?)
  {
    if plan != [] {
      var (p1, stop) := Perform(plan[0], p, blind);
      assert plan == [plan[0]] + plan[1..];
      if stop.Done? {
        ExecuteReads(plan[1..], p1, blind);
        if plan[0].Ensure? {
          assert forall slot :: slot in plan[0].want ==> Read(p1.store, slot) == plan[0].want[slot];
        }
      }
    }
  }

  /** The value a request wants in a cell, whichever stage writes it. */
  function Desired(r: Request, sender: Address, slot: Slot): Value {
    match slot
    case Adapter(_, _) => Num(sender)
    case DefaultBridge(_, _) => Num(STARGATE)
    case DstEid(_, _) => Num(r.source.dstEid)
    case Peer(_, _) => Num(if r.source.dstPeer.Some? then r.source.dstPeer.value else 0)
    case ExtraOptions(_, _) => Blob(if r.source.options.Options? then r.source.options.bytes else [])
    case ComposeGas(_, _) => Num(r.source.composeGas)
    case Delegate(_) => Num(1)
    case Spender(_, _, _) => Num(1)
    case ReceiverPeer(_, _, _) => Num(if r.dest.srcSender.Some? then r.dest.srcSender.value else 0)
    case GatewayAdapter(_, _, _) => Num(1)
  }

  /** A stage asks only for desired values, and for the adapter only when it registers the given sender. */
  predicate Aims(a: Action, r: Request, sender: Address) {
    a.Ensure? ==> forall slot :: slot in a.want ==>
                    && a.want[slot] == Desired(r, sender, slot)
                    && (slot.Adapter? ==> r.source.registerAdapter && ValidText(r.source.sender))
  }

  /** The stages of a plan are the stages of its parts. */
  lemma PlanMembers(r: Request, current: Address, a: Action)
    ensures var sender, d := Sender(r, current), r.dest;
            a in Plan(r, current) <==>
            || a in RegisterPart(r, current) || a in BridgePart(r) || a in RoutePart(r, sender) || a in OptionsPart(r, sender)
            || a in ComposePart(r, sender) || a in DelegatePart(r, sender) || a in VaultPart(r, sender)
            || a in ReceiverPart(d) || a in DestVaultPart(d) || a in DestGatewayPart(d)
  {
    var sender, d := Sender(r, current), r.dest;
    InConcat(RegisterPart(r, current), BridgePart(r), RoutePart(r, sender), OptionsPart(r, sender), a);
    InConcat(ComposePart(r, sender), DelegatePart(r, sender), VaultPart(r, sender), [], a);
    InConcat(ReceiverPart(d), DestVaultPart(d), DestGatewayPart(d), [], a);
    InConcat(RoutingPlan(r, current), SenderPlan(r, sender), DestPlan(d), [], a);
  }

  lemma InConcat(p: seq<Action>, q: seq<Action>, s: seq<Action>, t: seq<Action>, a: Action)
    ensures a in p + q + s + t <==> a in p || a in q || a in s || a in t
    ensures p + q + s + [] == p + q + s
  {
  }

  lemma RoutingAims(r: Request, current: Address, a: Action)
    requires var sender := Sender(r, current);
             a in RegisterPart(r, current) || a in BridgePart(r) || a in RoutePart(r, sender) || a in OptionsPart(r, sender)
    ensures Aims(a, r, Sender(r, current))
  {
  }

  lemma SenderAims(r: Request, sender: Address, a: Action)
    requires a in ComposePart(r, sender) || a in DelegatePart(r, sender) || a in VaultPart(r, sender)
    ensures Aims(a, r, sender)
  {
  }

  lemma DestAims(r: Request, sender: Address, a: Action)
    requires a in ReceiverPart(r.dest) || a in DestVaultPart(r.dest) || a in DestGatewayPart(r.dest)
    ensures Aims(a, r, sender)
  {
  }

  lemma PlanAims(r: Request, current: Address)
    ensures forall a :: a in Plan(r, current) ==> Aims(a, r, Sender(r, current))
  {
    var sender := Sender(r, current);
    forall a | a in Plan(r, current) ensures Aims(a, r, sender) {
      InConcat(RoutingPlan(r, current), SenderPlan(r, sender), DestPlan(r.dest), [], a);
      if a in RoutingPlan(r, current) {
        InConcat(RegisterPart(r, current), BridgePart(r), RoutePart(r, sender), OptionsPart(r, sender), a);
        RoutingAims(r, current, a);
      } else if a in SenderPlan(r, sender) {
        InConcat(ComposePart(r, sender), DelegatePart(r, sender), VaultPart(r, sender), [], a);
        SenderAims(r, sender, a);
      } else {
        InConcat(ReceiverPart(r.dest), DestVaultPart(r.dest), DestGatewayPart(r.dest), [], a);
        DestAims(r, sender, a);
      }
    }
  }

  lemma {:induction false} WantsAims(plan: seq<Action>, r: Request, sender: Address)
    requires forall a :: a in plan ==> Aims(a, r, sender)
    ensures forall slot :: slot in Wants(plan) ==>
              Wants(plan)[slot] == Desired(r, sender, slot)
              && (slot.Adapter? ==> r.source.registerAdapter && ValidText(r.source.sender))
  {
    if plan != [] && !plan[0].Fail? {
      WantsAims(plan[1..], r, sender);
      assert Aims(plan[0], r, sender);
    }
  }

  lemma {:induction false} WantsCover(plan: seq<Action>)
    requires Accepts(plan)
    ensures forall a :: a in plan && a.Ensure? ==> a.want.Keys <= Wants(plan).Keys
  {
    if plan != [] {
      assert plan == [plan[0]] + plan[1..];
      WantsCover(plan[1..]);
    }
  }

  /** The plan is the same before and after its own writes, whole or partial. */
  lemma PlanStable(r: Request, store: Store, store': Store)
    requires var plan := Plan(r, ReadNum(store, AdapterSlot(r)));
             forall slot :: slot !in Wants(plan) ==> Read(store', slot) == Read(store, slot)
    ensures Plan(r, ReadNum(store', AdapterSlot(r))) == Plan(r, ReadNum(store, AdapterSlot(r)))
  {
    var current := ReadNum(store, AdapterSlot(r));
    PlanAims(r, current);
    WantsAims(Plan(r, current), r, Sender(r, current));
  }

  /**
   Stop a run after any number of transactions and run it again: storage ends exactly where one
   uninterrupted run leaves it, and the second run is accepted or rejected as that one is.
   */
  lemma ResumeReachesSameStorage(
    r: Request, store: Store, k: nat, m: nat, n: nat, blind: set<Slot>, blind': set<Slot>, blind'': set<Slot>)
    requires AdapterSlot(r) !in blind + blind' + blind''
    requires !Configure(r, Progress(store, m, []), blind'').1.TxFailed?
    requires var cut := Configure(r, Progress(store, k, []), blind).0;
             !Configure(r, Progress(cut.store, n, []), blind').1.TxFailed?
    ensures var cut := Configure(r, Progress(store, k, []), blind).0;
            var (again, stop') := Configure(r, Progress(cut.store, n, []), blind');
            var (whole, stop) := Configure(r, Progress(store, m, []), blind'');
            (forall slot :: Read(again.store, slot) == Read(whole.store, slot)) && (stop'.Done? <==> stop.Done?)
  {
    var plan := Plan(r, ReadNum(store, AdapterSlot(r)));
    var cut := Configure(r, Progress(store, k, []), blind).0;
    ExecuteReads(plan, Progress(store, k, []), blind);
    PlanStable(r, store, cut.store);
    ExecuteReads(plan, Progress(store, m, []), blind'');
    ExecuteReads(plan, Progress(cut.store, n, []), blind');
  }

  /** Every flag that asks for a configuration is set. */
  predicate AllFlags(r: Request) {
    && r.source.registerAdapter && r.source.setDefaultBridge && r.source.authorizeVault
    && r.dest.authorizeVault && r.dest.authorizeGateway
  }

  /** The cells a successful run of a fully flagged request leaves behind. */
  lemma SuccessSets(r: Request, p: Progress, blind: set<Slot>, a: Action, slot: Slot)
    requires Configure(r, p, blind).1.Done?
    requires a in Plan(r, ReadNum(p.store, AdapterSlot(r))) && a.Ensure? && slot in a.want
    ensures Read(Configure(r, p, blind).0.store, slot) == Desired(r, Sender(r, ReadNum(p.store, AdapterSlot(r))), slot)
  {
    var current := ReadNum(p.store, AdapterSlot(r));
    var plan := Plan(r, current);
    ExecuteReads(plan, p, blind);
    PlanAims(r, current);
    WantsAims(plan, r, Sender(r, current));
    WantsCover(plan);
  }

  lemma CellSet(r: Request, p: Progress, blind: set<Slot>, part: seq<Action>, slot: Slot)
    requires Configure(r, p, blind).1.Done?
    requires |part| == 1 && part[0].Ensure? && slot in part[0].want
    requires var sender, d := Sender(r, ReadNum(p.store, AdapterSlot(r))), r.dest;
             || part == BridgePart(r) || part == RoutePart(r, sender) || part == VaultPart(r, sender)
             || part == ReceiverPart(d) || part == DestVaultPart(d) || part == DestGatewayPart(d)
    ensures Read(Configure(r, p, blind).0.store, slot) == Desired(r, Sender(r, ReadNum(p.store, AdapterSlot(r))), slot)
  {
    assert part[0] in part;
    PlanMembers(r, ReadNum(p.store, AdapterSlot(r)), part[0]);
    SuccessSets(r, p, blind, part[0], slot);
  }

  /** The requests the procedure accepts. */
  predicate Acceptable(r: Request, current: Address) {
    var s, d := r.source, r.dest;
    && (s.sender.Blank? || ValidText(s.sender))
    && (current == 0 ==> s.registerAdapter && s.sender.Named?)
    && s.dstEid != 0 && s.dstPeer.Some?
    && (WantsDestination(d) ==> d.chain.Some? && ValidText(d.receiver) && d.srcEid != 0 && d.srcSender.Some?)
    && (d.authorizeVault ==> ValidText(d.vault))
    && (d.authorizeGateway ==> ValidText(d.gateway))
  }

  /** A plan is free of failures exactly for acceptable requests. */
  lemma AcceptsIff(r: Request, current: Address)
    ensures Accepts(Plan(r, current)) <==> Acceptable(r, current)
  {
    var sender, d := Sender(r, current), r.dest;
    if Acceptable(r, current) {
      forall a | a in Plan(r, current) ensures !a.Fail? {
        PlanMembers(r, current, a);
      }
    } else {
      var s := r.source;
      if RegisterPart(r, current)[0].Fail? {
        FailsIn(r, current, RegisterPart(r, current));
      } else if s.dstEid == 0 || s.dstPeer.None? {
        FailsIn(r, current, RoutePart(r, sender));
      } else if ReceiverPart(d) != [] && ReceiverPart(d)[0].Fail? {
        FailsIn(r, current, ReceiverPart(d));
      } else if d.authorizeVault && !ValidText(d.vault) {
        FailsIn(r, current, DestVaultPart(d));
      } else {
        FailsIn(r, current, DestGatewayPart(d));
      }
    }
  }

  lemma FailsIn(r: Request, current: Address, part: seq<Action>)
    requires |part| == 1 && part[0].Fail?
    requires var sender, d := Sender(r, current), r.dest;
             || part == RegisterPart(r, current) || part == RoutePart(r, sender)
             || part == ReceiverPart(d) || part == DestVaultPart(d) || part == DestGatewayPart(d)
    ensures !Accepts(Plan(r, current))
  {
    assert part[0] in part;
    PlanMembers(r, current, part[0]);
  }

  lemma SuccessAccepts(r: Request, p: Progress, blind: set<Slot>)
    requires Configure(r, p, blind).1.Done?
    ensures Acceptable(r, ReadNum(p.store, AdapterSlot(r)))
  {
    ExecuteReads(Plan(r, ReadNum(p.store, AdapterSlot(r))), p, blind);
    AcceptsIff(r, ReadNum(p.store, AdapterSlot(r)));
  }

  /** After success the registered adapter is the sender the run configured. */
  lemma SuccessRegisters(r: Request, p: Progress, blind: set<Slot>)
    requires Configure(r, p, blind).1.Done? && r.source.registerAdapter
    ensures var current := ReadNum(p.store, AdapterSlot(r));
            ReadNum(Configure(r, p, blind).0.store, AdapterSlot(r)) == Sender(r, current) != 0
  {
    var current := ReadNum(p.store, AdapterSlot(r));
    var plan := Plan(r, current);
    ExecuteReads(plan, p, blind);
    SuccessAccepts(r, p, blind);
    var part := RegisterPart(r, current);
    assert part[0] in part;
    PlanMembers(r, current, part[0]);
    if r.source.sender.Named? {
      SuccessSets(r, p, blind, part[0], AdapterSlot(r));
    } else {
      PlanAims(r, current);
      WantsAims(plan, r, Sender(r, current));
    }
  }

  /**
   A successful run with every flag set makes the checker report ready exactly when the source
   vault is known and neither peer is the zero word.
   */
  lemma SuccessIsReadyIff(r: Request, p: Progress, blind: set<Slot>)
    requires AllFlags(r) && Configure(r, p, blind).1.Done?
    ensures r.source.dstPeer.Some? && r.dest.srcSender.Some?
    ensures Ready(Configure(r, p, blind).0.store, r) <==>
            r.ctx.vault.Some? && r.source.dstPeer.value != 0 && r.dest.srcSender.value != 0
  {
    SourceSuccess(r, p, blind);
    DestinationSuccess(r, p, blind);
  }

  lemma SourceSuccess(r: Request, p: Progress, blind: set<Slot>)
    requires AllFlags(r) && Configure(r, p, blind).1.Done?
    ensures r.source.dstPeer.Some?
    ensures SourceReady(Configure(r, p, blind).0.store, r) <==> r.ctx.vault.Some? && r.source.dstPeer.value != 0
  {
    var current := ReadNum(p.store, AdapterSlot(r));
    var sender := Sender(r, current);
    SuccessRegisters(r, p, blind);
    SuccessAccepts(r, p, blind);
    CellSet(r, p, blind, BridgePart(r), DefaultBridge(r.ctx.gateway, r.ctx.dest));
    CellSet(r, p, blind, RoutePart(r, sender), DstEid(sender, r.ctx.dest));
    CellSet(r, p, blind, RoutePart(r, sender), Peer(sender, r.ctx.dest));
    if r.ctx.vault.Some? {
      CellSet(r, p, blind, VaultPart(r, sender), Spender(r.ctx.chain, r.ctx.vault.value, sender));
    }
  }

  lemma DestinationSuccess(r: Request, p: Progress, blind: set<Slot>)
    requires AllFlags(r) && Configure(r, p, blind).1.Done?
    ensures r.dest.srcSender.Some?
    ensures DestinationReady(Configure(r, p, blind).0.store, r.dest) <==> r.dest.srcSender.value != 0
  {
    var d := r.dest;
    SuccessAccepts(r, p, blind);
    CellSet(r, p, blind, ReceiverPart(d), ReceiverPeer(d.chain.value, d.receiver.address, d.srcEid));
    CellSet(r, p, blind, DestVaultPart(d), Spender(d.chain.value, d.vault.address, d.receiver.address));
    CellSet(r, p, blind, DestGatewayPart(d), GatewayAdapter(d.chain.value, d.gateway.address, d.receiver.address));
  }

  // ------------------------------------------------------------------ running again

  /** The transactions in a step report, in order. */
  function Sends(steps: seq<Step>): seq<StepName> {
    if steps == [] then []
    else Sends(steps[..|steps| - 1]) + (if steps[|steps| - 1].Sent? then [steps[|steps| - 1].name] else [])
  }

  /** The stages whose comparison cannot succeed. */
  function Blunt(plan: seq<Action>): seq<StepName> {
    if plan == [] then []
    else BluntNames(plan[0]) + Blunt(plan[1..])
  }

  function BluntNames(a: Action): seq<StepName> {
    if a.Ensure? && !a.comparable then [a.name] else []
  }

  predicate Settled(a: Action, store: Store) {
    !a.Fail? && (a.Ensure? ==> InPlace(store, {}, a.want))
  }

  ghost predicate SameReads(a: Store, b: Store) {
    forall slot :: Read(a, slot) == Read(b, slot)
  }

  lemma SendsSnoc(steps: seq<Step>, step: Step)
    ensures Sends(steps + [step]) == Sends(steps) + (if step.Sent? then [step.name] else [])
  {
    assert (steps + [step])[..|steps|] == steps;
  }

  lemma PerformSettled(a: Action, p: Progress)
    requires Settled(a, p.store) && p.left > 0
    ensures var (p1, stop) := Perform(a, p, {});
            && stop.Done? && p1.left >= p.left - 1 && SameReads(p1.store, p.store)
            && Sends(p1.steps) == Sends(p.steps) + BluntNames(a)
  {
    if !a.Fail? {
      SendsSnoc(p.steps, Sent(a.name));
      SendsSnoc(p.steps, Skipped(a.name));
    }
  }

  lemma {:induction false} ExecuteSettled(plan: seq<Action>, p: Progress)
    requires forall a :: a in plan ==> Settled(a, p.store)
    requires p.left >= |plan|
    ensures var (p1, stop) := Execute(plan, p, {});
            stop.Done? && Sends(p1.steps) == Sends(p.steps) + Blunt(plan) && SameReads(p1.store, p.store)
  {
    if plan != [] {
      var (p1, _) := Perform(plan[0], p, {});
      PerformSettled(plan[0], p);
      forall a | a in plan[1..] ensures Settled(a, p1.store) {
        assert Settled(a, p.store);
      }
      ExecuteSettled(plan[1..], p1);
    }
  }

  /**
   Run again after a success, with reads that work: storage reads the same and the
   transactions sent are exactly those of the stages that cannot compare.
   */
  lemma SecondRunSends(r: Request, p: Progress, blind: set<Slot>, left: nat)
    requires Configure(r, p, blind).1.Done?
    requires left >= |Plan(r, ReadNum(p.store, AdapterSlot(r)))|
    ensures var settled := Configure(r, p, blind).0.store;
            var (p2, stop2) := Configure(r, Progress(settled, left, []), {});
            && stop2.Done?
            && Sends(p2.steps) == Blunt(Plan(r, ReadNum(p.store, AdapterSlot(r))))
            && forall slot :: Read(p2.store, slot) == Read(settled, slot)
  {
    var plan := Plan(r, ReadNum(p.store, AdapterSlot(r)));
    var settled := Configure(r, p, blind).0.store;
    ExecuteReads(plan, p, blind);
    PlanStable(r, p.store, settled);
    forall a | a in plan ensures Settled(a, settled) {
      if a.Ensure? {
        PlanAims(r, ReadNum(p.store, AdapterSlot(r)));
        forall slot | slot in a.want ensures Read(settled, slot) == a.want[slot] {
          SuccessSets(r, p, blind, a, slot);
        }
      }
    }
    ExecuteSettled(plan, Progress(settled, left, []));
  }

  lemma {:induction false} BluntIn(plan: seq<Action>, name: StepName)
    ensures name in Blunt(plan) <==> exists a :: a in plan && a.Ensure? && !a.comparable && a.name == name
  {
    if plan != [] {
      BluntIn(plan[1..], name);
      assert plan == [plan[0]] + plan[1..];
    }
  }

  /** The given sender is spelled with 0x, the options are canonical hex, the destination's source sender is not zero. */
  predicate Comparable(r: Request) {
    && (r.source.registerAdapter && r.source.sender.Named? ==> r.source.sender.prefixed)
    && (r.source.options.Options? ==> r.source.options.canonical)
    && (WantsDestination(r.dest) ==> r.dest.srcSender != Some(0))
  }

  predicate OnlyDelegate(names: seq<StepName>) { forall name :: name in names ==> name == DelegateStep }

  /** Run again after a success, it sends nothing but registerDelegate exactly when the request is comparable. */
  lemma SecondRunQuietIff(r: Request, p: Progress, blind: set<Slot>, left: nat)
    requires Configure(r, p, blind).1.Done?
    requires left >= |Plan(r, ReadNum(p.store, AdapterSlot(r)))|
    ensures var settled := Configure(r, p, blind).0.store;
            OnlyDelegate(Sends(Configure(r, Progress(settled, left, []), {}).0.steps)) <==> Comparable(r)
  {
    var current := ReadNum(p.store, AdapterSlot(r));
    SecondRunSends(r, p, blind, left);
    ExecuteReads(Plan(r, current), p, blind);
    BluntQuietIff(r, current);
  }

  /**
   The same in terms of the texts of the request: a given sender starts with 0x or 0X, the options are an
   even number of hex digits after an optional 0x, and the destination's source sender is not zero.
   */
  lemma SecondRunQuietForTexts(r: Request, sender: string, options: string, p: Progress, blind: set<Slot>, left: nat)
    requires r.source.sender == ReadSender(sender) && r.source.options == ReadOptions(options)
    requires Configure(r, p, blind).1.Done?
    requires left >= |Plan(r, ReadNum(p.store, AdapterSlot(r)))|
    ensures var settled := Configure(r, p, blind).0.store;
            OnlyDelegate(Sends(Configure(r, Progress(settled, left, []), {}).0.steps)) <==>
              && (r.source.registerAdapter && Amounts.TrimSpace(sender) != "" ==> Has0x(Amounts.TrimSpace(sender)))
              && (Amounts.TrimSpace(options) != "" ==> EvenHex(OptionDigits(Amounts.TrimSpace(options))))
              && (WantsDestination(r.dest) ==> r.dest.srcSender != Some(0))
  {
    SecondRunQuietIff(r, p, blind, left);
    SuccessAccepts(r, p, blind);
  }

  lemma BluntQuietIff(r: Request, current: Address)
    requires Accepts(Plan(r, current))
    ensures OnlyDelegate(Blunt(Plan(r, current))) <==> Comparable(r)
  {
    var plan := Plan(r, current);
    var sender := Sender(r, current);
    AcceptsIff(r, current);
    var reg, opt, rec := RegisterPart(r, current), OptionsPart(r, sender), ReceiverPart(r.dest);
    BluntOf(r, current, reg);
    BluntOf(r, current, opt);
    if rec != [] {
      BluntOf(r, current, rec);
    }
    forall name | name in Blunt(plan) && name != DelegateStep
      ensures BluntHead(reg, name) || BluntHead(opt, name) || BluntHead(rec, name)
    {
      BluntIn(plan, name);
      var a :| a in plan && a.Ensure? && !a.comparable && a.name == name;
      PlanMembers(r, current, a);
    }
  }

  predicate BluntHead(part: seq<Action>, name: StepName) {
    |part| == 1 && part[0].Ensure? && !part[0].comparable && part[0].name == name
  }

  lemma BluntOf(r: Request, current: Address, part: seq<Action>)
    requires part == RegisterPart(r, current) || part == OptionsPart(r, Sender(r, current)) || part == ReceiverPart(r.dest)
    requires |part| == 1
    ensures part[0].Ensure? && !part[0].comparable ==> part[0].name in Blunt(Plan(r, current))
  {
    assert part[0] in part;
    PlanMembers(r, current, part[0]);
    if part[0].Ensure? {
      BluntIn(Plan(r, current), part[0].name);
    }
  }

  // -------------------------------------------------------------- two concrete requests

  lemma {:induction false} ExecuteCompletes(plan: seq<Action>, p: Progress, blind: set<Slot>)
    requires Accepts(plan) && p.left >= |plan|
    ensures Execute(plan, p, blind).1.Done?
  {
    if plan != [] {
      assert plan[0] in plan;
      assert forall a :: a in plan[1..] ==> a in plan;
      ExecuteCompletes(plan[1..], Perform(plan[0], p, blind).0, blind);
    }
  }

  lemma PlanLength(r: Request, current: Address)
    ensures |Plan(r, current)| <= 10
  {
    var sender := Sender(r, current);
    assert |RoutingPlan(r, current)| <= 4 by { RoutingLength(r, current); }
    assert |SenderPlan(r, sender)| <= 3 by { SenderLength(r, sender); }
    assert |DestPlan(r.dest)| <= 3 by { DestLength(r.dest); }
  }

  lemma RoutingLength(r: Request, current: Address)
    ensures |RoutingPlan(r, current)| <= 4
  {
  }

  lemma SenderLength(r: Request, sender: Address)
    ensures |SenderPlan(r, sender)| <= 3
  {
  }

  lemma DestLength(d: Destination)
    ensures |DestPlan(d)| <= 3
  {
  }

  /** An acceptable request succeeds as soon as ten transactions go through. */
  lemma AcceptableSucceeds(r: Request, p: Progress, blind: set<Slot>)
    requires AdapterSlot(r) !in blind && Acceptable(r, ReadNum(p.store, AdapterSlot(r))) && p.left >= 10
    ensures Configure(r, p, blind).1.Done?
  {
    var current := ReadNum(p.store, AdapterSlot(r));
    AcceptsIff(r, current);
    PlanLength(r, current);
    ExecuteCompletes(Plan(r, current), p, blind);
  }

  /** Every flag set, sender 1 written with or without 0x, and the given peer on the destination chain. */
  function Sample(prefixed: bool, peer: Bytes32): Request {
    Request(Context(1, "d", 11, 12, Some(13)),
            Source(true, true, Named(1, prefixed), 30, Some(peer), NoOptions, 0, false, true),
            Destination(Some(2), Named(21, true), 40, Some(5), Named(22, true), Named(23, true), true, true), true)
  }

  lemma ZeroPeerIsNotReady()
    ensures var (p, stop) := Configure(Sample(true, 0), Progress(map[], 10, []), {});
            stop.Done? && !Ready(p.store, Sample(true, 0))
  {
    AcceptableSucceeds(Sample(true, 0), Progress(map[], 10, []), {});
    SuccessIsReadyIff(Sample(true, 0), Progress(map[], 10, []), {});
  }

  lemma UnprefixedSenderIsSentAgain()
    ensures var r := Sample(false, 7);
            var (p, stop) := Configure(r, Progress(map[], 10, []), {});
            stop.Done? && Ready(p.store, r) && AdapterStep in Sends(Configure(r, Progress(p.store, 10, []), {}).0.steps)
  {
    var r, p := Sample(false, 7), Progress(map[], 10, []);
    AcceptableSucceeds(r, p, {});
    SuccessIsReadyIff(r, p, {});
    PlanLength(r, 0);
    SecondRunSends(r, p, {}, 10);
    BluntOf(r, 0, RegisterPart(r, 0));
  }

  // ------------------------------------------------------------ storage, cell by cell

  function If(b: bool, v: Value): Option<Value> { if b then Some(v) else None }

  /** What an accepted request asks of each cell on either chain; None for the cells that are not its business. */
  function Goal(r: Request, sender: Address, slot: Slot): Option<Value> {
    var ctx, s, d := r.ctx, r.source, r.dest;
    match slot
    case Adapter(router, dest) =>
      If(router == ctx.router && dest == ctx.dest && s.registerAdapter && s.sender.Named?, Num(sender))
    case DefaultBridge(gateway, dest) => If(gateway == ctx.gateway && dest == ctx.dest && s.setDefaultBridge, Num(2))
    case DstEid(who, dest) => If(who == sender && dest == ctx.dest, Num(s.dstEid))
    case Peer(who, dest) =>
      if who == sender && dest == ctx.dest && s.dstPeer.Some? then Some(Num(s.dstPeer.value)) else None
    case ExtraOptions(who, dest) =>
      if who == sender && dest == ctx.dest && s.options.Options? then Some(Blob(s.options.bytes)) else None
    case ComposeGas(who, dest) =>
      If(who == sender && dest == ctx.dest && s.composeGas > 0 && r.composeGasMethod, Num(s.composeGas))
    case Delegate(who) => If(who == sender && s.registerDelegate, Num(1))
    case Spender(chain, vault, who) =>
      If(|| (s.authorizeVault && chain == ctx.chain && ctx.vault == Some(vault) && who == sender)
         || (d.authorizeVault && d.chain == Some(chain) && IsAddress(d.vault, vault) && IsAddress(d.receiver, who)), Num(1))
    case ReceiverPeer(chain, receiver, eid) =>
      if WantsDestination(d) && d.chain == Some(chain) && IsAddress(d.receiver, receiver) && eid == d.srcEid && d.srcSender.Some?
      then Some(Num(d.srcSender.value)) else None
    case GatewayAdapter(chain, gateway, who) =>
      If(d.authorizeGateway && d.chain == Some(chain) && IsAddress(d.gateway, gateway) && IsAddress(d.receiver, who), Num(1))
  }

  predicate IsAddress(t: Text, a: Address) { t.Named? && t.address == a }

  predicate Asks(part: seq<Action>, slot: Slot) { |part| == 1 && part[0].Ensure? && slot in part[0].want }

  lemma {:induction false} WantsIff(plan: seq<Action>, slot: Slot)
    requires Accepts(plan)
    ensures slot in Wants(plan) <==> exists a :: a in plan && a.Ensure? && slot in a.want
  {
    if plan != [] {
      assert plan == [plan[0]] + plan[1..];
      assert plan[0] in plan;
      assert forall a :: a in plan[1..] ==> a in plan;
      WantsIff(plan[1..], slot);
    }
  }

  predicate AsksOfSource(r: Request, current: Address, slot: Slot) {
    var sender := Sender(r, current);
    || Asks(RegisterPart(r, current), slot) || Asks(BridgePart(r), slot) || Asks(RoutePart(r, sender), slot)
    || Asks(OptionsPart(r, sender), slot) || Asks(ComposePart(r, sender), slot) || Asks(DelegatePart(r, sender), slot)
  }

  predicate AsksOfDestination(r: Request, current: Address, slot: Slot) {
    var sender, d := Sender(r, current), r.dest;
    || Asks(VaultPart(r, sender), slot) || Asks(ReceiverPart(d), slot) || Asks(DestVaultPart(d), slot)
    || Asks(DestGatewayPart(d), slot)
  }

  lemma AskedByPart(r: Request, current: Address, slot: Slot, a: Action)
    requires a in Plan(r, current) && a.Ensure? && slot in a.want
    ensures AsksOfSource(r, current, slot) || AsksOfDestination(r, current, slot)
  {
    var sender, d := Sender(r, current), r.dest;
    PlanMembers(r, current, a);
    if a in VaultPart(r, sender) || a in ReceiverPart(d) || a in DestVaultPart(d) || a in DestGatewayPart(d) {
      DestinationPartAskedBy(r, current, slot, a);
    } else {
      SourcePartAskedBy(r, current, slot, a);
    }
  }

  lemma DestinationPartAskedBy(r: Request, current: Address, slot: Slot, a: Action)
    requires a.Ensure? && slot in a.want
    requires var sender, d := Sender(r, current), r.dest;
             a in VaultPart(r, sender) || a in ReceiverPart(d) || a in DestVaultPart(d) || a in DestGatewayPart(d)
    ensures AsksOfDestination(r, current, slot)
  {
  }

  lemma SourcePartAskedBy(r: Request, current: Address, slot: Slot, a: Action)
    requires a.Ensure? && slot in a.want
    requires var sender := Sender(r, current);
             || a in RegisterPart(r, current) || a in BridgePart(r) || a in RoutePart(r, sender) || a in OptionsPart(r, sender)
             || a in ComposePart(r, sender) || a in DelegatePart(r, sender)
    ensures AsksOfSource(r, current, slot)
  {
  }

  ghost predicate Asked(r: Request, current: Address, slot: Slot) {
    exists a :: a in Plan(r, current) && a.Ensure? && slot in a.want
  }

  lemma SourcePartAsks(r: Request, current: Address, slot: Slot)
    requires AsksOfSource(r, current, slot)
    ensures Asked(r, current, slot)
  {
    var sender := Sender(r, current);
    FirstInPlan(r, current, RegisterPart(r, current));
    FirstInPlan(r, current, BridgePart(r));
    FirstInPlan(r, current, RoutePart(r, sender));
    FirstInPlan(r, current, OptionsPart(r, sender));
    FirstInPlan(r, current, ComposePart(r, sender));
    FirstInPlan(r, current, DelegatePart(r, sender));
  }

  lemma DestinationPartAsks(r: Request, current: Address, slot: Slot)
    requires AsksOfDestination(r, current, slot)
    ensures Asked(r, current, slot)
  {
    var sender, d := Sender(r, current), r.dest;
    FirstInPlan(r, current, VaultPart(r, sender));
    FirstInPlan(r, current, ReceiverPart(d));
    FirstInPlan(r, current, DestVaultPart(d));
    FirstInPlan(r, current, DestGatewayPart(d));
  }

  lemma AskedIff(r: Request, current: Address, slot: Slot)
    ensures Asked(r, current, slot) <==> AsksOfSource(r, current, slot) || AsksOfDestination(r, current, slot)
  {
    if a :| a in Plan(r, current) && a.Ensure? && slot in a.want {
      AskedByPart(r, current, slot, a);
    } else if AsksOfSource(r, current, slot) {
      SourcePartAsks(r, current, slot);
    } else if AsksOfDestination(r, current, slot) {
      DestinationPartAsks(r, current, slot);
    }
  }

  predicate OfDestination(slot: Slot) { slot.Spender? || slot.ReceiverPeer? || slot.GatewayAdapter? }

  lemma SourceGoal(r: Request, current: Address, slot: Slot)
    requires Acceptable(r, current) && !OfDestination(slot)
    ensures Goal(r, Sender(r, current), slot).Some? <==> AsksOfSource(r, current, slot)
    ensures !AsksOfDestination(r, current, slot)
  {
  }

  lemma DestinationGoal(r: Request, current: Address, slot: Slot)
    requires Acceptable(r, current) && OfDestination(slot)
    ensures Goal(r, Sender(r, current), slot).Some? <==> AsksOfDestination(r, current, slot)
    ensures !AsksOfSource(r, current, slot)
  {
  }

  lemma GoalIsWanted(r: Request, current: Address, slot: Slot)
    requires Acceptable(r, current)
    ensures var plan, goal := Plan(r, current), Goal(r, Sender(r, current), slot);
            (slot in Wants(plan) <==> goal.Some?) && (goal.Some? ==> Wants(plan)[slot] == goal.value)
  {
    var plan, sender := Plan(r, current), Sender(r, current);
    AcceptsIff(r, current);
    WantsIff(plan, slot);
    AskedIff(r, current, slot);
    if OfDestination(slot) {
      DestinationGoal(r, current, slot);
    } else {
      SourceGoal(r, current, slot);
    }
    PlanAims(r, current);
    WantsAims(plan, r, sender);
    GoalIsDesired(r, current, slot);
  }

  lemma GoalIsDesired(r: Request, current: Address, slot: Slot)
    ensures var goal := Goal(r, Sender(r, current), slot);
            goal.Some? ==> goal.value == Desired(r, Sender(r, current), slot)
  {
  }

  /**
   The storage of both chains after a success, cell by cell: every cell that the request asks for, under
   its own flag and at its own address, holds what is asked, and every other cell holds what it held.
   */
  lemma SuccessStorage(r: Request, p: Progress, blind: set<Slot>, slot: Slot)
    requires Configure(r, p, blind).1.Done?
    ensures var goal := Goal(r, Sender(r, ReadNum(p.store, AdapterSlot(r))), slot);
            Read(Configure(r, p, blind).0.store, slot) == if goal.Some? then goal.value else Read(p.store, slot)
  {
    var current := ReadNum(p.store, AdapterSlot(r));
    SuccessAccepts(r, p, blind);
    ExecuteReads(Plan(r, current), p, blind);
    GoalIsWanted(r, current, slot);
  }

  // ------------------------------------------------------------------ the step report

  function Position(name: StepName): nat {
    match name
    case AdapterStep => 0
    case BridgeStep => 1
    case RouteStep => 2
    case OptionsStep => 3
    case ComposeStep => 4
    case DelegateStep => 5
    case SourceVaultStep => 6
    case PeerStep => 7
    case DestVaultStep => 8
    case DestGatewayStep => 9
  }

  predicate Ascending(steps: seq<Step>) {
    forall i, j :: 0 <= i < j < |steps| ==> Position(steps[i].name) < Position(steps[j].name)
  }

  predicate AscendingPlan(plan: seq<Action>) {
    forall i, j :: 0 <= i < j < |plan| && !plan[i].Fail? && !plan[j].Fail? ==> Position(plan[i].name) < Position(plan[j].name)
  }

  predicate Below(steps: seq<Step>, plan: seq<Action>) {
    forall i, j :: 0 <= i < |steps| && 0 <= j < |plan| && !plan[j].Fail? ==> Position(steps[i].name) < Position(plan[j].name)
  }

  predicate Reported(steps: seq<Step>, name: StepName) { exists i :: 0 <= i < |steps| && steps[i].name == name }

  /** The report lists the stages in their order, each at most once, and after a success none that acts is missing. */
  lemma {:induction false} ReportAscends(plan: seq<Action>, p: Progress, blind: set<Slot>)
    requires AscendingPlan(plan) && Ascending(p.steps) && Below(p.steps, plan)
    ensures var (p1, stop) := Execute(plan, p, blind);
            && p.steps <= p1.steps && Ascending(p1.steps)
            && (stop.Done? ==> forall a :: a in plan && (a.Ensure? || a.Note?) ==> Reported(p1.steps, a.name))
  {
    if plan != [] {
      var (p1, stop) := Perform(plan[0], p, blind);
      if stop.Done? {
        assert Below(p1.steps, plan[1..]);
        ReportAscends(plan[1..], p1, blind);
        var last := Execute(plan[1..], p1, blind).0;
        if plan[0].Ensure? || plan[0].Note? {
          assert last.steps[|p.steps|] == p1.steps[|p.steps|];
          assert Reported(last.steps, plan[0].name);
        }
        assert forall a :: a in plan ==> a == plan[0] || a in plan[1..];
      }
    }
  }

  predicate Between(plan: seq<Action>, from: nat, to: nat) {
    forall i :: 0 <= i < |plan| && !plan[i].Fail? ==> from <= Position(plan[i].name) <= to
  }

  /** At most one stage, at this position. */
  predicate Single(part: seq<Action>, at: nat) { |part| <= 1 && Between(part, at, at) }

  lemma AscendAppend(a: seq<Action>, b: seq<Action>, from: nat, mid: nat, to: nat)
    requires AscendingPlan(a) && Between(a, from, mid) && AscendingPlan(b) && Between(b, mid + 1, to) && from <= mid <= to
    ensures AscendingPlan(a + b) && Between(a + b, from, to)
  {
  }

  lemma RoutingAscends(r: Request, current: Address)
    ensures AscendingPlan(RoutingPlan(r, current)) && Between(RoutingPlan(r, current), 0, 3)
  {
    var sender := Sender(r, current);
    var a, b, c, d := RegisterPart(r, current), BridgePart(r), RoutePart(r, sender), OptionsPart(r, sender);
    assert Single(a, 0) && Single(b, 1) && Single(c, 2) && Single(d, 3);
    AscendAppend(a, b, 0, 0, 1);
    AscendAppend(a + b, c, 0, 1, 2);
    AscendAppend(a + b + c, d, 0, 2, 3);
  }

  lemma SenderAscends(r: Request, sender: Address)
    ensures AscendingPlan(SenderPlan(r, sender)) && Between(SenderPlan(r, sender), 4, 6)
  {
    var a, b, c := ComposePart(r, sender), DelegatePart(r, sender), VaultPart(r, sender);
    assert Single(a, 4) && Single(b, 5) && Single(c, 6);
    AscendAppend(a, b, 4, 4, 5);
    AscendAppend(a + b, c, 4, 5, 6);
  }

  lemma DestAscends(d: Destination)
    ensures AscendingPlan(DestPlan(d)) && Between(DestPlan(d), 7, 9)
  {
    var a, b, c := ReceiverPart(d), DestVaultPart(d), DestGatewayPart(d);
    assert Single(a, 7) && Single(b, 8) && Single(c, 9) by { DestSingles(d); }
    AscendAppend(a, b, 7, 7, 8);
    AscendAppend(a + b, c, 7, 8, 9);
  }

  lemma DestSingles(d: Destination)
    ensures Single(ReceiverPart(d), 7) && Single(DestVaultPart(d), 8) && Single(DestGatewayPart(d), 9)
  {
  }

  lemma PlanAscends(r: Request, current: Address)
    ensures AscendingPlan(Plan(r, current))
  {
    var sender := Sender(r, current);
    RoutingAscends(r, current);
    SenderAscends(r, sender);
    DestAscends(r.dest);
    AscendAppend(RoutingPlan(r, current), SenderPlan(r, sender), 0, 3, 6);
    AscendAppend(RoutingPlan(r, current) + SenderPlan(r, sender), DestPlan(r.dest), 0, 6, 9);
  }

  /** The report of a successful run: in the procedure's order, each stage that the request asks for once. */
  lemma SuccessReport(r: Request, store: Store, left: nat, blind: set<Slot>)
    requires Configure(r, Progress(store, left, []), blind).1.Done?
    ensures var steps := Configure(r, Progress(store, left, []), blind).0.steps;
            && Ascending(steps) && Reported(steps, AdapterStep) && Reported(steps, RouteStep) && Reported(steps, OptionsStep)
            && (r.source.setDefaultBridge ==> Reported(steps, BridgeStep))
            && (r.source.composeGas > 0 && r.composeGasMethod ==> Reported(steps, ComposeStep))
            && (r.source.registerDelegate ==> Reported(steps, DelegateStep))
            && (r.source.authorizeVault ==> Reported(steps, SourceVaultStep))
            && (WantsDestination(r.dest) ==> Reported(steps, PeerStep))
            && (r.dest.authorizeVault ==> Reported(steps, DestVaultStep))
            && (r.dest.authorizeGateway ==> Reported(steps, DestGatewayStep))
  {
    var current := ReadNum(store, AdapterSlot(r));
    SuccessAccepts(r, Progress(store, left, []), blind);
    PlanAscends(r, current);
    ReportAscends(Plan(r, current), Progress(store, left, []), blind);
    var steps := Configure(r, Progress(store, left, []), blind).0.steps;
    assert Complete(r, current, steps) by {
      forall part: seq<Action> | IsPart(r, current, part) && part != [] && (part[0].Ensure? || part[0].Note?)
        ensures Reported(steps, part[0].name)
      {
        FirstInPlan(r, current, part);
      }
    }
    SourceReport(r, current, steps);
    SenderReport(r, current, steps);
    DestinationReport(r, current, steps);
  }

  /** Every part that writes or notes is in the report. */
  ghost predicate Complete(r: Request, current: Address, steps: seq<Step>) {
    forall part: seq<Action> :: IsPart(r, current, part) && part != [] && (part[0].Ensure? || part[0].Note?) ==>
      Reported(steps, part[0].name)
  }

  lemma SourceReport(r: Request, current: Address, steps: seq<Step>)
    requires Acceptable(r, current) && Complete(r, current, steps)
    ensures Reported(steps, AdapterStep) && Reported(steps, RouteStep) && Reported(steps, OptionsStep)
    ensures r.source.setDefaultBridge ==> Reported(steps, BridgeStep)
  {
    var sender := Sender(r, current);
    assert IsPart(r, current, RegisterPart(r, current)) && IsPart(r, current, BridgePart(r));
    assert IsPart(r, current, RoutePart(r, sender)) && IsPart(r, current, OptionsPart(r, sender));
  }

  lemma SenderReport(r: Request, current: Address, steps: seq<Step>)
    requires Acceptable(r, current) && Complete(r, current, steps)
    ensures r.source.composeGas > 0 && r.composeGasMethod ==> Reported(steps, ComposeStep)
    ensures r.source.registerDelegate ==> Reported(steps, DelegateStep)
    ensures r.source.authorizeVault ==> Reported(steps, SourceVaultStep)
  {
    var sender := Sender(r, current);
    assert IsPart(r, current, ComposePart(r, sender)) && IsPart(r, current, DelegatePart(r, sender));
    assert IsPart(r, current, VaultPart(r, sender));
  }

  lemma DestinationReport(r: Request, current: Address, steps: seq<Step>)
    requires Acceptable(r, current) && Complete(r, current, steps)
    ensures WantsDestination(r.dest) ==> Reported(steps, PeerStep)
    ensures r.dest.authorizeVault ==> Reported(steps, DestVaultStep)
    ensures r.dest.authorizeGateway ==> Reported(steps, DestGatewayStep)
  {
    var d := r.dest;
    assert IsPart(r, current, ReceiverPart(d)) && IsPart(r, current, DestVaultPart(d)) && IsPart(r, current, DestGatewayPart(d));
  }

  predicate IsPart(r: Request, current: Address, part: seq<Action>) {
    var sender, d := Sender(r, current), r.dest;
    || part == RegisterPart(r, current) || part == BridgePart(r) || part == RoutePart(r, sender)
    || part == OptionsPart(r, sender) || part == ComposePart(r, sender) || part == DelegatePart(r, sender)
    || part == VaultPart(r, sender) || part == ReceiverPart(d) || part == DestVaultPart(d) || part == DestGatewayPart(d)
  }

  lemma FirstInPlan(r: Request, current: Address, part: seq<Action>)
    requires IsPart(r, current, part)
    ensures part != [] ==> part[0] in Plan(r, current)
  {
    if part != [] {
      assert part[0] in part;
      PlanMembers(r, current, part[0]);
    }
  }

  /**
   A stage that writes is skipped, and then writes nothing, exactly when its text compares and each of its
   cells can be read and holds the wanted value; otherwise it sends one transaction that sets all of them.
   */
  lemma StageSkipsIff(name: StepName, want: Store, comparable: bool, p: Progress, blind: set<Slot>)
    ensures var (p1, stop) := Perform(Ensure(name, want, comparable), p, blind);
            if comparable && forall slot :: slot in want ==> slot !in blind && Read(p.store, slot) == want[slot]
            then stop.Done? && p1 == Progress(p.store, p.left, p.steps + [Skipped(name)])
            else if p.left == 0 then stop == TxFailed(name) && p1 == p
            else stop.Done? && p1.left == p.left - 1 && p1.steps == p.steps + [Sent(name)]
                 && forall slot :: Read(p1.store, slot) == if slot in want then want[slot] else Read(p.store, slot)
  {
  }
}
