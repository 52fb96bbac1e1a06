/**
 The client factory of internal/infrastructure/blockchain/client_factory.go: `GetEVMClient` looks a
 URL up under the read lock and, on a miss, again under the write lock before it dials. Any number
 of threads call it, one memory or lock operation at a time; `RegisterEVMClient` may overwrite.
 */
module ClientFactory {
  import opened Wrappers

  type Url = string
  type Client = nat
  type Thread = nat // one goroutine for each call, numbered in the order the calls begin

  /** Where a call is inside GetEVMClient; the last place is past both locks. */
  datatype Pc =
    | WantRead(url: Url)
    | Reading(url: Url)
    | Looked(url: Url, hit: Option<Client>)
    | WantWrite(url: Url)
    | Checking(url: Url)
    | Dialing(url: Url)
    | Storing(url: Url, client: Client)
    | Leaving(url: Url, result: Option<Client>)
    | Returning(url: Url, result: Option<Client>)

  /** A client and the URL it was dialled for. */
  datatype Made = Made(url: Url, client: Client)

  /** A finished call and what it returned, None for an error. */
  datatype Returned = Returned(call: Thread, url: Url, result: Option<Client>)

  datatype State = State(
    clients: map<Url, Client>,
    calls: nat,
    pcs: map<Thread, Pc>,
    writer: Option<Thread>,
    made: seq<Made>,
    returned: seq<Returned>)

  datatype Step =
    | Call(url: Url)
    | Advance(t: Thread, dialOk: bool)
    | Register(url: Url, client: Client)

  predicate HoldsRead(pc: Pc) { pc.Reading? || pc.Looked? }

  predicate HoldsWrite(pc: Pc) { pc.Checking? || pc.Dialing? || pc.Storing? || pc.Leaving? }

  predicate Free(s: State) { s.writer.None? && NoReader(s) }

  predicate NoReader(s: State) { forall t :: t in s.pcs ==> !HoldsRead(s.pcs[t]) }

  function Lookup(m: map<Url, Client>, url: Url): Option<Client> { if url in m then Some(m[url]) else None }

  function Goto(s: State, t: Thread, pc: Pc): State { s.(pcs := s.pcs[t := pc]) }

  function Return(s: State, t: Thread, url: Url, result: Option<Client>): State {
    s.(pcs := s.pcs - {t}, returned := s.returned + [Returned(t, url, result)])
  }

  /** The next operation of a thread that is at `pc`; one that must wait for the lock stays. */
  function Next(s: State, t: Thread, pc: Pc, dialOk: bool): State {
    match pc
    case WantRead(url) => if s.writer.None? then Goto(s, t, Reading(url)) else s
    case Reading(url) => Goto(s, t, Looked(url, Lookup(s.clients, url)))
    case Looked(url, hit) => Goto(s, t, if hit.Some? then Returning(url, hit) else WantWrite(url))
    case WantWrite(url) => if Free(s) then Goto(s, t, Checking(url)).(writer := Some(t)) else s
    case Checking(url) => Goto(s, t, if url in s.clients then Leaving(url, Some(s.clients[url])) else Dialing(url))
    case Dialing(url) =>
      if !dialOk then Goto(s, t, Leaving(url, None))
      else Goto(s, t, Storing(url, |s.made|)).(made := s.made + [Made(url, |s.made|)])
    case Storing(url, client) => Goto(s, t, Leaving(url, Some(client))).(clients := s.clients[url := client])
    case Leaving(url, result) => Goto(s, t, Returning(url, result)).(writer := None)
    case Returning(url, result) => Return(s, t, url, result)
  }

  function Apply(s: State, step: Step): State {
    match step
    case Call(url) => Goto(s, s.calls, WantRead(url)).(calls := s.calls + 1)
    case Advance(t, dialOk) => if t in s.pcs then Next(s, t, s.pcs[t], dialOk) else s
    case Register(url, client) => if Free(s) then s.(clients := s.clients[url := client]) else s
  }

  function Run(s: State, steps: seq<Step>): State
    decreases steps
  {
    if steps == [] then s else Run(Apply(s, steps[0]), steps[1..])
  }

  const INIT: State := State(map[], 0, map[], None, [], [])

  // -------------------------------------------------------------------- the lock

  /** The write lock's holder is the only thread past it, and no reader is inside with it. */
  ghost predicate Locked(s: State) {
    && (forall t :: t in s.pcs ==> (HoldsWrite(s.pcs[t]) <==> s.writer == Some(t)))
    && (s.writer.Some? ==> s.writer.value in s.pcs && NoReader(s))
    && (forall t :: t in s.pcs ==> t < s.calls)
  }

  lemma StepKeepsLocked(s: State, step: Step)
    requires Locked(s)
    ensures Locked(Apply(s, step))
  {
  }

  // ------------------------------------------------------------------ one per URL

  predicate Storer(s: State, t: Thread, m: Made) {
    t in s.pcs && s.pcs[t] == Storing(m.url, m.client)
  }

  /** The client is in the map's reach: its URL has an entry, or it is about to get one. */
  ghost predicate Placed(s: State, m: Made) {
    m.url in s.clients || exists t :: Storer(s, t, m)
  }

  ghost predicate Single(s: State) {
    && (forall i :: 0 <= i < |s.made| ==> Placed(s, s.made[i]))
    && (forall i, j :: 0 <= i < j < |s.made| ==> s.made[i].url != s.made[j].url)
    && (forall t :: t in s.pcs && (s.pcs[t].Dialing? || s.pcs[t].Storing?) ==> s.pcs[t].url !in s.clients)
  }

  lemma PlacedStays(s: State, step: Step, m: Made)
    requires Locked(s) && Placed(s, m)
    ensures Placed(Apply(s, step), m)
  {
    var s' := Apply(s, step);
    if m.url !in s'.clients {
      var t :| Storer(s, t, m);
      assert Storer(s', t, m);
    }
  }

  lemma StepKeepsSingle(s: State, step: Step)
    requires Locked(s) && Single(s)
    ensures Single(Apply(s, step))
  {
    var s' := Apply(s, step);
    forall i | 0 <= i < |s'.made| ensures Placed(s', s'.made[i]) {
      if i < |s.made| {
        PlacedStays(s, step, s.made[i]);
      } else {
        assert Storer(s', step.t, s'.made[i]);
      }
    }
    forall i, j | 0 <= i < j < |s'.made| ensures s'.made[i].url != s'.made[j].url {
      if j == |s.made| {
        assert Placed(s, s.made[i]);
      }
    }
  }

  // ---------------------------------------------------- one answer per unregistered URL

  /** The client was made for the URL. */
  ghost predicate IsMade(s: State, url: Url, client: Client) {
    exists i :: 0 <= i < |s.made| && s.made[i] == Made(url, client)
  }

  ghost predicate OwnAt(s: State, url: Url, pc: Pc) {
    match pc
    case Looked(_, hit) => hit.Some? ==> IsMade(s, url, hit.value)
    case Storing(_, client) => IsMade(s, url, client)
    case Leaving(_, result) => result.Some? ==> IsMade(s, url, result.value)
    case Returning(_, result) => result.Some? ==> IsMade(s, url, result.value)
    case _ => true
  }

  /** Whatever the factory stores, finds or has returned for the URL was made for it. */
  ghost predicate Own(s: State, url: Url) {
    && (url in s.clients ==> IsMade(s, url, s.clients[url]))
    && (forall t :: t in s.pcs && s.pcs[t].url == url ==> OwnAt(s, url, s.pcs[t]))
    && (forall i :: 0 <= i < |s.returned| && s.returned[i].url == url && s.returned[i].result.Some? ==>
          IsMade(s, url, s.returned[i].result.value))
  }

  predicate Registers(step: Step, url: Url) { step.Register? && step.url == url }

  lemma MadeStays(s: State, step: Step)
    ensures s.made <= Apply(s, step).made
    ensures forall url, client :: IsMade(s, url, client) ==> IsMade(Apply(s, step), url, client)
  {
    var s' := Apply(s, step);
    forall url, client | IsMade(s, url, client) ensures IsMade(s', url, client) {
      var i :| 0 <= i < |s.made| && s.made[i] == Made(url, client);
      assert s'.made[i] == s.made[i];
    }
  }

  lemma StepKeepsOwnPcs(s: State, step: Step, url: Url, t: Thread)
    requires Own(s, url) && t in Apply(s, step).pcs && Apply(s, step).pcs[t].url == url
    ensures OwnAt(Apply(s, step), url, Apply(s, step).pcs[t])
  {
    var s' := Apply(s, step);
    MadeStays(s, step);
    if |s'.made| > |s.made| {
      assert s'.made[|s.made|] == Made(s.pcs[step.t].url, |s.made|);
    }
  }

  lemma StepKeepsOwnResults(s: State, step: Step, url: Url, i: nat)
    requires Own(s, url)
    requires i < |Apply(s, step).returned| && Apply(s, step).returned[i].url == url && Apply(s, step).returned[i].result.Some?
    ensures IsMade(Apply(s, step), url, Apply(s, step).returned[i].result.value)
  {
    MadeStays(s, step);
  }

  lemma StepKeepsOwn(s: State, step: Step, url: Url)
    requires Own(s, url) && !Registers(step, url)
    ensures Own(Apply(s, step), url)
  {
    var s' := Apply(s, step);
    MadeStays(s, step);
    forall t | t in s'.pcs && s'.pcs[t].url == url ensures OwnAt(s', url, s'.pcs[t]) {
      StepKeepsOwnPcs(s, step, url, t);
    }
    forall i | 0 <= i < |s'.returned| && s'.returned[i].url == url && s'.returned[i].result.Some?
      ensures IsMade(s', url, s'.returned[i].result.value)
    {
      StepKeepsOwnResults(s, step, url, i);
    }
  }

  ghost predicate Inv(s: State) { Locked(s) && Single(s) }

  lemma {:induction false} RunKeepsInv(s: State, steps: seq<Step>)
    requires Inv(s)
    ensures Inv(Run(s, steps))
    decreases steps
  {
    if steps != [] {
      StepKeepsLocked(s, steps[0]);
      StepKeepsSingle(s, steps[0]);
      RunKeepsInv(Apply(s, steps[0]), steps[1..]);
    }
  }

  lemma {:induction false} RunKeepsOwn(s: State, steps: seq<Step>, url: Url)
    requires Own(s, url) && forall i :: 0 <= i < |steps| ==> !Registers(steps[i], url)
    ensures Own(Run(s, steps), url)
    decreases steps
  {
    if steps != [] {
      StepKeepsOwn(s, steps[0], url);
      RunKeepsOwn(Apply(s, steps[0]), steps[1..], url);
    }
  }

  /** Over every interleaving, registrations included, no URL is dialled successfully twice. */
  lemma AtMostOneClientPerUrl(steps: seq<Step>, i: nat, j: nat)
    requires var made := Run(INIT, steps).made; i < j < |made|
    ensures Run(INIT, steps).made[i].url != Run(INIT, steps).made[j].url
  {
    RunKeepsInv(INIT, steps);
  }

  /** Over every interleaving without a registration of the URL, all successful calls return one client. */
  lemma EveryCallReturnsTheOneClient(steps: seq<Step>, url: Url, i: nat, j: nat)
    requires forall k :: 0 <= k < |steps| ==> !Registers(steps[k], url)
    requires var returned := Run(INIT, steps).returned;
             && i < |returned| && returned[i].url == url && returned[i].result.Some?
             && j < |returned| && returned[j].url == url && returned[j].result.Some?
    ensures var s := Run(INIT, steps);
            s.returned[i].result == s.returned[j].result && IsMade(s, url, s.returned[i].result.value)
  {
    var s := Run(INIT, steps);
    RunKeepsInv(INIT, steps);
    RunKeepsOwn(INIT, steps, url);
    var a :| 0 <= a < |s.made| && s.made[a] == Made(url, s.returned[i].result.value);
    var b :| 0 <= b < |s.made| && s.made[b] == Made(url, s.returned[j].result.value);
    assert a == b;
  }

  /** A call that may go on even where a waiting writer holds new readers back, as Go's lock does. */
  ghost predicate CanMove(s: State, t: Thread) {
    && t in s.pcs && Apply(s, Advance(t, true)) != s
    && (s.pcs[t].WantRead? ==> forall v :: v in s.pcs ==> !s.pcs[v].WantWrite?)
  }

  /**
   Some call can always go on: the two lock acquisitions never deadlock. The steps let a reader pass a
   waiting writer, which Go's lock does not, so every run of the code is among them; this holds of both.
   */
  lemma NeverStuck(s: State, t: Thread)
    requires Locked(s) && t in s.pcs
    ensures exists u: Thread :: CanMove(s, u)
  {
    if s.writer.Some? {
      assert CanMove(s, s.writer.value);
    } else if !NoReader(s) {
      var r :| r in s.pcs && HoldsRead(s.pcs[r]);
      assert CanMove(s, r);
    } else if v :| v in s.pcs && s.pcs[v].WantWrite? {
      assert CanMove(s, v);
    } else {
      assert CanMove(s, t);
    }
  }

  // ------------------------------------------------------------ calls and registrations

  /** Calls are numbered as they begin, and each returns once. */
  ghost predicate Numbered(s: State) {
    && (forall t :: t in s.pcs ==> t < s.calls)
    && (forall i :: 0 <= i < |s.returned| ==> s.returned[i].call < s.calls && s.returned[i].call !in s.pcs)
    && (forall i, j :: 0 <= i < j < |s.returned| ==> s.returned[i].call != s.returned[j].call)
  }

  lemma StepKeepsNumbered(s: State, step: Step)
    requires Numbered(s)
    ensures Numbered(Apply(s, step))
  {
  }

  lemma {:induction false} RunKeepsNumbered(s: State, steps: seq<Step>)
    requires Numbered(s)
    ensures Numbered(Run(s, steps))
    decreases steps
  {
    if steps != [] {
      StepKeepsNumbered(s, steps[0]);
      RunKeepsNumbered(Apply(s, steps[0]), steps[1..]);
    }
  }

  /** Where a call that begins after the entry is there can be. */
  predicate Served(pc: Pc, client: Client) {
    match pc
    case WantRead(_) => true
    case Reading(_) => true
    case Looked(_, hit) => hit == Some(client)
    case Returning(_, result) => result == Some(client)
    case _ => false
  }

  /** The entry is this client, and every call on the URL from number `from` on is served it. */
  ghost predicate Serves(s: State, url: Url, client: Client, from: nat) {
    && url in s.clients && s.clients[url] == client && from <= s.calls
    && (forall t :: t in s.pcs && s.pcs[t].url == url ==> !s.pcs[t].Dialing? && !s.pcs[t].Storing?)
    && (forall t :: t in s.pcs && s.pcs[t].url == url && t >= from ==> Served(s.pcs[t], client))
    && (forall i :: 0 <= i < |s.returned| && s.returned[i].url == url && s.returned[i].call >= from ==>
          s.returned[i].result == Some(client))
  }

  lemma StepKeepsServes(s: State, step: Step, url: Url, client: Client, from: nat)
    requires Serves(s, url, client, from) && !Registers(step, url)
    ensures Serves(Apply(s, step), url, client, from)
  {
  }

  lemma {:induction false} RunKeepsServes(s: State, steps: seq<Step>, url: Url, client: Client, from: nat)
    requires Serves(s, url, client, from) && forall k :: 0 <= k < |steps| ==> !Registers(steps[k], url)
    ensures Serves(Run(s, steps), url, client, from)
    decreases steps
  {
    if steps != [] {
      StepKeepsServes(s, steps[0], url, client, from);
      RunKeepsServes(Apply(s, steps[0]), steps[1..], url, client, from);
    }
  }

  /**
   Over every interleaving: once a registration takes effect, every call on the URL that begins
   afterwards returns the registered client and no error, until the URL is registered again.
   */
  lemma RegisteredIsReturned(before: seq<Step>, url: Url, client: Client, after: seq<Step>, i: nat)
    requires Free(Run(INIT, before)) && forall k :: 0 <= k < |after| ==> !Registers(after[k], url)
    requires var registered := Apply(Run(INIT, before), Register(url, client));
             var returned := Run(registered, after).returned;
             i < |returned| && returned[i].url == url && returned[i].call >= registered.calls
    ensures Run(Apply(Run(INIT, before), Register(url, client)), after).returned[i].result == Some(client)
  {
    var s := Run(INIT, before);
    RunKeepsInv(INIT, before);
    RunKeepsNumbered(INIT, before);
    var registered := Apply(s, Register(url, client));
    assert Serves(registered, url, client, registered.calls);
    RunKeepsServes(registered, after, url, client, registered.calls);
  }

  /** The client a call has settled on. */
  function Answer(s: State, t: Thread): Option<Client> {
    if t !in s.pcs then None
    else match s.pcs[t]
      case Looked(_, hit) => hit
      case Leaving(_, result) => result
      case Returning(_, result) => result
      case _ => None
  }

  /** The step by which a call reads its answer from the map, or puts it there. */
  predicate Takes(s: State, step: Step) {
    step.Advance? && step.t in s.pcs && Answer(s, step.t).None? && Answer(Apply(s, step), step.t).Some?
  }

  lemma TakesTheEntry(s: State, step: Step)
    requires Takes(s, step)
    ensures var s', url := Apply(s, step), s.pcs[step.t].url;
            && step.t in s'.pcs && s'.pcs[step.t].url == url
            && url in s'.clients && Answer(s', step.t) == Some(s'.clients[url])
  {
  }

  predicate Finished(s: State, t: Thread, result: Option<Client>) {
    exists i :: 0 <= i < |s.returned| && s.returned[i].call == t && s.returned[i].result == result
  }

  lemma AnswerStays(s: State, step: Step, t: Thread, client: Client)
    requires Numbered(s) && (Answer(s, t) == Some(client) || Finished(s, t, Some(client)))
    ensures Answer(Apply(s, step), t) == Some(client) || Finished(Apply(s, step), t, Some(client))
  {
    var s' := Apply(s, step);
    if i :| 0 <= i < |s.returned| && s.returned[i].call == t && s.returned[i].result == Some(client) {
      assert s'.returned[i] == s.returned[i];
    } else if |s'.returned| > |s.returned| && step.t == t {
      assert s'.returned[|s.returned|].call == t;
    }
  }

  lemma {:induction false} AnswerIsReturned(s: State, steps: seq<Step>, t: Thread, client: Client)
    requires Numbered(s) && (Answer(s, t) == Some(client) || Finished(s, t, Some(client)))
    ensures Answer(Run(s, steps), t) == Some(client) || Finished(Run(s, steps), t, Some(client))
    decreases steps
  {
    if steps != [] {
      StepKeepsNumbered(s, steps[0]);
      AnswerStays(s, steps[0], t, client);
      AnswerIsReturned(Apply(s, steps[0]), steps[1..], t, client);
    }
  }

  /** The client of the last registration of the URL that took effect. */
  function LastRegistered(s: State, steps: seq<Step>, url: Url): Option<Client>
    decreases steps
  {
    if steps == [] then None
    else
      var later := LastRegistered(Apply(s, steps[0]), steps[1..], url);
      if later.Some? then later else if Registers(steps[0], url) && Free(s) then Some(steps[0].client) else None
  }

  lemma EntryAfterStep(s: State, step: Step, url: Url)
    requires Inv(s) && url in s.clients
    ensures url in Apply(s, step).clients
    ensures Apply(s, step).clients[url] == if Registers(step, url) && Free(s) then step.client else s.clients[url]
  {
  }

  /** An entry changes by registration only. */
  lemma {:induction false} EntryAfter(s: State, steps: seq<Step>, url: Url)
    requires Inv(s) && url in s.clients
    ensures url in Run(s, steps).clients
    ensures var last := LastRegistered(s, steps, url);
            Run(s, steps).clients[url] == if last.Some? then last.value else s.clients[url]
    decreases steps
  {
    if steps != [] {
      StepKeepsLocked(s, steps[0]);
      StepKeepsSingle(s, steps[0]);
      EntryAfterStep(s, steps[0], url);
      EntryAfter(Apply(s, steps[0]), steps[1..], url);
    }
  }

  lemma ReturnsItsAnswer(s: State, steps: seq<Step>, t: Thread, client: Client, i: nat)
    requires Numbered(s) && Answer(s, t) == Some(client)
    requires i < |Run(s, steps).returned| && Run(s, steps).returned[i].call == t
    ensures Run(s, steps).returned[i].result == Some(client)
  {
    RunKeepsNumbered(s, steps);
    AnswerIsReturned(s, steps, t, client);
    OnlyResult(Run(s, steps), t, Some(client), i);
  }

  lemma OnlyResult(s: State, t: Thread, result: Option<Client>, i: nat)
    requires Numbered(s) && i < |s.returned| && s.returned[i].call == t
    requires Answer(s, t) == result || Finished(s, t, result)
    ensures result.Some? ==> s.returned[i].result == result
  {
  }

  lemma {:induction false} RunAppend(s: State, a: seq<Step>, b: seq<Step>)
    ensures Run(s, a + b) == Run(Run(s, a), b)
    decreases a
  {
    if a == [] {
      assert a + b == b;
    } else {
      assert (a + b)[1..] == a[1..] + b;
      RunAppend(Apply(s, a[0]), a[1..], b);
    }
  }

  /** What holds of every reachable state. */
  ghost predicate Reachable(s: State) { Inv(s) && Numbered(s) }

  lemma RunIsReachable(s: State, steps: seq<Step>)
    requires Reachable(s)
    ensures Reachable(Run(s, steps))
  {
    RunKeepsInv(s, steps);
    RunKeepsNumbered(s, steps);
  }

  lemma StepIsReachable(s: State, step: Step)
    requires Reachable(s)
    ensures Reachable(Apply(s, step))
  {
    StepKeepsLocked(s, step);
    StepKeepsSingle(s, step);
    StepKeepsNumbered(s, step);
  }

  /**
   Two successful calls on a URL, over every interleaving: they return different clients exactly when,
   between the moments at which they take their answers, the URL was registered and the last such
   registration that took effect was of a client other than the first call's.
   */
  lemma CallsDifferIff(before: seq<Step>, a: Step, between: seq<Step>, b: Step, after: seq<Step>, i: nat, j: nat)
    requires var s1 := Run(INIT, before);
             var s2 := Run(Apply(s1, a), between);
             var returned := Run(Apply(s2, b), after).returned;
             && Takes(s1, a) && Takes(s2, b) && s1.pcs[a.t].url == s2.pcs[b.t].url
             && i < |returned| && returned[i].call == a.t && j < |returned| && returned[j].call == b.t
    ensures var s1 := Run(INIT, before);
            var s1' := Apply(s1, a);
            var url := s1.pcs[a.t].url;
            var returned := Run(Apply(Run(s1', between), b), after).returned;
            var last := LastRegistered(s1', between, url);
            && returned[i].result.Some? && returned[j].result.Some?
            && (returned[i].result != returned[j].result <==> last.Some? && last != returned[i].result)
  {
    var s1 := Run(INIT, before);
    RunIsReachable(INIT, before);
    var s1' := Apply(s1, a);
    StepIsReachable(s1, a);
    TakesTheEntry(s1, a);
    var s2 := Run(s1', between);
    RunIsReachable(s1', between);
    var s2' := Apply(s2, b);
    StepIsReachable(s2, b);
    TakesTheEntry(s2, b);
    var url := s1.pcs[a.t].url;
    EntryAfter(s1', between, url);
    EntryAfterStep(s2, b, url);
    RunAround(s1', between, b, after);
    ReturnsItsAnswer(s1', between + [b] + after, a.t, s1'.clients[url], i);
    ReturnsItsAnswer(s2', after, b.t, s2'.clients[url], j);
  }

  lemma RunAround(s: State, before: seq<Step>, step: Step, after: seq<Step>)
    ensures Run(s, before + [step] + after) == Run(Apply(Run(s, before), step), after)
  {
    RunAppend(s, before + [step], after);
    RunAppend(s, before, [step]);
    assert [step][1..] == [];
  }

  /** A call has an answer, or has returned one. */
  ghost predicate Answered(s: State, t: Thread) {
    Answer(s, t).Some? || exists i :: 0 <= i < |s.returned| && s.returned[i].call == t && s.returned[i].result.Some?
  }

  lemma AnsweredByTaking(s: State, step: Step, t: Thread)
    requires Numbered(s) && !Answered(s, t) && Answered(Apply(s, step), t)
    ensures Takes(s, step) && step.t == t
  {
    var s' := Apply(s, step);
    assert forall i :: 0 <= i < |s.returned| ==> s'.returned[i] == s.returned[i];
  }

  lemma {:induction false} AnsweredAtSomeStep(steps: seq<Step>, t: Thread)
    requires Answered(Run(INIT, steps), t)
    ensures exists k :: 0 <= k < |steps| && Takes(Run(INIT, steps[..k]), steps[k]) && steps[k].t == t
  {
    if steps != [] {
      var n := |steps| - 1;
      var front := steps[..n];
      assert steps == front + [steps[n]];
      RunAppend(INIT, front, [steps[n]]);
      assert [steps[n]][1..] == [];
      assert Run(INIT, steps) == Apply(Run(INIT, front), steps[n]);
      if Answered(Run(INIT, front), t) {
        AnsweredAtSomeStep(front, t);
        var k :| 0 <= k < |front| && Takes(Run(INIT, front[..k]), front[k]) && front[k].t == t;
        assert front[..k] == steps[..k];
      } else {
        RunKeepsNumbered(INIT, front);
        AnsweredByTaking(Run(INIT, front), steps[n], t);
      }
    }
  }

  /** Every call that returns a client took it at some step, so the comparison covers all successful calls. */
  lemma EverySuccessTakes(steps: seq<Step>, i: nat)
    requires i < |Run(INIT, steps).returned| && Run(INIT, steps).returned[i].result.Some?
    ensures exists k :: 0 <= k < |steps| && Takes(Run(INIT, steps[..k]), steps[k]) && steps[k].t == Run(INIT, steps).returned[i].call
  {
    AnsweredAtSomeStep(steps, Run(INIT, steps).returned[i].call);
  }

  function LoneCall(s: State, url: Url): seq<Step> {
    var step := Advance(s.calls, true);
    [Call(url), step, step, step, step]
  }

  lemma LoneHit(s: State, url: Url)
    requires s.pcs == map[] && s.writer.None? && url in s.clients
    ensures Run(s, LoneCall(s, url)) ==
            s.(calls := s.calls + 1, returned := s.returned + [Returned(s.calls, url, Some(s.clients[url]))])
  {
    var t, b := s.calls, Advance(s.calls, true);
    RunFive(s, Call(url), b);
    var called := s.(calls := t + 1, pcs := map[t := WantRead(url)]);
    assert Apply(s, Call(url)) == called;
    ReadSteps(called, t, url);
    ReturnSteps(called.(pcs := map[t := Looked(url, Some(s.clients[url]))]), t, url);
  }

  lemma ReadSteps(s: State, t: Thread, url: Url)
    requires s.pcs == map[t := WantRead(url)] && s.writer.None? && url in s.clients
    ensures Apply(Apply(s, Advance(t, true)), Advance(t, true)) == s.(pcs := map[t := Looked(url, Some(s.clients[url]))])
  {
    assert Apply(s, Advance(t, true)).pcs == map[t := Reading(url)];
  }

  lemma ReturnSteps(s: State, t: Thread, url: Url)
    requires s.pcs.Keys == {t} && s.pcs[t].Looked? && s.pcs[t].hit.Some?
    ensures Apply(Apply(s, Advance(t, true)), Advance(t, true)) ==
            s.(pcs := map[], returned := s.returned + [Returned(t, s.pcs[t].url, s.pcs[t].hit)])
  {
    assert Apply(s, Advance(t, true)).pcs == map[t := Returning(s.pcs[t].url, s.pcs[t].hit)];
  }

  lemma RunFive(s: State, a: Step, b: Step)
    ensures Run(s, [a, b, b, b, b]) == Apply(Apply(Apply(Apply(Apply(s, a), b), b), b), b)
  {
    var s1 := Apply(s, a);
    RunAround(s, [], a, [b, b, b, b]);
    RunAround(s1, [], b, [b, b, b]);
    RunAround(Apply(s1, b), [], b, [b, b]);
    RunAround(Apply(Apply(s1, b), b), [], b, [b]);
    RunAround(Apply(Apply(Apply(s1, b), b), b), [], b, []);
    assert [] + [a] + [b, b, b, b] == [a, b, b, b, b] && [] + [b] + [b, b, b] == [b, b, b, b];
    assert [] + [b] + [b, b] == [b, b, b] && [] + [b] + [b] == [b, b] && [] + [b] + [] == [b];
  }

  /** Registering is what breaks it: registrations of two clients make two calls disagree. */
  lemma RegistrationChangesAnswers(url: Url, first: Client, second: Client)
    requires first != second
    ensures var s1 := Apply(INIT, Register(url, first));
            var s2 := Run(s1, LoneCall(s1, url));
            var s3 := Apply(s2, Register(url, second));
            Run(s3, LoneCall(s3, url)).returned == [Returned(0, url, Some(first)), Returned(1, url, Some(second))]
  {
    var s1 := Apply(INIT, Register(url, first));
    LoneHit(s1, url);
    LoneHit(Apply(Run(s1, LoneCall(s1, url)), Register(url, second)), url);
  }

  /** A call alone on a URL without an entry dials: it returns the new client, or an error that leaves no entry. */
  lemma LoneDial(s: State, url: Url, dialOk: bool)
    requires s.pcs == map[] && s.writer.None? && url !in s.clients
    ensures var t, new_ := s.calls, |s.made|;
            var step := Advance(t, dialOk);
            var looked := Apply(Apply(Apply(Apply(s, Call(url)), step), step), step);
            var dialled := Apply(Apply(Apply(looked, step), step), step);
            if dialOk
            then Apply(Apply(Apply(dialled, step), step), step) ==
                 State(s.clients[url := new_], t + 1, map[], None, s.made + [Made(url, new_)], s.returned + [Returned(t, url, Some(new_))])
            else Apply(Apply(dialled, step), step) ==
                 State(s.clients, t + 1, map[], None, s.made, s.returned + [Returned(t, url, None)])
  {
    var t := s.calls;
    var step := Advance(t, dialOk);
    var a := Apply(s, Call(url));
    assert a.pcs == map[t := WantRead(url)];
    var b := Apply(a, step);
    assert b.pcs == map[t := Reading(url)];
    var c := Apply(b, step);
    assert c.pcs == map[t := Looked(url, None)];
    var d := Apply(c, step);
    assert d.pcs == map[t := WantWrite(url)];
    var e := Apply(d, step);
    assert e.pcs == map[t := Checking(url)];
    var f := Apply(e, step);
    assert f.pcs == map[t := Dialing(url)];
    DialEnds(f, t, url, dialOk);
  }

  lemma DialEnds(f: State, t: Thread, url: Url, dialOk: bool)
    requires f.pcs == map[t := Dialing(url)] && f.writer == Some(t)
    ensures var step := Advance(t, dialOk);
            var g := Apply(f, step);
            if dialOk
            then Apply(Apply(Apply(g, step), step), step) ==
                 State(f.clients[url := |f.made|], f.calls, map[], None, f.made + [Made(url, |f.made|)], f.returned + [Returned(t, url, Some(|f.made|))])
            else Apply(Apply(g, step), step) == State(f.clients, f.calls, map[], None, f.made, f.returned + [Returned(t, url, None)])
  {
    var step := Advance(t, dialOk);
    var g := Apply(f, step);
    if dialOk {
      assert g.pcs == map[t := Storing(url, |f.made|)];
      var h := Apply(g, step);
      assert h.pcs == map[t := Leaving(url, Some(|f.made|))];
      assert Apply(h, step).pcs == map[t := Returning(url, Some(|f.made|))];
      assert Apply(Apply(h, step), step).pcs == map[];
    } else {
      assert g.pcs == map[t := Leaving(url, None)];
      assert Apply(g, step).pcs == map[t := Returning(url, None)];
      assert Apply(Apply(g, step), step).pcs == map[];
    }
  }
}
