/**
 Quotes and the payment sessions that consume them: `CreateSession` of
 internal/usecases/partner_payment_session_usecase.go in a transaction that locks the quote
 row, the status updates of internal/infrastructure/repositories/partner_payment_session_repo_impl.go,
 and the expiry job of internal/infrastructure/jobs/partner_payment_session_expiry.go, whose
 fetch and update are separate statements. Any number of these run interleaved.
 */
module QuoteSessions {
  import opened Wrappers

  type Id = nat
  type Time = int

  datatype QuoteStatus = Active | Used | Expired | Cancelled

  datatype SessionStatus = Pending | Completed | SessionExpired | Failed | SessionCancelled

  /** A row, and beside it the time at which the transaction that used it committed, which no column holds. */
  datatype Quote = Quote(
    merchant: Id, amount: string, expiresAt: Time, status: QuoteStatus, usedAt: Option<Time>, committedAt: Option<Time>)

  datatype Request = Request(merchant: Id, amount: string, expiresAt: Time)

  datatype Session = Session(
    quote: Id, request: Id, merchant: Id, amount: string, expiresAt: Time, createdAt: Time, status: SessionStatus)

  /** A transaction past its checks: the rows it will insert, and the used_at it has written, seen once it commits. */
  datatype Tx = Tx(sessionId: Id, session: Session, request: Request, marked: Option<Time>)

  /** Committed rows, the open transactions by locked quote, and the id batches expiry jobs have fetched. */
  datatype State = State(
    now: Time, quotes: map<Id, Quote>, sessions: map<Id, Session>, requests: map<Id, Request>,
    open: map<Id, Tx>, batches: seq<seq<Id>>)

  const BATCH: nat := 100

  /** The expiry time that means never: the last second of the year 9999. */
  const UNLIMITED: Time := 253402300799

  predicate PastExpiry(q: Quote, now: Time) { q.expiresAt != UNLIMITED && now > q.expiresAt }

  // --------------------------------------------------------------------- steps

  datatype Step =
    | Tick(seconds: nat)
    | CreateQuote(id: Id, merchant: Id, amount: string, expiresAt: Time)
    | Begin(quote: Id, merchant: Id, sessionId: Id, requestId: Id)
    | Mark(quote: Id)
    | Commit(quote: Id)
    | Rollback(quote: Id)
    | Cancel(quote: Id)
    | FetchExpired(ids: seq<Id>)
    | ExpireBatch(index: nat)
    | SetSessionStatus(sessionId: Id, status: SessionStatus)

  /** The checks of CreateSession on the locked row. */
  predicate Usable(s: State, quote: Id, merchant: Id) {
    && quote in s.quotes
    && s.quotes[quote].merchant == merchant
    && s.quotes[quote].status == Active
    && !PastExpiry(s.quotes[quote], s.now)
  }

  /** Generated ids are new to the tables and to every open transaction. */
  predicate FreshIds(s: State, sessionId: Id, requestId: Id) {
    && sessionId !in s.sessions && requestId !in s.requests
    && forall q :: q in s.open ==> s.open[q].sessionId != sessionId && s.open[q].session.request != requestId
  }

  function NewTx(s: State, quote: Id, merchant: Id, sessionId: Id, requestId: Id): Tx
    requires quote in s.quotes
  {
    var q := s.quotes[quote];
    Tx(sessionId, Session(quote, requestId, merchant, q.amount, q.expiresAt, s.now, Pending),
       Request(merchant, q.amount, q.expiresAt), None)
  }

  /** `MarkUsed`, the transaction's last statement, takes the time for used_at. */
  function MarkTx(s: State, quote: Id): State
    requires quote in s.open
  {
    s.(open := s.open[quote := s.open[quote].(marked := Some(s.now))])
  }

  function WithStatus(s: State, sessionId: Id, status: SessionStatus): State
    requires sessionId in s.sessions
  {
    s.(sessions := s.sessions[sessionId := s.sessions[sessionId].(status := status)])
  }

  predicate Committable(s: State, quote: Id) { quote in s.open && quote in s.quotes && s.open[quote].marked.Some? }

  function CommitTx(s: State, quote: Id): State
    requires Committable(s, quote)
  {
    var tx := s.open[quote];
    s.(sessions := s.sessions[tx.sessionId := tx.session],
       requests := s.requests[tx.session.request := tx.request],
       quotes := s.quotes[quote := s.quotes[quote].(status := Used, usedAt := tx.marked, committedAt := Some(s.now))],
       open := s.open - {quote})
  }

  /** `GetExpiredActive`: some active rows past their expiry, at most a batch of them. */
  predicate Fetchable(s: State, ids: seq<Id>) {
    |ids| <= BATCH && forall i :: 0 <= i < |ids| ==>
      ids[i] in s.quotes && s.quotes[ids[i]].status == Active && s.quotes[ids[i]].expiresAt < s.now
  }

  /** `ExpireQuotes`: the status of every listed row, whatever it is by now. */
  function ExpireAll(quotes: map<Id, Quote>, ids: seq<Id>): (r: map<Id, Quote>)
    ensures r.Keys == quotes.Keys
  {
    map id | id in quotes :: if id in ids then quotes[id].(status := Expired) else quotes[id]
  }

  function DropAt<T>(s: seq<T>, i: nat): seq<T>
    requires i < |s|
  {
    s[..i] + s[i + 1..]
  }

  /** One atomic step; a step that is not enabled leaves the state alone. Updates wait for row locks. */
  function Apply(s: State, step: Step): State {
    match step
    case Tick(seconds) => s.(now := s.now + seconds)
    case CreateQuote(id, merchant, amount, expiresAt) =>
      if id in s.quotes then s else s.(quotes := s.quotes[id := Quote(merchant, amount, expiresAt, Active, None, None)])
    case Begin(quote, merchant, sessionId, requestId) =>
      if quote !in s.open && Usable(s, quote, merchant) && FreshIds(s, sessionId, requestId)
      then s.(open := s.open[quote := NewTx(s, quote, merchant, sessionId, requestId)])
      else s
    case Mark(quote) => if quote in s.open && s.open[quote].marked.None? then MarkTx(s, quote) else s
    case Commit(quote) => if Committable(s, quote) then CommitTx(s, quote) else s
    case Rollback(quote) => s.(open := s.open - {quote})
    case Cancel(quote) =>
      if quote in s.quotes && quote !in s.open
      then s.(quotes := s.quotes[quote := s.quotes[quote].(status := Cancelled)])
      else s
    case FetchExpired(ids) => if Fetchable(s, ids) then s.(batches := s.batches + [ids]) else s
    case ExpireBatch(i) =>
      if i < |s.batches| && (forall id :: id in s.batches[i] ==> id !in s.open)
      then s.(quotes := ExpireAll(s.quotes, s.batches[i]), batches := DropAt(s.batches, i))
      else s
    case SetSessionStatus(sessionId, status) =>
      if sessionId in s.sessions then WithStatus(s, sessionId, status) else s
  }

  function Run(s: State, steps: seq<Step>): State
    decreases steps
  {
    if steps == [] then s else Run(Apply(s, steps[0]), steps[1..])
  }

  function Init(now: Time): State { State(now, map[], map[], map[], map[], []) }

  // ----------------------------------------------------------------- invariant

  /** A session agrees with its quote and with its payment request. */
  predicate Matches(ss: Session, q: Quote, r: Request) {
    && ss.merchant == q.merchant == r.merchant
    && ss.amount == q.amount == r.amount
    && ss.expiresAt == q.expiresAt == r.expiresAt
    && (ss.expiresAt == UNLIMITED || ss.createdAt <= ss.expiresAt)
  }

  ghost predicate SessionsOk(s: State) {
    && (forall i :: i in s.sessions ==>
          var ss := s.sessions[i];
          && ss.quote in s.quotes && ss.request in s.requests
          && s.quotes[ss.quote].status != Active && s.quotes[ss.quote].usedAt.Some?
          && Matches(ss, s.quotes[ss.quote], s.requests[ss.request]))
    && (forall i, j :: i in s.sessions && j in s.sessions && i != j ==>
          s.sessions[i].quote != s.sessions[j].quote && s.sessions[i].request != s.sessions[j].request)
  }

  predicate Unused(q: Quote) { q.usedAt == None && q.committedAt == None }

  ghost predicate OpenOk(s: State) {
    && (forall q :: q in s.open ==>
          var tx := s.open[q];
          && q in s.quotes && s.quotes[q].status == Active && Unused(s.quotes[q])
          && tx.session.quote == q && tx.sessionId !in s.sessions && tx.session.request !in s.requests
          && Matches(tx.session, s.quotes[q], tx.request))
    && (forall q, q' :: q in s.open && q' in s.open && q != q' ==>
          s.open[q].sessionId != s.open[q'].sessionId && s.open[q].session.request != s.open[q'].session.request)
  }

  /** A quote was used exactly when some session consumed it, and an active quote never was. */
  ghost predicate UsesOk(s: State) {
    forall q :: q in s.quotes ==>
      && (s.quotes[q].usedAt.Some? ==> exists i :: i in s.sessions && s.sessions[i].quote == q)
      && (s.quotes[q].status == Active ==> Unused(s.quotes[q]))
  }

  ghost predicate Inv(s: State) {
    SessionsOk(s) && OpenOk(s) && UsesOk(s)
  }

  lemma CommitKeepsSessions(s: State, quote: Id)
    requires Inv(s) && Committable(s, quote)
    ensures SessionsOk(CommitTx(s, quote))
  {
    var tx := s.open[quote];
    assert CommitTx(s, quote).sessions[tx.sessionId] == tx.session;
  }

  lemma CommitKeepsOpen(s: State, quote: Id)
    requires Inv(s) && Committable(s, quote)
    ensures OpenOk(CommitTx(s, quote))
  {
  }

  lemma CommitKeepsInv(s: State, quote: Id)
    requires Inv(s) && Committable(s, quote)
    ensures Inv(CommitTx(s, quote))
  {
    CommitKeepsSessions(s, quote);
    CommitKeepsOpen(s, quote);
    var s' := CommitTx(s, quote);
    var tx := s.open[quote];
    forall q | q in s'.quotes && s'.quotes[q].usedAt.Some? ensures exists i :: i in s'.sessions && s'.sessions[i].quote == q {
      if q == quote {
        assert tx.sessionId in s'.sessions && s'.sessions[tx.sessionId].quote == q;
      } else {
        var i :| i in s.sessions && s.sessions[i].quote == q;
        assert i in s'.sessions && s'.sessions[i].quote == q;
      }
    }
  }

  lemma StatusKeepsSessions(s: State, sessionId: Id, status: SessionStatus)
    requires SessionsOk(s) && sessionId in s.sessions
    ensures SessionsOk(WithStatus(s, sessionId, status))
  {
  }

  lemma StatusKeepsInv(s: State, sessionId: Id, status: SessionStatus)
    requires Inv(s) && sessionId in s.sessions
    ensures Inv(WithStatus(s, sessionId, status))
  {
    var s' := WithStatus(s, sessionId, status);
    StatusKeepsSessions(s, sessionId, status);
    assert OpenOk(s');
    forall q | q in s'.quotes && s'.quotes[q].usedAt.Some? ensures exists i :: i in s'.sessions && s'.sessions[i].quote == q {
      var i :| i in s.sessions && s.sessions[i].quote == q;
      assert i in s'.sessions && s'.sessions[i].quote == q;
    }
  }

  /** Status updates that leave locked rows alone and never make a row active again. */
  ghost predicate OnlyRetires(s: State, quotes: map<Id, Quote>) {
    && quotes.Keys == s.quotes.Keys
    && forall q :: q in s.quotes ==>
         && quotes[q].(status := s.quotes[q].status) == s.quotes[q]
         && (quotes[q].status == s.quotes[q].status || (quotes[q].status != Active && q !in s.open))
  }

  lemma RetireKeepsInv(s: State, quotes: map<Id, Quote>)
    requires Inv(s) && OnlyRetires(s, quotes)
    ensures Inv(s.(quotes := quotes))
  {
    var s' := s.(quotes := quotes);
    assert SessionsOk(s');
    assert OpenOk(s');
    assert UsesOk(s');
  }

  lemma CreateKeepsInv(s: State, id: Id, q: Quote)
    requires Inv(s) && id !in s.quotes && q.status == Active && Unused(q)
    ensures Inv(s.(quotes := s.quotes[id := q]))
  {
    var s' := s.(quotes := s.quotes[id := q]);
    assert SessionsOk(s');
    assert OpenOk(s');
    assert UsesOk(s');
  }

  lemma BeginKeepsInv(s: State, quote: Id, merchant: Id, sessionId: Id, requestId: Id)
    requires Inv(s) && quote !in s.open && Usable(s, quote, merchant) && FreshIds(s, sessionId, requestId)
    ensures Inv(s.(open := s.open[quote := NewTx(s, quote, merchant, sessionId, requestId)]))
  {
    var s' := s.(open := s.open[quote := NewTx(s, quote, merchant, sessionId, requestId)]);
    assert OpenOk(s') by {
      assert Unused(s.quotes[quote]);
    }
  }

  /** The invariant does not look at the clock or at the fetched batches. */
  lemma InvFrame(s: State, s': State)
    requires Inv(s) && s' == s.(now := s'.now, batches := s'.batches)
    ensures Inv(s')
  {
    assert SessionsOk(s');
    assert OpenOk(s');
    assert UsesOk(s');
  }

  lemma UpdateKeepsInv(s: State, step: Step)
    requires Inv(s) && (step.Cancel? || step.ExpireBatch?)
    ensures Inv(Apply(s, step))
  {
    UpdateOnlyRetires(s, step);
    var s' := Apply(s, step);
    RetireKeepsInv(s, s'.quotes);
    InvFrame(s.(quotes := s'.quotes), s');
  }

  lemma UpdateOnlyRetires(s: State, step: Step)
    requires step.Cancel? || step.ExpireBatch?
    ensures OnlyRetires(s, Apply(s, step).quotes)
    ensures var s' := Apply(s, step); s' == s.(quotes := s'.quotes, batches := s'.batches)
  {
    if step.ExpireBatch? && step.index < |s.batches| {
      ExpiryOnlyRetires(s, s.batches[step.index]);
    }
  }

  lemma ExpiryOnlyRetires(s: State, ids: seq<Id>)
    ensures (forall id :: id in ids ==> id !in s.open) ==> OnlyRetires(s, ExpireAll(s.quotes, ids))
  {
  }

  lemma MarkKeepsInv(s: State, quote: Id)
    requires Inv(s) && quote in s.open
    ensures Inv(MarkTx(s, quote))
  {
    assert OpenOk(MarkTx(s, quote));
  }

  lemma RollbackKeepsInv(s: State, quote: Id)
    requires Inv(s)
    ensures Inv(Apply(s, Rollback(quote)))
  {
    assert OpenOk(Apply(s, Rollback(quote)));
  }

  lemma StepKeepsInv(s: State, step: Step)
    requires Inv(s)
    ensures Inv(Apply(s, step))
  {
    if step.Commit? {
      if Committable(s, step.quote) { CommitKeepsInv(s, step.quote); }
    } else if step.Mark? {
      if step.quote in s.open { MarkKeepsInv(s, step.quote); }
    } else if step.SetSessionStatus? {
      if step.sessionId in s.sessions { StatusKeepsInv(s, step.sessionId, step.status); }
    } else if step.CreateQuote? {
      if step.id !in s.quotes { CreateKeepsInv(s, step.id, Quote(step.merchant, step.amount, step.expiresAt, Active, None, None)); }
    } else if step.Begin? {
      if Apply(s, step) != s { BeginKeepsInv(s, step.quote, step.merchant, step.sessionId, step.requestId); }
    } else if step.Cancel? || step.ExpireBatch? {
      UpdateKeepsInv(s, step);
    } else if step.Rollback? {
      RollbackKeepsInv(s, step.quote);
    } else {
      InvFrame(s, Apply(s, step));
    }
  }

  lemma {:induction false} RunKeepsInv(s: State, steps: seq<Step>)
    requires Inv(s)
    ensures Inv(Run(s, steps))
    decreases steps
  {
    if steps != [] {
      StepKeepsInv(s, steps[0]);
      RunKeepsInv(Apply(s, steps[0]), steps[1..]);
    }
  }

  // ------------------------------------------------------------ results over runs

  /** In every reachable state each quote has at most one session, which agrees with it and with its request. */
  lemma SingleUse(now: Time, steps: seq<Step>, i: Id, j: Id)
    requires var s := Run(Init(now), steps);
             i in s.sessions && j in s.sessions && s.sessions[i].quote == s.sessions[j].quote
    ensures i == j
    ensures var s := Run(Init(now), steps);
            var ss := s.sessions[i];
            && ss.quote in s.quotes && ss.request in s.requests
            && Matches(ss, s.quotes[ss.quote], s.requests[ss.request])
            && s.quotes[ss.quote].status != Active
  {
    RunKeepsInv(Init(now), steps);
  }

  /** In every reachable state the used_at column is set exactly when a session consumed the quote. */
  lemma UsedIffConsumed(now: Time, steps: seq<Step>, q: Id)
    requires q in Run(Init(now), steps).quotes
    ensures var s := Run(Init(now), steps);
            s.quotes[q].usedAt.Some? <==> exists i :: i in s.sessions && s.sessions[i].quote == q
  {
    RunKeepsInv(Init(now), steps);
  }

  /** Later rows of the same quote: same promise, never active again, times of use never moved. */
  predicate Ages(before: Quote, after: Quote) {
    && after.merchant == before.merchant && after.amount == before.amount && after.expiresAt == before.expiresAt
    && (before.status != Active ==> after.status != Active)
    && (before.usedAt.Some? ==> after.usedAt == before.usedAt)
    && (before.committedAt.Some? ==> after.committedAt == before.committedAt)
  }

  lemma StepAges(s: State, step: Step, q: Id)
    requires q in s.quotes && (q in s.open ==> Unused(s.quotes[q]))
    ensures q in Apply(s, step).quotes && Ages(s.quotes[q], Apply(s, step).quotes[q])
  {
    if step.Cancel? || step.ExpireBatch? {
      UpdateOnlyRetires(s, step);
    }
  }

  /** ACTIVE is never re-entered and what a quote promises never changes, over any further run. */
  lemma {:induction false} ActiveNeverReentered(s: State, steps: seq<Step>, q: Id)
    requires Inv(s) && q in s.quotes
    ensures q in Run(s, steps).quotes && Ages(s.quotes[q], Run(s, steps).quotes[q])
    decreases steps
  {
    if steps != [] {
      StepKeepsInv(s, steps[0]);
      StepAges(s, steps[0], q);
      ActiveNeverReentered(Apply(s, steps[0]), steps[1..], q);
    }
  }

  /** A committed session stays, for the same quote, through any further run. */
  lemma {:induction false} SessionsStay(s: State, steps: seq<Step>, i: Id)
    requires Inv(s) && i in s.sessions
    ensures var s' := Run(s, steps);
            i in s'.sessions && s'.sessions[i].(status := s.sessions[i].status) == s.sessions[i]
    decreases steps
  {
    if steps != [] {
      StepKeepsInv(s, steps[0]);
      SessionStays(s, steps[0], i);
      SessionsStay(Apply(s, steps[0]), steps[1..], i);
    }
  }

  lemma SessionStays(s: State, step: Step, i: Id)
    requires Inv(s) && i in s.sessions
    ensures var s' := Apply(s, step);
            i in s'.sessions && s'.sessions[i].(status := s.sessions[i].status) == s.sessions[i]
  {
    if step.Commit? {
      if Committable(s, step.quote) {
        assert s.open[step.quote].sessionId !in s.sessions;
      }
    } else if !step.SetSessionStatus? {
      assert Apply(s, step).sessions == s.sessions;
    }
  }

  // ------------------------------------------------------------ a session from begin to commit

  /** The rows once a session has consumed the quote. */
  function AfterUse(s: State, quote: Id, merchant: Id, sessionId: Id, requestId: Id): State
    requires quote in s.quotes
  {
    var q := s.quotes[quote];
    s.(sessions := s.sessions[sessionId := Session(quote, requestId, merchant, q.amount, q.expiresAt, s.now, Pending)],
       requests := s.requests[requestId := Request(merchant, q.amount, q.expiresAt)],
       quotes := s.quotes[quote := q.(status := Used, usedAt := Some(s.now), committedAt := Some(s.now))])
  }

  /** Begin, Mark and Commit on a free row, whatever other transactions are open. */
  lemma BeginMarkCommit(s: State, q: Id, merchant: Id, sessionId: Id, requestId: Id)
    requires Usable(s, q, merchant) && FreshIds(s, sessionId, requestId) && q !in s.open
    ensures Apply(Apply(Apply(s, Begin(q, merchant, sessionId, requestId)), Mark(q)), Commit(q)) ==
            AfterUse(s, q, merchant, sessionId, requestId)
  {
    var begun := Apply(s, Begin(q, merchant, sessionId, requestId));
    assert begun.open == s.open[q := NewTx(s, q, merchant, sessionId, requestId)];
    assert Apply(Apply(begun, Mark(q)), Commit(q)).open == s.open;
  }
}
