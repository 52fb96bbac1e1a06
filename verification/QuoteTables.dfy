/**
 The code behind the steps of QuoteSessions: `CreateSession` of
 internal/usecases/partner_payment_session_usecase.go, and the two statements of the expiry job in
 internal/infrastructure/repositories/partner_payment_session_repo_impl.go.
 */
module QuoteTables {
  import opened Wrappers
  import opened QuoteSessions

  /** What can fail after the checks, in the order in which it is tried. */
  datatype Stage =
    | SelectedChain | SelectedToken | StoreRequest | DestinationChain | Instruction | PaymentCode
    | StoreSession | MarkQuote | CommitAll

  function Order(stage: Stage): nat {
    match stage
    case SelectedChain => 0
    case SelectedToken => 1
    case StoreRequest => 2
    case DestinationChain => 3
    case Instruction => 4
    case PaymentCode => 5
    case StoreSession => 6
    case MarkQuote => 7
    case CommitAll => 8
  }

  datatype Refusal = NotFound | Forbidden | NotActive | QuoteExpired | Stopped(stage: Stage)

  /** The first of the stages that fails. */
  predicate FirstFailing(stage: Stage, fails: set<Stage>) {
    stage in fails && forall other :: other in fails ==> Order(stage) <= Order(other)
  }

  /** The tables as one connection sees them with nothing else running. */
  class Tables {
    var now: Time
    var quotes: map<Id, Quote>
    var sessions: map<Id, Session>
    var requests: map<Id, Request>

    function Rows(): State
      reads this
    {
      State(now, quotes, sessions, requests, map[], [])
    }

    /**
     `CreateSession`: checks, request row, session row, quote marked used, commit. With nothing else
     running it is the steps Begin, Mark and Commit, and any failure on the way leaves no row behind.
     */
    method CreateSession(quoteId: Id, merchant: Id, sessionId: Id, requestId: Id, fails: set<Stage>) returns (refusal: Option<Refusal>)
      requires FreshIds(Rows(), sessionId, requestId)
      modifies this
      ensures refusal == None <==> old(Usable(Rows(), quoteId, merchant)) && fails == {}
      ensures refusal == None ==>
                Rows() == Apply(Apply(Apply(old(Rows()), Begin(quoteId, merchant, sessionId, requestId)), Mark(quoteId)), Commit(quoteId))
      ensures refusal.Some? ==> Rows() == old(Rows())
      ensures refusal == Some(NotFound) <==> quoteId !in old(quotes)
      ensures refusal == Some(Forbidden) <==> quoteId in old(quotes) && old(quotes)[quoteId].merchant != merchant
      ensures refusal.Some? && refusal.value.Stopped? ==>
                old(Usable(Rows(), quoteId, merchant)) && FirstFailing(refusal.value.stage, fails)
    {
      if quoteId !in quotes {
        return Some(NotFound);
      }
      var quote := quotes[quoteId];
      if quote.merchant != merchant {
        return Some(Forbidden);
      }
      if quote.status != Active {
        return Some(NotActive);
      }
      if PastExpiry(quote, now) {
        return Some(QuoteExpired);
      }
      refusal := Persist(quoteId, merchant, sessionId, requestId, fails);
      BeginMarkCommit(old(Rows()), quoteId, merchant, sessionId, requestId);
    }

    /** Everything after the checks; a failure rolls back what was written. */
    method Persist(quoteId: Id, merchant: Id, sessionId: Id, requestId: Id, fails: set<Stage>) returns (refusal: Option<Refusal>)
      requires quoteId in quotes
      modifies this
      ensures refusal == None <==> fails == {}
      ensures Rows() == if refusal == None then AfterUse(old(Rows()), quoteId, merchant, sessionId, requestId) else old(Rows())
      ensures refusal.Some? ==> refusal.value.Stopped? && FirstFailing(refusal.value.stage, fails)
    {
      var quote := quotes[quoteId];
      var quotesBefore, sessionsBefore, requestsBefore := quotes, sessions, requests;
      if SelectedChain in fails {
        return Some(Stopped(SelectedChain));
      }
      if SelectedToken in fails {
        return Some(Stopped(SelectedToken));
      }
      if StoreRequest in fails {
        return Some(Stopped(StoreRequest));
      }
      requests := requests[requestId := Request(merchant, quote.amount, quote.expiresAt)];
      if DestinationChain in fails {
        requests := requestsBefore;
        return Some(Stopped(DestinationChain));
      }
      if Instruction in fails {
        requests := requestsBefore;
        return Some(Stopped(Instruction));
      }
      if PaymentCode in fails {
        requests := requestsBefore;
        return Some(Stopped(PaymentCode));
      }
      if StoreSession in fails {
        requests := requestsBefore;
        return Some(Stopped(StoreSession));
      }
      sessions := sessions[sessionId :=
        Session(quoteId, requestId, merchant, quote.amount, quote.expiresAt, now, Pending)];
      if MarkQuote in fails {
        sessions, requests := sessionsBefore, requestsBefore;
        return Some(Stopped(MarkQuote));
      }
      quotes := quotes[quoteId := quote.(status := Used, usedAt := Some(now), committedAt := Some(now))];
      if CommitAll in fails {
        quotes, sessions, requests := quotesBefore, sessionsBefore, requestsBefore;
        return Some(Stopped(CommitAll));
      }
      refusal := None;
      assert forall stage :: stage in fails ==> Order(stage) > 8;
    }

    /** The job's first statement, over the rows in whatever order the table yields them. */
    method GetExpiredActive(rows: seq<Id>, limit: nat) returns (ids: seq<Id>)
      requires limit <= BATCH && forall i :: 0 <= i < |rows| ==> rows[i] in quotes
      ensures Fetchable(Rows(), ids) && |ids| <= limit
      ensures |ids| < limit ==> forall id :: id in rows && quotes[id].status == Active && quotes[id].expiresAt < now ==> id in ids
    {
      ids := [];
      var i := 0;
      while i < |rows| && |ids| < limit
        invariant 0 <= i <= |rows| && |ids| <= limit
        invariant Fetchable(Rows(), ids)
        invariant forall k :: 0 <= k < i && quotes[rows[k]].status == Active && quotes[rows[k]].expiresAt < now ==> rows[k] in ids
      {
        if quotes[rows[i]].status == Active && quotes[rows[i]].expiresAt < now {
          ids := ids + [rows[i]];
        }
        i := i + 1;
      }
    }

    /** The job's second statement: one unconditional status update per listed row. */
    method ExpireQuotes(ids: seq<Id>)
      modifies this`quotes
      ensures quotes == ExpireAll(old(quotes), ids)
    {
      for i := 0 to |ids|
        invariant quotes == ExpireAll(old(quotes), ids[..i])
      {
        if ids[i] in quotes {
          quotes := quotes[ids[i] := quotes[ids[i]].(status := Expired)];
        }
        assert ids[..i + 1] == ids[..i] + [ids[i]];
      }
      assert ids[..|ids|] == ids;
    }
  }
}
