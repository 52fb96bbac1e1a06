/**
 What each update of quotes and sessions achieves and what it leaves alone: cancellation, expiry,
 begin, rollback, mark and commit, and the status of a session. The steps are those of QuoteSessions.
 */
module QuoteUpdates {
  import opened Wrappers
  import opened QuoteSessions

  /** No session of the quote appears between the two states. */
  ghost predicate NoNewSession(s: State, s': State, q: Id) {
    forall i :: i in s'.sessions && s'.sessions[i].quote == q ==> i in s.sessions && s.sessions[i].quote == q
  }

  lemma RetiredStep(s: State, step: Step, q: Id)
    requires Inv(s) && q in s.quotes && s.quotes[q].status != Active
    ensures var s' := Apply(s, step);
            && q in s'.quotes && s'.quotes[q].status != Active
            && s'.quotes[q].usedAt == s.quotes[q].usedAt && NoNewSession(s, s', q)
  {
    assert q !in s.open;
    if step.Cancel? || step.ExpireBatch? {
      UpdateOnlyRetires(s, step);
    }
    if step.Commit? && step.quote in s.open {
      assert s.open[step.quote].session.quote == step.quote;
    }
  }

  /** A quote that is not active is never consumed: over every further run no session of it appears. */
  lemma {:induction false} RetiredStays(s: State, steps: seq<Step>, q: Id)
    requires Inv(s) && q in s.quotes && s.quotes[q].status != Active
    ensures var s' := Run(s, steps);
            && q in s'.quotes && s'.quotes[q].status != Active
            && s'.quotes[q].usedAt == s.quotes[q].usedAt && NoNewSession(s, s', q)
    decreases steps
  {
    if steps != [] {
      StepKeepsInv(s, steps[0]);
      RetiredStep(s, steps[0], q);
      RetiredStays(Apply(s, steps[0]), steps[1..], q);
    }
  }

  /**
   Cancelling a quote that no transaction holds makes it CANCELLED and touches nothing else; from then on,
   over every run, it is never active again, never used, and no session consumes it.
   */
  lemma CancelledForGood(s: State, steps: seq<Step>, q: Id)
    requires Inv(s) && q in s.quotes && q !in s.open
    ensures Apply(s, Cancel(q)) == s.(quotes := s.quotes[q := s.quotes[q].(status := Cancelled)])
    ensures var s' := Run(Apply(s, Cancel(q)), steps);
            && q in s'.quotes && s'.quotes[q].status != Active
            && s'.quotes[q].usedAt == s.quotes[q].usedAt && NoNewSession(s, s', q)
  {
    StepKeepsInv(s, Cancel(q));
    RetiredStays(Apply(s, Cancel(q)), steps, q);
  }

  /** An update of a row that a transaction holds waits: it does nothing before the transaction ends. */
  lemma LockedRowWaits(s: State, q: Id, i: nat)
    requires q in s.open
    ensures Apply(s, Cancel(q)) == s
    ensures i < |s.batches| && q in s.batches[i] ==> Apply(s, ExpireBatch(i)) == s
    ensures forall merchant, sessionId, requestId :: Apply(s, Begin(q, merchant, sessionId, requestId)) == s
  {
  }

  /** A fetch that nothing interferes with expires every row it lists, and no other. */
  lemma ExpiryAchieves(s: State, ids: seq<Id>, q: Id)
    requires Fetchable(s, ids) && (forall id :: id in ids ==> id !in s.open) && q in s.quotes
    ensures var s' := Apply(Apply(s, FetchExpired(ids)), ExpireBatch(|s.batches|));
            && s'.batches == s.batches && q in s'.quotes
            && s'.quotes[q] == if q in ids then s.quotes[q].(status := Expired) else s.quotes[q]
  {
    var fetched := Apply(s, FetchExpired(ids));
    assert fetched.batches[|s.batches|] == ids;
    assert DropAt(fetched.batches, |s.batches|) == s.batches;
  }

  /** Which rows a job may list: at most a hundred, each active and past its expiry. */
  lemma FetchableIff(s: State, ids: seq<Id>)
    ensures Apply(s, FetchExpired(ids)) != s <==>
            |ids| <= 100 && forall i :: 0 <= i < |ids| ==>
              ids[i] in s.quotes && s.quotes[ids[i]].status == Active && s.quotes[ids[i]].expiresAt < s.now
  {
    assert |s.batches + [ids]| == |s.batches| + 1;
  }

  /**
   A session can be begun exactly on a free row of the merchant's own, active and not past its expiry,
   where the last second of the year 9999 means no expiry; a new quote is such a row.
   */
  lemma BeginsIff(s: State, q: Id, merchant: Id, sessionId: Id, requestId: Id)
    requires FreshIds(s, sessionId, requestId) && q !in s.open
    ensures q in Apply(s, Begin(q, merchant, sessionId, requestId)).open <==>
            && q in s.quotes && s.quotes[q].merchant == merchant && s.quotes[q].status == Active
            && (s.quotes[q].expiresAt == 253402300799 || s.now <= s.quotes[q].expiresAt)
  {
  }

  /** A rollback leaves no trace but the free row, which can be begun again. */
  lemma RollbackFrees(s: State, q: Id, merchant: Id, sessionId: Id, requestId: Id)
    requires Inv(s) && q in s.open && Usable(s, q, merchant) && FreshIds(s, sessionId, requestId)
    ensures var s' := Apply(s, Rollback(q));
            && s' == s.(open := s'.open) && q !in s'.open && (forall o :: o in s.open && o != q ==> o in s'.open && s'.open[o] == s.open[o])
            && q in Apply(s', Begin(q, merchant, sessionId, requestId)).open
  {
  }

  /** The used_at of a commit is the time of its one mark, however late the commit; before the mark there is no commit. */
  lemma CommitUsesTheMark(s: State, q: Id, seconds: nat)
    requires Inv(s) && q in s.open && s.open[q].marked == None
    ensures Apply(s, Commit(q)) == s
    ensures var marked := Apply(Apply(s, Mark(q)), Tick(seconds)); Apply(marked, Mark(q)) == marked
    ensures var s' := Apply(Apply(Apply(s, Mark(q)), Tick(seconds)), Commit(q));
            && q in s'.quotes && q !in s'.open && s'.quotes[q].status == Used
            && s'.quotes[q].usedAt == Some(s.now) && s'.quotes[q].committedAt == Some(s.now + seconds)
            && s.open[q].sessionId in s'.sessions && s'.sessions[s.open[q].sessionId] == s.open[q].session
  {
  }

  /** A status update of a session sets that status and nothing else. */
  lemma SessionStatusIs(s: State, i: Id, status: SessionStatus)
    requires i in s.sessions
    ensures var s' := Apply(s, SetSessionStatus(i, status));
            && s' == s.(sessions := s'.sessions) && s'.sessions.Keys == s.sessions.Keys
            && (forall k :: k in s.sessions ==> s'.sessions[k] == if k == i then s.sessions[i].(status := status) else s.sessions[k])
  {
  }
}
