/**
 When the expiry job of internal/infrastructure/jobs/partner_payment_session_expiry.go overwrites a used
 quote: its fetch and its update are separate statements, and a transaction may commit in between. The
 steps are those of QuoteSessions.
 */
module QuoteExpiry {
  import opened Wrappers
  import opened QuoteSessions

  /** The transaction that used the quote committed after the quote's expiry. */
  predicate Late(q: Quote) { q.committedAt.Some? && q.committedAt.value > q.expiresAt }

  /**
   Every fetched row is past its expiry, and committed late if used at all; so is every used row that
   reads EXPIRED; and no time of use is later than its commit.
   */
  ghost predicate TimesOk(s: State) {
    && (forall i, id :: 0 <= i < |s.batches| && id in s.batches[i] ==> Listable(s, id))
    && (forall q :: q in s.quotes ==> TimeOk(s.quotes[q]))
    && MarksPast(s)
  }

  ghost predicate MarksPast(s: State) {
    forall q :: q in s.open && s.open[q].marked.Some? ==> s.open[q].marked.value <= s.now
  }

  predicate TimeOk(q: Quote) {
    && (q.usedAt.Some? <==> q.committedAt.Some?)
    && (q.usedAt.Some? ==> q.usedAt.value <= q.committedAt.value)
    && (q.status == Used ==> q.usedAt.Some?)
    && (q.status == Expired && q.usedAt.Some? ==> Late(q))
  }

  predicate Listable(s: State, id: Id) {
    id in s.quotes && s.quotes[id].expiresAt < s.now && (s.quotes[id].committedAt.Some? ==> Late(s.quotes[id]))
  }

  lemma ListableStays(s: State, step: Step, id: Id)
    requires Inv(s) && Listable(s, id)
    ensures Listable(Apply(s, step), id)
  {
    StepAges(s, step, id);
  }

  lemma BatchesGrow(s: State, step: Step, i: nat)
    requires i < |Apply(s, step).batches|
    ensures (exists k :: 0 <= k < |s.batches| && s.batches[k] == Apply(s, step).batches[i])
            || (step.FetchExpired? && Fetchable(s, step.ids) && Apply(s, step).batches[i] == step.ids)
  {
    var b := Apply(s, step).batches[i];
    if step.ExpireBatch? && step.index < |s.batches| && step.index <= i && Apply(s, step) != s {
      assert b == s.batches[i + 1];
    } else if i < |s.batches| {
      assert b == s.batches[i];
    }
  }

  lemma StepKeepsTimes(s: State, step: Step)
    requires Inv(s) && TimesOk(s)
    ensures TimesOk(Apply(s, step))
  {
    var s' := Apply(s, step);
    forall i, id | 0 <= i < |s'.batches| && id in s'.batches[i] ensures Listable(s', id) {
      BatchStaysListable(s, step, i, id);
    }
    forall q | q in s'.quotes ensures TimeOk(s'.quotes[q]) {
      TimeStaysOk(s, step, q);
    }
    MarksStayPast(s, step);
  }

  /** The clock does not run backward. */
  lemma MarksStayPast(s: State, step: Step)
    requires MarksPast(s)
    ensures MarksPast(Apply(s, step))
  {
  }

  lemma BatchStaysListable(s: State, step: Step, i: nat, id: Id)
    requires Inv(s) && TimesOk(s) && i < |Apply(s, step).batches| && id in Apply(s, step).batches[i]
    ensures Listable(Apply(s, step), id)
  {
    BatchesGrow(s, step, i);
    if k :| 0 <= k < |s.batches| && s.batches[k] == Apply(s, step).batches[i] {
      ListableStays(s, step, id);
    } else {
      FetchedIsListable(s, step.ids, id);
    }
  }

  lemma TimeStaysOk(s: State, step: Step, q: Id)
    requires TimesOk(s) && q in Apply(s, step).quotes
    ensures TimeOk(Apply(s, step).quotes[q])
  {
    var s' := Apply(s, step);
    if q in s.quotes && s.quotes[q] != s'.quotes[q] && s'.quotes[q].status == Expired {
      ExpiredNow(s, step, q);
    }
  }

  lemma FetchedIsListable(s: State, ids: seq<Id>, id: Id)
    requires Inv(s) && Fetchable(s, ids) && id in ids
    ensures Listable(s, id)
  {
    var i :| 0 <= i < |ids| && ids[i] == id;
  }

  /** A row becomes EXPIRED only by a batch that lists it. */
  lemma ExpiredNow(s: State, step: Step, q: Id)
    requires TimesOk(s) && q in s.quotes && q in Apply(s, step).quotes
    requires s.quotes[q] != Apply(s, step).quotes[q] && Apply(s, step).quotes[q].status == Expired
    ensures Listable(s, q) && Apply(s, step).quotes[q].(status := s.quotes[q].status) == s.quotes[q]
  {
    assert step.ExpireBatch? && q in s.batches[step.index];
  }

  lemma {:induction false} RunKeepsTimes(s: State, steps: seq<Step>)
    requires Inv(s) && TimesOk(s)
    ensures TimesOk(Run(s, steps))
    decreases steps
  {
    if steps != [] {
      StepKeepsInv(s, steps[0]);
      StepKeepsTimes(s, steps[0]);
      RunKeepsTimes(Apply(s, steps[0]), steps[1..]);
    }
  }

  /** A step takes a quote out of USED only by cancelling it or by a batch that lists it. */
  lemma LeavesUsed(s: State, step: Step, q: Id)
    requires Inv(s) && q in s.quotes && s.quotes[q].status == Used && Apply(s, step).quotes[q] != s.quotes[q]
    ensures step == Cancel(q) || (step.ExpireBatch? && step.index < |s.batches| && q in s.batches[step.index])
  {
  }

  /** A quote whose use committed no later than its expiry stays exactly as it is over every further run that does not cancel it. */
  lemma {:induction false} PromptUseStays(s: State, steps: seq<Step>, q: Id)
    requires Inv(s) && TimesOk(s) && q in s.quotes && s.quotes[q].status == Used && !Late(s.quotes[q])
    requires forall i :: 0 <= i < |steps| ==> steps[i] != Cancel(q)
    ensures q in Run(s, steps).quotes && Run(s, steps).quotes[q] == s.quotes[q]
    decreases steps
  {
    if steps != [] {
      var s' := Apply(s, steps[0]);
      StepKeepsInv(s, steps[0]);
      StepKeepsTimes(s, steps[0]);
      StepAges(s, steps[0], q);
      assert !Listable(s, q);
      assert s'.quotes[q] == s.quotes[q] by {
        if s'.quotes[q] != s.quotes[q] {
          LeavesUsed(s, steps[0], q);
        }
      }
      PromptUseStays(s', steps[1..], q);
    }
  }

  /** Some run from an empty database ends with a quote of this expiry, used and committed at these times, reading EXPIRED. */
  ghost predicate CanBeOverwritten(expiresAt: Time, usedAt: Time, committedAt: Time) {
    exists now: Time, steps: seq<Step>, q: Id :: EndsOverwritten(now, steps, q, expiresAt, usedAt, committedAt)
  }

  predicate EndsOverwritten(now: Time, steps: seq<Step>, q: Id, expiresAt: Time, usedAt: Time, committedAt: Time) {
    var s := Run(Init(now), steps);
    && q in s.quotes && s.quotes[q].status == Expired && s.quotes[q].expiresAt == expiresAt
    && s.quotes[q].usedAt == Some(usedAt) && s.quotes[q].committedAt == Some(committedAt)
  }

  /**
   The expiry job overwrites USED with EXPIRED in some run exactly when the transaction that used the
   quote committed after the quote's expiry; a time of use is never later than its commit.
   */
  lemma OverwrittenIff(expiresAt: Time, usedAt: Time, committedAt: Time)
    ensures CanBeOverwritten(expiresAt, usedAt, committedAt) <==> expiresAt < committedAt && usedAt <= committedAt
  {
    if now: Time, steps: seq<Step>, q: Id :| EndsOverwritten(now, steps, q, expiresAt, usedAt, committedAt) {
      RunKeepsTimes(Init(now), steps);
      assert TimeOk(Run(Init(now), steps).quotes[q]);
    }
    if expiresAt < committedAt && usedAt <= committedAt {
      ExpiryCanOverwriteUsed(expiresAt, usedAt, committedAt);
    }
  }

  /** The used_at column decides nothing: whatever it says, the quote may have been overwritten. */
  lemma UsedAtDecidesNothing(expiresAt: Time, usedAt: Time)
    ensures exists committedAt: Time :: CanBeOverwritten(expiresAt, usedAt, committedAt)
    ensures CanBeOverwritten(10, 0, 11)
  {
    OverwrittenIff(10, 0, 11);
    OverwrittenIff(expiresAt, usedAt, if expiresAt < usedAt then usedAt else expiresAt + 1);
  }

  function Earlier(a: Time, b: Time): Time { if a < b then a else b }

  /** Begun in time and marked used at its time. */
  function MarkSteps(e: Time, u: Time): seq<Step> {
    [CreateQuote(1, 7, "5", e), Begin(1, 7, 2, 3), Tick(u - Earlier(e, u)), Mark(1)]
  }

  /** A job fetches the row, which still reads ACTIVE, the transaction commits, the job updates. */
  function RaceSteps(u: Time, c: Time): seq<Step>
    requires u <= c
  {
    [Tick(c - u), FetchExpired([1]), Commit(1), ExpireBatch(0)]
  }

  lemma ExpiryCanOverwriteUsed(expiresAt: Time, usedAt: Time, committedAt: Time)
    requires expiresAt < committedAt && usedAt <= committedAt
    ensures var steps := MarkSteps(expiresAt, usedAt) + RaceSteps(usedAt, committedAt);
            var s := Run(Init(Earlier(expiresAt, usedAt)), steps);
            && EndsOverwritten(Earlier(expiresAt, usedAt), steps, 1, expiresAt, usedAt, committedAt)
            && 2 in s.sessions && s.sessions[2].quote == 1
  {
    RunAppend(Init(Earlier(expiresAt, usedAt)), MarkSteps(expiresAt, usedAt), RaceSteps(usedAt, committedAt));
    BegunAndMarked(expiresAt, usedAt);
    FetchedAndOverwritten(expiresAt, usedAt, committedAt);
  }

  /** Quote 1 as row and as open transaction, marked used but not committed. */
  function MarkedState(e: Time, u: Time, now: Time): State {
    State(now, map[1 := Quote(7, "5", e, Active, None, None)], map[], map[],
          map[1 := Tx(2, Session(1, 3, 7, "5", e, Earlier(e, u), Pending), Request(7, "5", e), Some(u))], [])
  }

  lemma BegunAndMarked(e: Time, u: Time)
    ensures Run(Init(Earlier(e, u)), MarkSteps(e, u)) == MarkedState(e, u, u)
  {
    var t := MarkSteps(e, u);
    RunFour(Init(Earlier(e, u)), t[0], t[1], t[2], t[3]);
    var s1 := Apply(Init(Earlier(e, u)), t[0]);
    assert Usable(s1, 1, 7) && FreshIds(s1, 2, 3);
  }

  lemma FetchedAndOverwritten(e: Time, u: Time, c: Time)
    requires e < c && u <= c
    ensures var s := Run(MarkedState(e, u, u), RaceSteps(u, c));
            1 in s.quotes && 2 in s.sessions && s.sessions[2].quote == 1
            && s.quotes[1] == Quote(7, "5", e, Expired, Some(u), Some(c))
  {
    var t := RaceSteps(u, c);
    RunFour(MarkedState(e, u, u), t[0], t[1], t[2], t[3]);
    var waited := MarkedState(e, u, c);
    assert Apply(MarkedState(e, u, u), t[0]) == waited;
    assert Fetchable(waited, [1]);
    var fetched := waited.(batches := [[1]]);
    assert Apply(waited, t[1]) == fetched;
    var done := Apply(fetched, t[2]);
    assert done.batches[0] == [1] && 1 !in done.open && 1 in done.quotes;
    assert 1 in done.batches[0];
  }

  lemma RunFour(s: State, a: Step, b: Step, c: Step, d: Step)
    ensures Run(s, [a, b, c, d]) == Apply(Apply(Apply(Apply(s, a), b), c), d)
  {
    var s1 := Apply(s, a);
    var s2 := Apply(s1, b);
    RunCons(Apply(s2, c), d, []);
    RunCons(s2, c, [d]);
    RunCons(s1, b, [c, d]);
    RunCons(s, a, [b, c, d]);
  }

  lemma RunCons(s: State, step: Step, rest: seq<Step>)
    ensures Run(s, [step] + rest) == Run(Apply(s, step), rest)
  {
    assert ([step] + rest)[1..] == rest;
  }

  lemma {:induction false} RunAppend(s: State, a: seq<Step>, b: seq<Step>)
    ensures Run(s, a + b) == Run(Run(s, a), b)
    decreases a
  {
    if a == [] {
      assert a + b == b;
    } else {
      assert (a + b)[1..] == a[1..] + b;
      RunAppend(Apply(s, a[0]), a[1..], b);
    }
  }
}
