/**
 Webhook delivery: `Dispatch` and its retry schedule (internal/usecases/webhook_dispatcher.go),
 the polling job (internal/infrastructure/jobs/webhook_delivery.go), enqueueing and manual
 retries (internal/usecases/webhook_usecase.go). Workers act on copies of the stored row and
 write whole rows back; any of those writes may be lost.
 */
module Webhooks {
  import opened Wrappers

  type Time = int // seconds

  const MAX_RETRIES: nat := 10

  const SCHEDULE: seq<nat> := [60, 120, 300, 600, 900, 1800, 3600, 7200, 14400, 28800]

  datatype Status = Pending | Delivering | Delivered | Retrying | Failed | Dropped

  datatype Delivery = Delivery(status: Status, retryCount: nat, nextRetryAt: Option<Time>, lastAttemptAt: Option<Time>)

  /** What the dispatcher finds before it sends: an error changes nothing, an inactive merchant drops. */
  datatype Lookup = LookupError | Inactive | Sendable

  datatype Response = Accepted | Refused

  /** `enqueueWebhookDelivery`. */
  const FRESH: Delivery := Delivery(Pending, 0, None, None)

  // -------------------------------------------------------------------- dispatch

  function StartAttempt(d: Delivery, now: Time): Delivery {
    d.(lastAttemptAt := Some(now), nextRetryAt := None, status := Delivering)
  }

  /** The pause after the given number of failures, the last entry repeating. */
  function Backoff(retryCount: nat): nat {
    var attempt := if retryCount <= 0 then 1 else retryCount;
    SCHEDULE[if attempt - 1 >= |SCHEDULE| then |SCHEDULE| - 1 else attempt - 1]
  }

  function SetNextRetry(d: Delivery, now: Time): Delivery {
    if d.retryCount >= MAX_RETRIES then d.(status := Failed, nextRetryAt := None)
    else d.(nextRetryAt := Some(now + Backoff(d.retryCount)))
  }

  function FinishAttempt(d: Delivery, response: Response, now: Time): Delivery {
    match response
    case Accepted => d.(status := Delivered, nextRetryAt := None)
    case Refused => SetNextRetry(d.(status := Retrying, retryCount := d.retryCount + 1), now)
  }

  function Dispatched(d: Delivery, lookup: Lookup, response: Response, start: Time, end: Time): Delivery {
    match lookup
    case LookupError => d
    case Inactive => d.(status := Dropped)
    case Sendable => FinishAttempt(StartAttempt(d, start), response, end)
  }

  /** `GetPendingAttempts` selects the row. */
  predicate Selected(d: Delivery, now: Time) {
    (d.status == Pending || d.status == Retrying) && (d.nextRetryAt.None? || d.nextRetryAt.value < now)
  }

  /** The job skips a retry that is not due on its own clock. */
  predicate NotDue(d: Delivery, now: Time) {
    d.status == Retrying && d.nextRetryAt.Some? && now < d.nextRetryAt.value
  }

  function GiveUp(d: Delivery): Delivery { d.(status := Failed, nextRetryAt := None) }

  /** One poll of the job at time `at`: if it dispatches, the attempt starts and ends at these times. */
  datatype Poll = Poll(at: Time, lookup: Lookup, response: Response, start: Time, end: Time)

  /** What the job does with a row it has fetched. */
  function Handled(d: Delivery, p: Poll): Delivery {
    if d.retryCount >= MAX_RETRIES then GiveUp(d)
    else if NotDue(d, p.at) then d
    else Dispatched(d, p.lookup, p.response, p.start, p.end)
  }

  /** The row a dispatcher holds, updated field by field. */
  class Row {
    var status: Status
    var retryCount: nat
    var nextRetryAt: Option<Time>
    var lastAttemptAt: Option<Time>

    constructor Enqueue()
      ensures Value() == FRESH
    {
      status, retryCount, nextRetryAt, lastAttemptAt := Pending, 0, None, None;
    }

    function Value(): Delivery
      reads this
    {
      Delivery(status, retryCount, nextRetryAt, lastAttemptAt)
    }

    method SetNextRetryAt(now: Time)
      modifies this
      ensures Value() == SetNextRetry(old(Value()), now)
    {
      var attempt := retryCount;
      if attempt <= 0 {
        attempt := 1;
      }
      var index := attempt - 1;
      if index >= |SCHEDULE| {
        index := |SCHEDULE| - 1;
      }
      nextRetryAt := Some(now + SCHEDULE[index]);
      if retryCount >= MAX_RETRIES {
        status := Failed;
        nextRetryAt := None;
      }
    }

    method Dispatch(lookup: Lookup, response: Response, start: Time, end: Time)
      modifies this
      ensures Value() == Dispatched(old(Value()), lookup, response, start, end)
    {
      if lookup.LookupError? {
        return;
      }
      if lookup.Inactive? {
        status := Dropped;
        return;
      }
      lastAttemptAt := Some(start);
      nextRetryAt := None;
      status := Delivering;
      if response.Accepted? {
        status := Delivered;
        nextRetryAt := None;
      } else {
        status := Retrying;
        retryCount := retryCount + 1;
        SetNextRetryAt(end);
      }
    }

    method Handle(p: Poll)
      modifies this
      ensures Value() == Handled(old(Value()), p)
    {
      if retryCount >= MAX_RETRIES {
        status := Failed;
        nextRetryAt := None;
        return;
      }
      if status == Retrying && nextRetryAt.Some? && p.at < nextRetryAt.value {
        return;
      }
      Dispatch(p.lookup, p.response, p.start, p.end);
    }
  }

  /** `processPendingDeliveries`: the fetched rows in turn, until the context is cancelled. */
  method ProcessPending(rows: seq<Row>, polls: seq<Poll>, served: nat)
    requires |polls| == |rows| && served <= |rows|
    requires forall i, j :: 0 <= i < j < |rows| ==> rows[i] != rows[j]
    modifies rows
    ensures forall i :: 0 <= i < served ==> rows[i].Value() == Handled(old(rows[i].Value()), polls[i])
    ensures forall i :: served <= i < |rows| ==> rows[i].Value() == old(rows[i].Value())
  {
    for i := 0 to served
      invariant forall k :: 0 <= k < i ==> rows[k].Value() == Handled(old(rows[k].Value()), polls[k])
      invariant forall k :: i <= k < |rows| ==> rows[k].Value() == old(rows[k].Value())
    {
      rows[i].Handle(polls[i]);
    }
  }

  // ------------------------------------------------- workers, copies and lost writes

  /** A worker's copy: just read by the job or by hand, or out with its request. */
  datatype Copy = ByJob(d: Delivery) | ByHand(d: Delivery) | Sending(d: Delivery)

  datatype State = State(now: Time, row: Delivery, copies: map<nat, Copy>)

  datatype Step =
    | Tick(seconds: nat)
    | JobFetch(worker: nat)
    | HandFetch(worker: nat)
    | JobGuard(worker: nat, saved: bool)
    | Start(worker: nat, lookup: Lookup, saved: bool)
    | Finish(worker: nat, response: Response, saved: bool)
    | Vanish(worker: nat)

  function Save(s: State, d: Delivery, saved: bool): State { if saved then s.(row := d) else s }

  function Drop(s: State, worker: nat): State { s.(copies := s.copies - {worker}) }

  function Apply(s: State, step: Step): State {
    match step
    case Tick(seconds) => s.(now := s.now + seconds)
    case JobFetch(w) =>
      if w !in s.copies && Selected(s.row, s.now) then s.(copies := s.copies[w := ByJob(s.row)]) else s
    case HandFetch(w) =>
      if w !in s.copies then s.(copies := s.copies[w := ByHand(s.row)]) else s
    case JobGuard(w, saved) =>
      if w in s.copies && s.copies[w].ByJob? && s.copies[w].d.retryCount >= MAX_RETRIES
      then Drop(Save(s, GiveUp(s.copies[w].d), saved), w) else s
    case Start(w, lookup, saved) =>
      if w !in s.copies || s.copies[w].Sending? then s
      else if s.copies[w].ByJob? && (s.copies[w].d.retryCount >= MAX_RETRIES || NotDue(s.copies[w].d, s.now)) then Drop(s, w)
      else (
        var d := s.copies[w].d;
        match lookup
        case LookupError => Drop(s, w)
        case Inactive => Drop(Save(s, d.(status := Dropped), saved), w)
        case Sendable => Save(s, StartAttempt(d, s.now), saved).(copies := s.copies[w := Sending(StartAttempt(d, s.now))]))
    case Finish(w, response, saved) =>
      if w in s.copies && s.copies[w].Sending?
      then Drop(Save(s, FinishAttempt(s.copies[w].d, response, s.now), saved), w) else s
    case Vanish(w) => Drop(s, w)
  }

  function Run(s: State, steps: seq<Step>): State
    decreases steps
  {
    if steps == [] then s else Run(Apply(s, steps[0]), steps[1..])
  }

  function Init(now: Time): State { State(now, FRESH, map[]) }

  /** What every stored row and every copy of it obeys. */
  predicate Good(d: Delivery) {
    && (d.status == Retrying ==> 1 <= d.retryCount <= MAX_RETRIES - 1 && d.nextRetryAt.Some?)
    && (d.status == Failed ==> d.retryCount >= MAX_RETRIES && d.nextRetryAt.None?)
    && (d.nextRetryAt.Some? ==> d.status == Retrying || d.status == Dropped)
    && (d.status == Pending ==> d.retryCount == 0)
  }

  ghost predicate Inv(s: State) {
    && Good(s.row)
    && forall w :: w in s.copies ==>
         && Good(s.copies[w].d)
         && (s.copies[w].ByJob? ==> s.copies[w].d.retryCount < MAX_RETRIES)
         && (s.copies[w].Sending? ==> s.copies[w].d.status == Delivering)
  }

  lemma StepKeepsInv(s: State, step: Step)
    requires Inv(s)
    ensures Inv(Apply(s, step))
  {
  }

  lemma {:induction false} RunKeepsInv(s: State, steps: seq<Step>)
    requires Inv(s)
    ensures Inv(Run(s, steps))
    decreases steps
  {
    if steps != [] {
      StepKeepsInv(s, steps[0]);
      RunKeepsInv(Apply(s, steps[0]), steps[1..]);
    }
  }

  /**
   Over every run of fetches, retries by hand, deactivations, crashes and lost writes the row stays
   good, and the job's own max-retry guard never finds anything to do.
   */
  lemma ReachableRowsAreGood(now: Time, steps: seq<Step>, worker: nat, saved: bool)
    ensures Good(Run(Init(now), steps).row)
    ensures Apply(Run(Init(now), steps), JobGuard(worker, saved)) == Run(Init(now), steps)
  {
    RunKeepsInv(Init(now), steps);
  }

  // ------------------------------------------------------------------ stranded rows

  predicate Sender(s: State, worker: nat) { worker in s.copies && s.copies[worker].Sending? }

  /** The row says Delivering and nobody is out with a request. */
  ghost predicate Stranded(s: State) {
    s.row.status == Delivering && forall w :: w in s.copies ==> !Sender(s, w)
  }

  /** A sender is lost before its outcome is stored: the final write fails, or the worker vanishes. */
  predicate Abandons(s: State, step: Step) {
    ((step.Finish? && !step.saved) || step.Vanish?) && Sender(s, step.worker)
  }

  /** The one lost is the last sender of a row stored as Delivering. */
  ghost predicate Strands(s: State, step: Step) {
    && s.row.status == Delivering && Abandons(s, step)
    && forall w :: w in s.copies && Sender(s, w) ==> w == step.worker
  }

  lemma BecomesStrandedIff(s: State, step: Step)
    requires !Stranded(s)
    ensures Stranded(Apply(s, step)) <==> Strands(s, step)
  {
    var s' := Apply(s, step);
    if step.Start? && Sender(s', step.worker) {
      assert !Stranded(s');
    }
    forall w | w in s.copies && Sender(s, w) && !(Abandons(s, step) && step.worker == w)
      ensures !Stranded(s')
    {
      SenderStays(s, step, w);
    }
  }

  /** A sender stays out unless it is lost or its outcome is stored, and then the row is not Delivering. */
  lemma SenderStays(s: State, step: Step, w: nat)
    requires Sender(s, w) && !(Abandons(s, step) && step.worker == w)
    ensures Sender(Apply(s, step), w) || Apply(s, step).row.status != Delivering
  {
  }

  function After(s: State, steps: seq<Step>, i: nat): State
    requires i <= |steps|
  {
    Run(s, steps[..i])
  }

  lemma {:induction false} RunSnoc(s: State, steps: seq<Step>, last: Step)
    ensures Run(s, steps + [last]) == Apply(Run(s, steps), last)
    decreases steps
  {
    if steps == [] {
      assert [last][1..] == [];
    } else {
      assert (steps + [last])[1..] == steps[1..] + [last];
      RunSnoc(Apply(s, steps[0]), steps[1..], last);
    }
  }

  lemma AfterStep(s: State, steps: seq<Step>, i: nat)
    requires i < |steps|
    ensures After(s, steps, i + 1) == Apply(After(s, steps, i), steps[i])
  {
    assert steps[..i + 1] == steps[..i] + [steps[i]];
    RunSnoc(s, steps[..i], steps[i]);
  }

  lemma {:induction false} StrandedEarlier(s: State, steps: seq<Step>, i: nat)
    requires i <= |steps| && !Stranded(s) && Stranded(After(s, steps, i))
    ensures exists k :: 0 <= k < i && Strands(After(s, steps, k), steps[k])
  {
    if i > 0 {
      AfterStep(s, steps, i - 1);
      if Stranded(After(s, steps, i - 1)) {
        StrandedEarlier(s, steps, i - 1);
      } else {
        BecomesStrandedIff(After(s, steps, i - 1), steps[i - 1]);
      }
    }
  }

  /**
   Over every run: a row is stranded at some point exactly when at some step the last sender of a
   row stored as Delivering is lost, by a failed final write or a crash.
   */
  lemma StrandedIff(now: Time, steps: seq<Step>)
    ensures (exists i :: 0 <= i <= |steps| && Stranded(After(Init(now), steps, i))) <==>
            (exists k :: 0 <= k < |steps| && Strands(After(Init(now), steps, k), steps[k]))
  {
    if i :| 0 <= i <= |steps| && Stranded(After(Init(now), steps, i)) {
      StrandedEarlier(Init(now), steps, i);
    }
    if k :| 0 <= k < |steps| && Strands(After(Init(now), steps, k), steps[k]) {
      AfterStep(Init(now), steps, k);
      BecomesStrandedIff(After(Init(now), steps, k), steps[k]);
      assert Stranded(After(Init(now), steps, k + 1));
    }
  }

  /** With no final write lost and no sender crashed, no reachable row is ever stranded. */
  lemma NothingLostNothingStranded(now: Time, steps: seq<Step>)
    requires forall k :: 0 <= k < |steps| ==> !Abandons(After(Init(now), steps, k), steps[k])
    ensures !Stranded(Run(Init(now), steps))
  {
    StrandedIff(now, steps);
    assert steps[..|steps|] == steps;
    assert Run(Init(now), steps) == After(Init(now), steps, |steps|);
  }

  predicate ByJobOnly(steps: seq<Step>) { forall i :: 0 <= i < |steps| ==> !steps[i].HandFetch? }

  /** No run without a fetch by hand changes the row. */
  ghost predicate ForGood(s: State) {
    forall steps :: ByJobOnly(steps) ==> Run(s, steps).row == s.row
  }

  /** A row that is neither pending nor retrying, with no copy out, stays as it is without a fetch by hand. */
  lemma {:induction false} JobNeverRevives(s: State, steps: seq<Step>)
    requires s.row.status != Pending && s.row.status != Retrying && s.copies == map[] && ByJobOnly(steps)
    ensures Run(s, steps).row == s.row
    decreases steps
  {
    if steps != [] {
      assert Apply(s, steps[0]).row == s.row && Apply(s, steps[0]).copies == map[];
      JobNeverRevives(Apply(s, steps[0]), steps[1..]);
    }
  }

  /** A reachable stranded row stays so for good, fetches by hand apart, exactly when no worker holds a copy of it. */
  lemma StrandedForGoodIff(s: State)
    requires Inv(s) && Stranded(s)
    ensures ForGood(s) <==> s.copies == map[]
  {
    if s.copies == map[] {
      forall steps | ByJobOnly(steps) ensures Run(s, steps).row == s.row {
        JobNeverRevives(s, steps);
      }
    } else {
      var w :| w in s.copies;
      assert !Sender(s, w);
      var d := s.copies[w].d;
      var wait: nat := if d.nextRetryAt.Some? && d.nextRetryAt.value > s.now then d.nextRetryAt.value - s.now else 0;
      var a, b := Tick(wait), Start(w, Inactive, true);
      assert [a, b][1..] == [b] && [b][1..] == [];
      assert Run(Apply(s, a), [b]) == Apply(Apply(s, a), b);
      assert Run(s, [a, b]).row == d.(status := Dropped);
      assert ByJobOnly([a, b]);
    }
  }

  /** Stored as Delivering, then the final write lost: stranded, with no retry counted. */
  lemma LostFinalWriteStrands()
    ensures var s := Run(Init(0), [JobFetch(1), Start(1, Sendable, true), Finish(1, Refused, false)]);
            Stranded(s) && ForGood(s) && s.row.retryCount == 0
  {
    var a, b, c := JobFetch(1), Start(1, Sendable, true), Finish(1, Refused, false);
    var s1 := Apply(Init(0), a);
    assert s1.copies == map[1 := ByJob(FRESH)];
    var s2 := Apply(s1, b);
    var s3 := Apply(s2, c);
    assert s3.copies == map[];
    assert [a, b, c][1..] == [b, c] && [b, c][1..] == [c] && [c][1..] == [];
    assert Run(s2, [c]) == s3;
    assert Run(s1, [b, c]) == s3;
    RunKeepsInv(Init(0), [a, b, c]);
    StrandedForGoodIff(s3);
  }

  // ------------------------------------------------------------- backoff over job runs

  datatype Attempt = Attempt(start: Time, end: Time, failed: bool)

  /** The row and the log of requests sent so far. */
  datatype Trace = Trace(d: Delivery, log: seq<Attempt>)

  /** The clock does not run backward during a poll; between polls the row's own due time decides. */
  predicate Ordered(polls: seq<Poll>) {
    forall i :: 0 <= i < |polls| ==> polls[i].at <= polls[i].start <= polls[i].end
  }

  function JobPoll(t: Trace, p: Poll): Trace {
    if !Selected(t.d, p.at) then t
    else
      var sends := t.d.retryCount < MAX_RETRIES && !NotDue(t.d, p.at) && p.lookup.Sendable?;
      Trace(Handled(t.d, p), if sends then t.log + [Attempt(p.start, p.end, p.response.Refused?)] else t.log)
  }

  function JobRun(t: Trace, polls: seq<Poll>): Trace
    decreases polls
  {
    if polls == [] then t else JobRun(JobPoll(t, polls[0]), polls[1..])
  }

  /** Attempt k failed, and the next one waited for longer than the pause after k + 1 failures. */
  predicate Spaced(log: seq<Attempt>, k: nat)
    requires k + 1 < |log|
  {
    log[k].failed && log[k + 1].start > log[k].end + Backoff(k + 1)
  }

  ghost predicate WellSpaced(log: seq<Attempt>) {
    && |log| <= MAX_RETRIES
    && (forall k :: 0 <= k < |log| ==> log[k].start <= log[k].end)
    && (forall k: nat :: k + 1 < |log| ==> Spaced(log, k))
  }

  /** The log accounts for the row: every failure counted, the next attempt due after its pause. */
  predicate Accounts(t: Trace) {
    match t.d.status
    case Pending => t.d == FRESH && t.log == []
    case Retrying =>
      && 0 < |t.log| < MAX_RETRIES && t.d.retryCount == |t.log| && Last(t.log).failed
      && t.d.nextRetryAt == Some(Last(t.log).end + Backoff(|t.log|))
    case Failed => |t.log| == MAX_RETRIES && Last(t.log).failed
    case Delivered => t.log != [] && !Last(t.log).failed
    case Dropped => |t.log| < MAX_RETRIES
    case Delivering => false
  }

  function Last(log: seq<Attempt>): Attempt
    requires log != []
  {
    log[|log| - 1]
  }

  lemma Extend(log: seq<Attempt>, a: Attempt)
    requires WellSpaced(log) && |log| < MAX_RETRIES && a.start <= a.end
    requires log != [] ==> Last(log).failed && a.start > Last(log).end + Backoff(|log|)
    ensures WellSpaced(log + [a])
  {
    var longer := log + [a];
    forall k: nat | k + 1 < |longer| ensures Spaced(longer, k) {
      if k + 1 < |log| {
        assert Spaced(log, k);
      }
    }
  }

  lemma PollAccounts(t: Trace, p: Poll)
    requires WellSpaced(t.log) && Accounts(t) && p.at <= p.start <= p.end
    ensures WellSpaced(JobPoll(t, p).log) && Accounts(JobPoll(t, p))
  {
    if Selected(t.d, p.at) && !NotDue(t.d, p.at) && p.lookup.Sendable? {
      Extend(t.log, Attempt(p.start, p.end, p.response.Refused?));
    }
  }

  lemma {:induction false} RunAccounts(t: Trace, polls: seq<Poll>)
    requires WellSpaced(t.log) && Accounts(t) && Ordered(polls)
    ensures WellSpaced(JobRun(t, polls).log) && Accounts(JobRun(t, polls))
    decreases polls
  {
    if polls != [] {
      PollAccounts(t, polls[0]);
      RunAccounts(JobPoll(t, polls[0]), polls[1..]);
    }
  }

  /** The pauses after the first k failures, added up. */
  function TotalPause(k: nat): nat { if k == 0 then 0 else TotalPause(k - 1) + Backoff(k) }

  lemma {:induction false} Spread(log: seq<Attempt>, k: nat)
    requires WellSpaced(log) && 0 < k < |log|
    ensures log[k].start >= log[0].end + TotalPause(k)
  {
    assert Spaced(log, k - 1);
    if k > 1 {
      Spread(log, k - 1);
    }
  }

  lemma NinePauses()
    ensures TotalPause(9) == 483 * 60
  {
    assert TotalPause(3) == 480;
    assert TotalPause(6) == 3780;
  }

  /**
   A delivery handled by the job alone, with a clock that never runs backward and every write saved,
   is sent at most ten times; attempt k + 1 starts later than the schedule's pause after failure k; a
   tenth attempt comes at least 483 minutes after the first failure; only the last attempt can be a
   success; and the row ends Failed exactly when ten attempts failed.
   */
  lemma JobBacksOffAndStops(polls: seq<Poll>)
    requires Ordered(polls)
    ensures var t := JobRun(Trace(FRESH, []), polls);
            && |t.log| <= 10
            && (forall k: nat :: k + 1 < |t.log| ==> Spaced(t.log, k))
            && (|t.log| == 10 ==> t.log[9].start >= t.log[0].end + 483 * 60)
            && (t.d.status == Failed <==> |t.log| == 10 && t.log[9].failed)
            && (t.d.status == Delivered ==> t.log != [] && !Last(t.log).failed)
  {
    var t := JobRun(Trace(FRESH, []), polls);
    RunAccounts(Trace(FRESH, []), polls);
    if |t.log| == MAX_RETRIES {
      Spread(t.log, 9);
      NinePauses();
    }
  }

  // ------------------------------------------------------------- what the job gets done

  /** The pause after each failure, in minutes; the last one repeats. */
  lemma PausesInMinutes(failures: nat)
    requires failures > 0
    ensures var minutes := [1, 2, 5, 10, 15, 30, 60, 120, 240, 480];
            Backoff(failures) == 60 * if failures <= 10 then minutes[failures - 1] else 480
  {
  }

  /** The row after each way a dispatch can end. */
  lemma OutcomeOf(d: Delivery, start: Time, end: Time)
    ensures forall response :: Dispatched(d, LookupError, response, start, end) == d
    ensures forall response :: Dispatched(d, Inactive, response, start, end) == d.(status := Dropped)
    ensures Dispatched(d, Sendable, Accepted, start, end) == Delivery(Delivered, d.retryCount, None, Some(start))
    ensures Dispatched(d, Sendable, Refused, start, end) ==
            if d.retryCount + 1 < 10
            then Delivery(Retrying, d.retryCount + 1, Some(end + Backoff(d.retryCount + 1)), Some(start))
            else Delivery(Failed, d.retryCount + 1, None, Some(start))
  {
  }

  /** What the job does with a fetched row: ten retries are given up, a retry that is not due is left, the rest dispatched. */
  lemma HandledIs(d: Delivery, p: Poll)
    ensures d.retryCount >= 10 ==> Handled(d, p) == Delivery(Failed, d.retryCount, None, d.lastAttemptAt)
    ensures d.retryCount < 10 && d.status == Retrying && d.nextRetryAt.Some? && p.at < d.nextRetryAt.value ==> Handled(d, p) == d
    ensures d.retryCount < 10 && (d.status != Retrying || d.nextRetryAt == None || d.nextRetryAt.value <= p.at) ==>
              Handled(d, p) == Dispatched(d, p.lookup, p.response, p.start, p.end)
  {
  }

  /** A new delivery is pending, never tried and not due at any time. */
  lemma NewRow()
    ensures FRESH.status == Pending && FRESH.retryCount == 0 && FRESH.nextRetryAt == None && FRESH.lastAttemptAt == None
  {
  }

  /** Waiting for the job: new, or to be retried and due before the poll. */
  predicate Waiting(d: Delivery, at: Time) {
    && d.retryCount < 10
    && ((d.status == Pending && d.nextRetryAt == None) || (d.status == Retrying && d.nextRetryAt.Some? && d.nextRetryAt.value < at))
  }

  /** A poll sends a waiting row of a sendable merchant: once, with the outcome of that request. */
  lemma PollSends(t: Trace, p: Poll)
    requires Waiting(t.d, p.at) && p.lookup.Sendable?
    ensures JobPoll(t, p).log == t.log + [Attempt(p.start, p.end, p.response.Refused?)]
    ensures p.response.Accepted? ==> JobPoll(t, p).d == Delivery(Delivered, t.d.retryCount, None, Some(p.start))
    ensures p.response.Refused? ==>
              JobPoll(t, p).d == if t.d.retryCount + 1 < 10
                                 then Delivery(Retrying, t.d.retryCount + 1, Some(p.end + Backoff(t.d.retryCount + 1)), Some(p.start))
                                 else Delivery(Failed, t.d.retryCount + 1, None, Some(p.start))
  {
    OutcomeOf(t.d, p.start, p.end);
  }

  /** A poll leaves every row alone that is not waiting for it: one that is due later, sent, closed or out. */
  lemma PollLeavesAlone(t: Trace, p: Poll)
    requires t.d.status != Pending && (t.d.status == Retrying ==> t.d.nextRetryAt.Some? && p.at <= t.d.nextRetryAt.value)
    ensures JobPoll(t, p) == t
  {
  }

  /** A poll of a waiting row drops it when the merchant is inactive and leaves it when the merchant cannot be read. */
  lemma PollWithoutMerchant(t: Trace, p: Poll)
    requires Waiting(t.d, p.at)
    ensures p.lookup.Inactive? ==> JobPoll(t, p) == Trace(t.d.(status := Dropped), t.log)
    ensures p.lookup.LookupError? ==> JobPoll(t, p) == t
  {
  }

  /** Each poll finds the row due and is refused. */
  predicate AllRefused(polls: seq<Poll>, due: Option<Time>, failures: nat)
    decreases polls
  {
    polls != [] ==>
    && (due.Some? ==> due.value < polls[0].at)
    && polls[0].lookup.Sendable? && polls[0].response.Refused?
    && AllRefused(polls[1..], Some(polls[0].end + Backoff(failures + 1)), failures + 1)
  }

  lemma {:induction false} RefusedRun(t: Trace, polls: seq<Poll>)
    requires t.d.retryCount + |polls| <= 10 && AllRefused(polls, t.d.nextRetryAt, t.d.retryCount)
    requires polls != [] ==> (t.d.status == Pending && t.d.nextRetryAt == None) || (t.d.status == Retrying && t.d.nextRetryAt.Some?)
    ensures var end := JobRun(t, polls);
            && |end.log| == |t.log| + |polls| && end.d.retryCount == t.d.retryCount + |polls|
            && (polls != [] ==> end.d.status == if t.d.retryCount + |polls| < 10 then Retrying else Failed)
    decreases polls
  {
    if polls != [] {
      PollSends(t, polls[0]);
      RefusedRun(JobPoll(t, polls[0]), polls[1..]);
    }
  }

  /** A new delivery whose polls each come after its due time and are refused is sent every time and fails at the tenth. */
  lemma TenRefusalsFail(polls: seq<Poll>)
    requires |polls| == 10 && AllRefused(polls, None, 0)
    ensures var t := JobRun(Trace(FRESH, []), polls);
            |t.log| == 10 && t.d.status == Failed && t.d.retryCount == 10
  {
    RefusedRun(Trace(FRESH, []), polls);
  }

  /** A retry by hand sends any row at once, whatever its status and due time. */
  lemma ManualRetrySends(s: State, worker: nat, response: Response)
    requires s.copies == map[]
    ensures Run(s, [HandFetch(worker), Start(worker, Sendable, true), Finish(worker, response, true)]) ==
            State(s.now, Dispatched(s.row, Sendable, response, s.now, s.now), map[])
  {
    var a, b, c := HandFetch(worker), Start(worker, Sendable, true), Finish(worker, response, true);
    var fetched := Apply(s, a);
    assert fetched.copies == map[worker := ByHand(s.row)];
    var started := Apply(fetched, b);
    assert Apply(started, c).copies == map[];
    assert [a, b, c][1..] == [b, c] && [b, c][1..] == [c] && [c][1..] == [];
    assert Run(started, [c]) == Apply(started, c);
    assert Run(fetched, [b, c]) == Run(started, [c]);
  }

  /** A worker's whole turn; the steps that do not apply to the row leave the state alone. */
  function Turn(p: Poll, worker: nat): seq<Step>
    requires p.at <= p.start <= p.end
  {
    [JobFetch(worker), JobGuard(worker, true), Tick(p.start - p.at), Start(worker, p.lookup, true),
     Tick(p.end - p.start), Finish(worker, p.response, true)]
  }

  lemma RunSix(s: State, a: Step, b: Step, c: Step, d: Step, e: Step, f: Step)
    ensures Run(s, [a, b, c, d, e, f]) == Apply(Apply(Apply(Apply(Apply(Apply(s, a), b), c), d), e), f)
  {
    RunSnoc(s, [], a);
    RunSnoc(s, [a], b);
    RunSnoc(s, [a, b], c);
    RunSnoc(s, [a, b, c], d);
    RunSnoc(s, [a, b, c, d], e);
    RunSnoc(s, [a, b, c, d, e], f);
    assert [] + [a] == [a] && [a] + [b] == [a, b] && [a, b] + [c] == [a, b, c] && [a, b, c] + [d] == [a, b, c, d];
    assert [a, b, c, d] + [e] == [a, b, c, d, e] && [a, b, c, d, e] + [f] == [a, b, c, d, e, f];
  }

  /** A poll, whatever the row, the lookup and the response, is one worker's turn with nothing lost. */
  lemma PollIsOneWorker(s: State, p: Poll, worker: nat)
    requires s.copies == map[] && s.now == p.at <= p.start <= p.end
    ensures Run(s, Turn(p, worker)) == State(p.end, JobPoll(Trace(s.row, []), p).d, map[])
  {
    var t := Turn(p, worker);
    RunSix(s, t[0], t[1], t[2], t[3], t[4], t[5]);
    var fetched := Apply(s, t[0]);
    var guarded := Apply(fetched, t[1]);
    var waited := Apply(guarded, t[2]);
    var started := Apply(waited, t[3]);
    var done := Apply(Apply(started, t[4]), t[5]);
    assert fetched == s || fetched.copies == map[worker := ByJob(s.row)];
    assert guarded.copies == fetched.copies || guarded.copies == map[];
    assert done.copies == map[];
  }

  // ------------------------------------------------------- whole runs of the state machine

  /** Polls follow one another on a clock that does not run backward. */
  predicate InTurn(now: Time, polls: seq<Poll>)
    decreases polls
  {
    polls == [] || (now <= polls[0].at <= polls[0].start <= polls[0].end && InTurn(polls[0].end, polls[1..]))
  }

  /** One worker's turns, one for each poll. */
  function Turns(now: Time, polls: seq<Poll>, worker: nat): seq<Step>
    requires InTurn(now, polls)
    decreases polls
  {
    if polls == [] then []
    else [Tick(polls[0].at - now)] + Turn(polls[0], worker) + Turns(polls[0].end, polls[1..], worker)
  }

  lemma {:induction false} RunAppend(s: State, a: seq<Step>, b: seq<Step>)
    ensures Run(s, a + b) == Run(Run(s, a), b)
    decreases a
  {
    if a == [] {
      assert a + b == b;
    } else {
      assert (a + b)[1..] == a[1..] + b;
      RunAppend(Apply(s, a[0]), a[1..], b);
    }
  }

  /** The log is only written. */
  lemma PollIgnoresLog(d: Delivery, log: seq<Attempt>, p: Poll)
    ensures JobPoll(Trace(d, log), p).d == JobPoll(Trace(d, []), p).d
  {
  }

  /** A run of polls is the run of that worker's turns in the state machine, with nothing lost. */
  lemma {:induction false} JobRunIsTurns(s: State, log: seq<Attempt>, polls: seq<Poll>, worker: nat)
    requires s.copies == map[] && InTurn(s.now, polls)
    ensures Run(s, Turns(s.now, polls, worker)).row == JobRun(Trace(s.row, log), polls).d
    decreases polls
  {
    if polls != [] {
      var p, wait := polls[0], [Tick(polls[0].at - s.now)];
      var waited := s.(now := p.at);
      assert wait[1..] == [];
      assert Run(s, wait) == waited;
      var t := JobPoll(Trace(s.row, log), p);
      var next := State(p.end, t.d, map[]);
      PollIsOneWorker(waited, p, worker);
      PollIgnoresLog(s.row, log, p);
      RunAppend(s, wait, Turn(p, worker));
      RunAppend(s, wait + Turn(p, worker), Turns(p.end, polls[1..], worker));
      JobRunIsTurns(next, t.log, polls[1..], worker);
    }
  }

  // ------------------------------------------------------------- attempts that overlap

  /** The step sends a request. */
  predicate Sends(s: State, step: Step) {
    step.Start? && Sender(Apply(s, step), step.worker) && !Sender(s, step.worker)
  }

  function SendCount(s: State, steps: seq<Step>): nat
    decreases steps
  {
    if steps == [] then 0 else (if Sends(s, steps[0]) then 1 else 0) + SendCount(Apply(s, steps[0]), steps[1..])
  }

  /** No retry by hand, no fetch while another worker holds a copy, and the write that stores Delivering arrives. */
  predicate Alone(s: State, step: Step) {
    && !step.HandFetch?
    && (step.JobFetch? ==> s.copies == map[])
    && (step.Start? ==> step.saved)
  }

  /** How the row and the one copy account for the requests sent so far. */
  ghost predicate Counted(s: State, sent: nat) {
    && (forall v, w :: v in s.copies && w in s.copies ==> v == w)
    && (forall w :: w in s.copies ==> CopyCounted(s.copies[w], s.row, sent))
    && (s.copies == map[] ==> RowCounted(s.row, sent))
  }

  predicate CopyCounted(c: Copy, row: Delivery, sent: nat) {
    match c
    case ByJob(d) => d == row && sent == d.retryCount < MAX_RETRIES && (d.status == Pending || d.status == Retrying)
    case Sending(d) => d == row && sent == d.retryCount + 1 <= MAX_RETRIES && d.status == Delivering
    case ByHand(_) => false
  }

  predicate RowCounted(d: Delivery, sent: nat) {
    if d.status == Pending || d.status == Retrying then sent == d.retryCount < MAX_RETRIES else sent <= MAX_RETRIES
  }

  lemma StepCounts(s: State, step: Step, sent: nat)
    requires Counted(s, sent) && Alone(s, step)
    ensures Counted(Apply(s, step), sent + if Sends(s, step) then 1 else 0)
  {
    var s' := Apply(s, step);
    if w :| w in s.copies {
      assert s.copies.Keys == {w};
      assert s'.copies == map[] || (w in s'.copies && s'.copies.Keys == {w});
    }
  }

  lemma {:induction false} RunCounts(s: State, steps: seq<Step>, sent: nat)
    requires Counted(s, sent) && forall k :: 0 <= k < |steps| ==> Alone(After(s, steps, k), steps[k])
    ensures Counted(Run(s, steps), sent + SendCount(s, steps))
    decreases steps
  {
    if steps != [] {
      assert After(s, steps, 0) == s;
      StepCounts(s, steps[0], sent);
      var s', rest := Apply(s, steps[0]), steps[1..];
      forall k | 0 <= k < |rest| ensures Alone(After(s', rest, k), rest[k]) {
        assert steps[..k + 1][1..] == rest[..k];
        assert After(s, steps, k + 1) == After(s', rest, k);
        assert Alone(After(s, steps, k + 1), steps[k + 1]);
      }
      RunCounts(s', rest, sent + if Sends(s, steps[0]) then 1 else 0);
    }
  }

  /**
   Over every run in which workers do not overlap, nobody retries by hand and no first write is lost,
   at most ten requests are sent, whatever final writes are lost and whichever workers crash.
   */
  lemma TenRequestsAlone(s: State, steps: seq<Step>)
    requires s.row == FRESH && s.copies == map[]
    requires forall k :: 0 <= k < |steps| ==> Alone(After(s, steps, k), steps[k])
    ensures SendCount(s, steps) <= 10
  {
    RunCounts(s, steps, 0);
    CountedIsTen(Run(s, steps), SendCount(s, steps));
  }

  lemma CountedIsTen(s: State, sent: nat)
    requires Counted(s, sent)
    ensures sent <= MAX_RETRIES
  {
    if w :| w in s.copies {
      assert CopyCounted(s.copies[w], s.row, sent);
    } else {
      assert s.copies == map[];
    }
  }

  function Fetches(n: nat): seq<Step> { seq(n, i requires 0 <= i < n => JobFetch(i)) }

  function Starts(n: nat): seq<Step> { seq(n, i requires 0 <= i < n => Start(i, Sendable, true)) }

  /** n workers hold a copy of the new row, the first k of them out with a request. */
  predicate Burst(s: State, n: nat, k: nat) {
    && (forall w :: w in s.copies ==> w < n)
    && (forall w: nat :: w < n ==> w in s.copies && if w < k then s.copies[w].Sending? else s.copies[w] == ByJob(FRESH))
  }

  lemma {:induction false} FetchesBurst(now: Time, n: nat)
    ensures var s := Run(Init(now), Fetches(n)); Burst(s, n, 0) && s.row == FRESH
  {
    if n > 0 {
      FetchesBurst(now, n - 1);
      assert Fetches(n) == Fetches(n - 1) + [JobFetch(n - 1)];
      RunSnoc(Init(now), Fetches(n - 1), JobFetch(n - 1));
    }
  }

  lemma {:induction false} StartsBurst(s: State, n: nat, k: nat)
    requires Burst(s, n, 0) && k <= n
    ensures Burst(Run(s, Starts(k)), n, k) && SendCount(s, Starts(k)) == k
  {
    if k > 0 {
      StartsBurst(s, n, k - 1);
      var step := Start(k - 1, Sendable, true);
      assert Starts(k) == Starts(k - 1) + [step];
      RunSnoc(s, Starts(k - 1), step);
      SendCountSnoc(s, Starts(k - 1), step);
    }
  }

  lemma {:induction false} SendCountSnoc(s: State, steps: seq<Step>, last: Step)
    ensures SendCount(s, steps + [last]) == SendCount(s, steps) + if Sends(Run(s, steps), last) then 1 else 0
    decreases steps
  {
    if steps == [] {
      assert [last][1..] == [];
      assert SendCount(Apply(s, last), []) == 0;
    } else {
      assert (steps + [last])[1..] == steps[1..] + [last];
      SendCountSnoc(Apply(s, steps[0]), steps[1..], last);
    }
  }

  /** Overlapping workers break the bound: any number of them can send the same new delivery, with nothing lost. */
  lemma OverlapIsUnbounded(now: Time, n: nat)
    ensures SendCount(Run(Init(now), Fetches(n)), Starts(n)) == n
  {
    FetchesBurst(now, n);
    StartsBurst(Run(Init(now), Fetches(n)), n, n);
  }
}
