/**
 The privacy lifecycle of internal/usecases/payment_usecase.go: a stage derived from the payment
 row and its append-only event log, the recovery transactions that the stage admits, and the
 status report, in which the gateway contract's state overrides the stage.
 */
module PrivacyLifecycle {
  import opened Amounts
  import PaymentIdSearch

  datatype PaymentStatus = Pending | Processing | Completed | Failed | Refunded

  /** `destTxHash` is empty when the column is null. */
  datatype Payment = Payment(status: PaymentStatus, destTxHash: string, failureReason: string)

  /** An event's type, its metadata, and the text that formatting the metadata gives. */
  datatype Event = Event(kind: string, shown: string, metadata: PaymentIdSearch.Json)

  datatype Stage =
    | Unknown | NotPrivacy | PendingOnSource | SettledToStealth | ForwardedFinal
    | ForwardFailedRetrying | Claimable | Refundable | Resolved

  datatype Reason = NoReason | FailureText | NoConfirmation | NoMarkers | SettledNoMarkers | PendingNoMarkers | Insufficient

  // --------------------------------------------------------------------- text

  function UpperChar(c: char): char {
    if 'a' <= c <= 'z' then (c as int - 'a' as int + 'A' as int) as char else c
  }

  /** strings.ToUpper on ASCII letters. */
  function Upper(s: string): string { seq(|s|, i requires 0 <= i < |s| => UpperChar(s[i])) }

  predicate At(s: string, part: string, i: nat) {
    i + |part| <= |s| && s[i..i + |part|] == part
  }

  predicate Contains(s: string, part: string) {
    exists i: nat :: i <= |s| && At(s, part, i)
  }

  lemma ContainsPrefix(s: string, part: string, prefix: string)
    requires Contains(s, part) && prefix <= part
    ensures Contains(s, prefix)
  {
    var i: nat :| i <= |s| && At(s, part, i);
    assert s[i..i + |prefix|] == part[..|prefix|];
    assert At(s, prefix, i);
  }

  // ------------------------------------------------------------------- evidence

  /** What one event can be evidence of. */
  datatype Mark = Privacy | Prepared | Requested | RetryRequested | Forwarded | Claimed | Repaid | ForwardFailed | Stealth

  /** Any one of these texts is the mark. */
  function Texts(m: Mark): seq<string> {
    match m
    case Privacy => ["PRIVACY"]
    case Prepared => ["PRIVACYPAYMENTCREATED", "PRIVACY_PAYMENT_CREATED"]
    case Requested => ["PRIVACYFORWARDREQUESTED", "PRIVACY_FORWARD_REQUESTED"]
    case RetryRequested => ["PRIVACYFORWARDRETRYREQUESTED", "PRIVACY_FORWARD_RETRY_REQUESTED"]
    case Forwarded => ["PRIVACYFORWARDCOMPLETED", "PRIVACY_FORWARD_COMPLETED"]
    case Claimed => ["PRIVACYESCROWCLAIMED", "PRIVACY_ESCROW_CLAIMED", "PRIVACYCLAIMED", "PRIVACY_CLAIMED"]
    case Repaid => ["PRIVACYESCROWREFUNDED", "PRIVACY_ESCROW_REFUNDED", "PRIVACYREFUNDED", "PRIVACY_REFUNDED"]
    case ForwardFailed => ["PRIVACY_FORWARD_FAILED"]
    case Stealth => ["STEALTH"]
  }

  function Kind(e: Event): string { Upper(TrimSpace(e.kind)) }

  function Blob(e: Event): string { Kind(e) + "|" + Upper(TrimSpace(e.shown)) }

  predicate Mentions(text: string, m: Mark) {
    exists i :: 0 <= i < |Texts(m)| && Contains(text, Texts(m)[i])
  }

  predicate Bears(e: Event, m: Mark) {
    || Mentions(Blob(e), m)
    || (m == Stealth && (Kind(e) == "DESTINATION_TX_HASH" || Kind(e) == "PAYMENT_EXECUTED"))
  }

  predicate Logged(events: seq<Event>, m: Mark) {
    exists i :: 0 <= i < |events| && Bears(events[i], m)
  }

  function FailureUpper(p: Payment): string { Upper(TrimSpace(p.failureReason)) }

  /** The failure reason is evidence of privacy and of a forward failure; events are of every mark. */
  predicate Shows(p: Payment, events: seq<Event>, m: Mark) {
    Logged(events, m) || ((m == Privacy || m == ForwardFailed) && Mentions(FailureUpper(p), m))
  }

  predicate Settled(p: Payment) { TrimSpace(p.destTxHash) != "" }

  predicate RefundDue(p: Payment) { p.status == Failed || Contains(FailureUpper(p), "REFUND") }

  /** The order in which the source looks for them in an event. */
  const MARK_ORDER: seq<Mark> := [Privacy, Prepared, Requested, RetryRequested, Forwarded, Claimed, Repaid, Stealth, ForwardFailed]

  const MARKS: set<Mark> := set m | m in MARK_ORDER

  /** The marks a payment and its log show. */
  function Evidence(p: Payment, events: seq<Event>): set<Mark> {
    set m: Mark | m in MARKS && Shows(p, events, m)
  }

  // ------------------------------------------------------------------ derivation

  datatype Verdict = Verdict(stage: Stage, isPrivacy: bool, reason: Reason)

  function Decide(p: Payment, marks: set<Mark>): Verdict {
    if Claimed in marks || Repaid in marks then Verdict(Resolved, true, NoReason)
    else if ForwardFailed in marks then
      if RetryRequested in marks then Verdict(ForwardFailedRetrying, true, FailureText)
      else if RefundDue(p) then Verdict(Refundable, true, FailureText)
      else Verdict(Claimable, true, FailureText)
    else if RetryRequested in marks then Verdict(ForwardFailedRetrying, true, FailureText)
    else if Forwarded in marks then Verdict(ForwardedFinal, true, NoReason)
    else if Requested in marks then Verdict(SettledToStealth, true, NoReason)
    else if p.status == Completed && (Settled(p) || Stealth in marks) then
      if Privacy in marks then Verdict(SettledToStealth, true, NoConfirmation) else Verdict(NotPrivacy, false, NoMarkers)
    else if Settled(p) || Stealth in marks || p.status == Processing then
      if Privacy in marks then Verdict(SettledToStealth, true, NoReason) else Verdict(Unknown, false, SettledNoMarkers)
    else if p.status == Pending then
      if Prepared in marks || Privacy in marks then Verdict(PendingOnSource, true, NoReason)
      else Verdict(Unknown, false, PendingNoMarkers)
    else if Privacy in marks then Verdict(PendingOnSource, true, NoReason)
    else Verdict(Unknown, false, Insufficient)
  }

  function Derive(p: Payment, events: seq<Event>): Verdict { Decide(p, Evidence(p, events)) }

  /** The signal names reported beside a stage. */
  datatype Signal = DestTxHashPresent | ReasonMentions(m: Mark) | EventBears(m: Mark)

  /** Every mark but a stealth settlement is reported. */
  predicate Reported(p: Payment, events: seq<Event>, s: Signal) {
    match s
    case DestTxHashPresent => Settled(p)
    case ReasonMentions(m) => (m == Privacy || m == ForwardFailed) && Mentions(FailureUpper(p), m)
    case EventBears(m) => m != Stealth && Logged(events, m)
  }

  lemma LoggedSnoc(events: seq<Event>, e: Event, m: Mark)
    ensures Logged(events + [e], m) <==> Logged(events, m) || Bears(e, m)
  {
    var longer := events + [e];
    if Logged(events, m) {
      var i :| 0 <= i < |events| && Bears(events[i], m);
      assert Bears(longer[i], m);
    }
    if Bears(e, m) {
      assert Bears(longer[|events|], m);
    }
  }

  /** What one event adds to the marks seen and to the signals, mark by mark. */
  method ReadMarks(e: Event, order: seq<Mark>, seen: set<Mark>, signals: seq<Signal>) returns (marks: set<Mark>, out: seq<Signal>)
    ensures forall m :: m in marks <==> m in seen || (m in order && Bears(e, m))
    ensures forall s :: s in out <==> s in signals || (s.EventBears? && s.m in order && s.m != Stealth && Bears(e, s.m))
  {
    marks, out := seen, signals;
    for i := 0 to |order|
      invariant forall m :: m in marks <==> m in seen || (m in order[..i] && Bears(e, m))
      invariant forall s :: s in out <==> s in signals || (s.EventBears? && s.m in order[..i] && s.m != Stealth && Bears(e, s.m))
    {
      assert order[..i + 1] == order[..i] + [order[i]];
      if Bears(e, order[i]) {
        marks := marks + {order[i]};
        if order[i] != Stealth {
          out := out + [EventBears(order[i])];
        }
      }
    }
  }

  lemma EveryMark(m: Mark)
    ensures m in MARK_ORDER && m in MARKS
  {
  }

  function Dedupe(s: seq<Signal>): (u: seq<Signal>)
    ensures forall x :: x in u <==> x in s
    ensures forall i, j :: 0 <= i < j < |u| ==> u[i] != u[j]
    ensures |u| <= |s|
  {
    if s == [] then []
    else
      var u := Dedupe(s[..|s| - 1]);
      if s[|s| - 1] in u then u else u + [s[|s| - 1]]
  }

  /** `dedupeSignals`: the first occurrence of each signal stays. */
  method DedupeSignals(signals: seq<Signal>) returns (unique: seq<Signal>)
    ensures unique == Dedupe(signals)
  {
    var seen: set<Signal> := {};
    unique := [];
    for i := 0 to |signals|
      invariant unique == Dedupe(signals[..i])
      invariant forall s :: s in seen <==> s in unique
    {
      assert signals[..i + 1][..i] == signals[..i];
      if signals[i] !in seen {
        seen := seen + {signals[i]};
        unique := unique + [signals[i]];
      }
    }
    assert signals[..|signals|] == signals;
  }

  /** What the payment row itself shows. */
  method ReadPayment(p: Payment) returns (marks: set<Mark>, all: seq<Signal>)
    ensures forall m :: m in marks <==> (m == Privacy || m == ForwardFailed) && Mentions(FailureUpper(p), m)
    ensures forall s :: s in all <==> !s.EventBears? && Reported(p, [], s)
  {
    var failureUpper := FailureUpper(p);
    marks, all := {}, [];
    if Settled(p) {
      all := all + [DestTxHashPresent];
    }
    if Mentions(failureUpper, Privacy) {
      marks, all := marks + {Privacy}, all + [ReasonMentions(Privacy)];
    }
    if Mentions(failureUpper, ForwardFailed) {
      marks, all := marks + {ForwardFailed}, all + [ReasonMentions(ForwardFailed)];
    }
  }

  /** The loop over the events. */
  method ReadLog(events: seq<Event>, seen: set<Mark>, signals: seq<Signal>) returns (marks: set<Mark>, out: seq<Signal>)
    ensures forall m :: m in marks <==> m in seen || Logged(events, m)
    ensures forall s :: s in out <==> s in signals || (s.EventBears? && s.m != Stealth && Logged(events, s.m))
  {
    marks, out := seen, signals;
    for i := 0 to |events|
      invariant forall m :: m in marks <==> m in seen || Logged(events[..i], m)
      invariant forall s :: s in out <==> s in signals || (s.EventBears? && s.m != Stealth && Logged(events[..i], s.m))
    {
      assert events[..i + 1] == events[..i] + [events[i]];
      forall m: Mark ensures Logged(events[..i + 1], m) <==> Logged(events[..i], m) || Bears(events[i], m) {
        LoggedSnoc(events[..i], events[i], m);
      }
      forall m: Mark ensures m in MARK_ORDER {
        EveryMark(m);
      }
      marks, out := ReadMarks(events[i], MARK_ORDER, marks, out);
    }
    assert events[..|events|] == events;
  }

  /** `derivePaymentPrivacyLifecycle`. */
  method DerivePaymentPrivacyLifecycle(p: Payment, events: seq<Event>) returns (verdict: Verdict, signals: seq<Signal>)
    ensures verdict == Derive(p, events)
    ensures forall s :: s in signals <==> Reported(p, events, s)
    ensures forall i, j :: 0 <= i < j < |signals| ==> signals[i] != signals[j]
  {
    var marks, all := ReadPayment(p);
    marks, all := ReadLog(events, marks, all);
    EvidenceIs(p, events, marks);
    verdict := Decide(p, marks);
    signals := DedupeSignals(all);
  }

  lemma EvidenceIs(p: Payment, events: seq<Event>, marks: set<Mark>)
    requires forall m :: m in marks <==> Shows(p, events, m)
    ensures marks == Evidence(p, events)
  {
    forall m: Mark ensures m in MARKS {
      EveryMark(m);
    }
  }

  // -------------------------------------------------------- the log is read as a set

  lemma LoggedWithin(events: seq<Event>, more: seq<Event>, m: Mark)
    requires forall e :: e in events ==> e in more
    ensures Logged(events, m) ==> Logged(more, m)
  {
    if Logged(events, m) {
      var i :| 0 <= i < |events| && Bears(events[i], m);
      assert events[i] in more;
      var k :| 0 <= k < |more| && more[k] == events[i];
      assert Bears(more[k], m);
    }
  }

  lemma MoreEventsMoreEvidence(p: Payment, events: seq<Event>, more: seq<Event>)
    requires forall e :: e in events ==> e in more
    ensures Evidence(p, events) <= Evidence(p, more)
  {
    forall m | m in Evidence(p, events) ensures m in Evidence(p, more) {
      LoggedWithin(events, more, m);
    }
  }

  /** Reordering and repeating events changes nothing. */
  lemma OrderAndRepetitionAreIrrelevant(p: Payment, events: seq<Event>, others: seq<Event>)
    requires forall e :: e in events <==> e in others
    ensures Derive(p, events) == Derive(p, others)
  {
    MoreEventsMoreEvidence(p, events, others);
    MoreEventsMoreEvidence(p, others, events);
    assert Evidence(p, events) == Evidence(p, others);
  }

  function Rank(s: Stage): nat {
    match s
    case Unknown | NotPrivacy => 0
    case PendingOnSource => 1
    case SettledToStealth => 2
    case ForwardedFinal => 3
    case Claimable | Refundable => 4
    case ForwardFailedRetrying => 5
    case Resolved => 6
  }

  // ------------------------------------------------- what privacy evidence there must be

  lemma PrivateTexts(m: Mark, i: nat)
    requires m != Stealth && i < |Texts(m)|
    ensures "PRIVACY" <= Texts(m)[i]
  {
  }

  lemma MentionIsPrivate(text: string, m: Mark)
    requires m != Stealth && Mentions(text, m)
    ensures Mentions(text, Privacy)
  {
    var i :| 0 <= i < |Texts(m)| && Contains(text, Texts(m)[i]);
    PrivateTexts(m, i);
    ContainsPrefix(text, Texts(m)[i], "PRIVACY");
    assert Contains(text, Texts(Privacy)[0]);
  }

  /** Every mark but a stealth settlement comes with the mark of privacy itself. */
  lemma MarksArePrivate(p: Payment, events: seq<Event>, m: Mark)
    requires m != Stealth && Shows(p, events, m)
    ensures Shows(p, events, Privacy)
  {
    if Logged(events, m) {
      var i :| 0 <= i < |events| && Bears(events[i], m);
      MentionIsPrivate(Blob(events[i]), m);
      assert Bears(events[i], Privacy);
    } else {
      MentionIsPrivate(FailureUpper(p), m);
    }
  }

  predicate Coherent(marks: set<Mark>) {
    Privacy !in marks ==> marks <= {Stealth}
  }

  lemma EvidenceIsCoherent(p: Payment, events: seq<Event>)
    ensures Coherent(Evidence(p, events))
  {
    forall m | m in Evidence(p, events) && m != Stealth ensures Privacy in Evidence(p, events) {
      MarksArePrivate(p, events, m);
    }
  }

  lemma DecideIsPrivate(p: Payment, marks: set<Mark>)
    requires Coherent(marks)
    ensures Decide(p, marks).isPrivacy <==> Privacy in marks
    ensures Decide(p, marks).isPrivacy <==> Decide(p, marks).stage != Unknown && Decide(p, marks).stage != NotPrivacy
  {
  }

  /**
   The whole decision collapses on this question: a payment is in the privacy flow exactly when its
   failure reason or some event contains PRIVACY, which is exactly when its stage is neither
   unknown nor not-privacy.
   */
  lemma IsPrivacyIff(p: Payment, events: seq<Event>)
    ensures Derive(p, events).isPrivacy <==>
              (exists i :: 0 <= i < |events| && Contains(Blob(events[i]), "PRIVACY")) || Contains(FailureUpper(p), "PRIVACY")
    ensures Derive(p, events).isPrivacy <==> Derive(p, events).stage !in {Unknown, NotPrivacy}
  {
    EvidenceIsCoherent(p, events);
    DecideIsPrivate(p, Evidence(p, events));
    forall text: string ensures Mentions(text, Privacy) <==> Contains(text, "PRIVACY") {
      assert Texts(Privacy)[0] == "PRIVACY";
    }
    assert Privacy in Evidence(p, events) <==> Shows(p, events, Privacy);
  }

  lemma DecideOnlyAdvances(p: Payment, marks: set<Mark>, more: set<Mark>)
    requires marks <= more && Coherent(marks) && Coherent(more)
    ensures Rank(Decide(p, marks).stage) <= Rank(Decide(p, more).stage)
  {
  }

  /** For a fixed payment row, new events move the stage forward only. */
  lemma StageOnlyAdvances(p: Payment, events: seq<Event>, more: seq<Event>)
    requires forall e :: e in events ==> e in more
    ensures Rank(Derive(p, events).stage) <= Rank(Derive(p, more).stage)
  {
    MoreEventsMoreEvidence(p, events, more);
    EvidenceIsCoherent(p, events);
    EvidenceIsCoherent(p, more);
    DecideOnlyAdvances(p, Evidence(p, events), Evidence(p, more));
  }

  // --------------------------------------------------------- the stage in terms of texts

  /** Some event's type and metadata contain one of the two texts. */
  predicate Says(events: seq<Event>, a: string, b: string) {
    exists i :: 0 <= i < |events| && (Contains(Blob(events[i]), a) || Contains(Blob(events[i]), b))
  }

  lemma MentionsTwo(text: string, m: Mark)
    requires |Texts(m)| == 2
    ensures Mentions(text, m) <==> Contains(text, Texts(m)[0]) || Contains(text, Texts(m)[1])
  {
  }

  lemma SaysTwo(events: seq<Event>, m: Mark)
    requires |Texts(m)| == 2 && m != Stealth
    ensures Logged(events, m) <==> Says(events, Texts(m)[0], Texts(m)[1])
  {
    forall i | 0 <= i < |events| ensures Bears(events[i], m) <==>
      Contains(Blob(events[i]), Texts(m)[0]) || Contains(Blob(events[i]), Texts(m)[1])
    {
      MentionsTwo(Blob(events[i]), m);
    }
  }

  lemma SaysOne(events: seq<Event>, m: Mark)
    requires |Texts(m)| == 1 && m != Stealth
    ensures Logged(events, m) <==> Says(events, Texts(m)[0], Texts(m)[0])
  {
    forall i | 0 <= i < |events| ensures Bears(events[i], m) <==> Contains(Blob(events[i]), Texts(m)[0]) {
    }
  }

  lemma SaysFour(events: seq<Event>, m: Mark)
    requires |Texts(m)| == 4 && m != Stealth
    ensures Logged(events, m) <==>
              Says(events, Texts(m)[0], Texts(m)[1]) || Says(events, Texts(m)[2], Texts(m)[3])
  {
    forall i | 0 <= i < |events| ensures Bears(events[i], m) <==>
      || Contains(Blob(events[i]), Texts(m)[0]) || Contains(Blob(events[i]), Texts(m)[1])
      || Contains(Blob(events[i]), Texts(m)[2]) || Contains(Blob(events[i]), Texts(m)[3])
    {
    }
  }

  predicate SaysPrepared(events: seq<Event>) { Says(events, "PRIVACYPAYMENTCREATED", "PRIVACY_PAYMENT_CREATED") }

  predicate SaysRequested(events: seq<Event>) { Says(events, "PRIVACYFORWARDREQUESTED", "PRIVACY_FORWARD_REQUESTED") }

  predicate SaysRetry(events: seq<Event>) { Says(events, "PRIVACYFORWARDRETRYREQUESTED", "PRIVACY_FORWARD_RETRY_REQUESTED") }

  predicate SaysCompleted(events: seq<Event>) { Says(events, "PRIVACYFORWARDCOMPLETED", "PRIVACY_FORWARD_COMPLETED") }

  predicate SaysClosed(events: seq<Event>) {
    || Says(events, "PRIVACYESCROWCLAIMED", "PRIVACY_ESCROW_CLAIMED") || Says(events, "PRIVACYCLAIMED", "PRIVACY_CLAIMED")
    || Says(events, "PRIVACYESCROWREFUNDED", "PRIVACY_ESCROW_REFUNDED") || Says(events, "PRIVACYREFUNDED", "PRIVACY_REFUNDED")
  }

  predicate SaysFailed(p: Payment, events: seq<Event>) {
    || Says(events, "PRIVACY_FORWARD_FAILED", "PRIVACY_FORWARD_FAILED")
    || Contains(FailureUpper(p), "PRIVACY_FORWARD_FAILED")
  }

  predicate SaysPrivacy(p: Payment, events: seq<Event>) {
    Says(events, "PRIVACY", "PRIVACY") || Contains(FailureUpper(p), "PRIVACY")
  }

  /** The payment has reached its destination: a destination hash, or an event that says so. */
  predicate Arrived(p: Payment, events: seq<Event>) {
    || TrimSpace(p.destTxHash) != "" || Says(events, "STEALTH", "STEALTH")
    || exists i :: 0 <= i < |events| && (Kind(events[i]) == "DESTINATION_TX_HASH" || Kind(events[i]) == "PAYMENT_EXECUTED")
  }

  lemma PrivacyTexts(p: Payment, events: seq<Event>)
    ensures Privacy in Evidence(p, events) <==> SaysPrivacy(p, events)
    ensures ForwardFailed in Evidence(p, events) <==> SaysFailed(p, events)
  {
    SaysOne(events, Privacy);
    SaysOne(events, ForwardFailed);
    assert Texts(Privacy)[0] == "PRIVACY" && Texts(ForwardFailed)[0] == "PRIVACY_FORWARD_FAILED";
  }

  lemma InEvidence(p: Payment, events: seq<Event>, m: Mark)
    requires m != Privacy && m != ForwardFailed
    ensures m in Evidence(p, events) <==> Logged(events, m)
  {
    EveryMark(m);
  }

  lemma RequestTexts(p: Payment, events: seq<Event>)
    ensures Requested in Evidence(p, events) <==> SaysRequested(events)
    ensures RetryRequested in Evidence(p, events) <==> SaysRetry(events)
  {
    InEvidence(p, events, Requested);
    InEvidence(p, events, RetryRequested);
    SaysTwo(events, Requested);
    SaysTwo(events, RetryRequested);
  }

  lemma CompletionTexts(p: Payment, events: seq<Event>)
    ensures Forwarded in Evidence(p, events) <==> SaysCompleted(events)
    ensures Prepared in Evidence(p, events) <==> SaysPrepared(events)
  {
    InEvidence(p, events, Forwarded);
    InEvidence(p, events, Prepared);
    SaysTwo(events, Forwarded);
    SaysTwo(events, Prepared);
  }

  /** Which mark each text is. */
  lemma EvidenceTexts(p: Payment, events: seq<Event>)
    ensures var marks := Evidence(p, events);
            && (Privacy in marks <==> SaysPrivacy(p, events))
            && (ForwardFailed in marks <==> SaysFailed(p, events))
            && (Requested in marks <==> SaysRequested(events))
            && (RetryRequested in marks <==> SaysRetry(events))
            && (Forwarded in marks <==> SaysCompleted(events))
            && (Prepared in marks <==> SaysPrepared(events))
  {
    PrivacyTexts(p, events);
    RequestTexts(p, events);
    CompletionTexts(p, events);
  }

  lemma ClaimTexts(p: Payment, events: seq<Event>)
    ensures Claimed in Evidence(p, events) <==>
              Says(events, "PRIVACYESCROWCLAIMED", "PRIVACY_ESCROW_CLAIMED") || Says(events, "PRIVACYCLAIMED", "PRIVACY_CLAIMED")
  {
    InEvidence(p, events, Claimed);
    SaysFour(events, Claimed);
  }

  lemma RefundTexts(p: Payment, events: seq<Event>)
    ensures Repaid in Evidence(p, events) <==>
              Says(events, "PRIVACYESCROWREFUNDED", "PRIVACY_ESCROW_REFUNDED") || Says(events, "PRIVACYREFUNDED", "PRIVACY_REFUNDED")
  {
    InEvidence(p, events, Repaid);
    SaysFour(events, Repaid);
  }

  lemma ClosingTexts(p: Payment, events: seq<Event>)
    ensures Claimed in Evidence(p, events) || Repaid in Evidence(p, events) <==> SaysClosed(events)
  {
    ClaimTexts(p, events);
    RefundTexts(p, events);
  }

  lemma ArrivalTexts(p: Payment, events: seq<Event>)
    ensures Settled(p) || Stealth in Evidence(p, events) <==> Arrived(p, events)
  {
    forall i | 0 <= i < |events| ensures Bears(events[i], Stealth) <==>
      || Contains(Blob(events[i]), "STEALTH") || Kind(events[i]) == "DESTINATION_TX_HASH" || Kind(events[i]) == "PAYMENT_EXECUTED"
    {
      assert Texts(Stealth)[0] == "STEALTH";
    }
  }

  /** The stage, written as one condition for each, in terms of what the texts of the payment and its log say. */
  predicate StageMatches(stage: Stage, p: Payment, closed: bool, failed: bool, retry: bool, completed: bool, requested: bool,
                         private: bool, arrived: bool, refund: bool) {
    var open := !closed && !failed && !retry && !completed && !requested;
    match stage
    case Resolved => closed
    case ForwardFailedRetrying => !closed && retry
    case Refundable => !closed && !retry && failed && refund
    case Claimable => !closed && !retry && failed && !refund
    case ForwardedFinal => !closed && !failed && !retry && completed
    case SettledToStealth => !closed && !failed && !retry && !completed && (requested || (private && (arrived || p.status == Processing)))
    case PendingOnSource => open && private && !arrived && p.status != Processing
    case NotPrivacy => !private && arrived && p.status == Completed
    case Unknown => !private && !(arrived && p.status == Completed)
  }

  lemma DecideMatches(p: Payment, marks: set<Mark>, stage: Stage)
    requires Coherent(marks)
    ensures Decide(p, marks).stage == stage <==>
            StageMatches(stage, p, Claimed in marks || Repaid in marks, ForwardFailed in marks, RetryRequested in marks,
                         Forwarded in marks, Requested in marks, Privacy in marks, Settled(p) || Stealth in marks, RefundDue(p))
  {
  }

  /**
   Each stage exactly when the texts say so: which of them contain a claim, a refund, a forward failure,
   a retry request, a completion, a request, the word PRIVACY, or an arrival.
   */
  lemma StageIff(p: Payment, events: seq<Event>, stage: Stage)
    ensures Derive(p, events).stage == stage <==>
            StageMatches(stage, p, SaysClosed(events), SaysFailed(p, events), SaysRetry(events), SaysCompleted(events),
                         SaysRequested(events), SaysPrivacy(p, events), Arrived(p, events),
                         p.status == Failed || Contains(FailureUpper(p), "REFUND"))
  {
    EvidenceIsCoherent(p, events);
    EvidenceTexts(p, events);
    ClosingTexts(p, events);
    ArrivalTexts(p, events);
    DecideMatches(p, Evidence(p, events), stage);
  }

  /** The reason given with each stage. */
  lemma ReasonIff(p: Payment, events: seq<Event>)
    ensures var v := Derive(p, events);
            && (v.reason == FailureText <==> v.stage in {ForwardFailedRetrying, Refundable, Claimable})
            && (v.reason == NoMarkers <==> v.stage == NotPrivacy)
            && (v.reason == NoConfirmation <==>
                  v.stage == SettledToStealth && !SaysRequested(events) && p.status == Completed && Arrived(p, events))
            && (v.reason == SettledNoMarkers <==> v.stage == Unknown && (Arrived(p, events) || p.status == Processing))
            && (v.reason == PendingNoMarkers <==> v.stage == Unknown && !Arrived(p, events) && p.status == Pending)
            && (v.reason == Insufficient <==>
                  v.stage == Unknown && !Arrived(p, events) && p.status != Pending && p.status != Processing)
  {
    EvidenceIsCoherent(p, events);
    EvidenceTexts(p, events);
    ArrivalTexts(p, events);
    DecideReasons(p, Evidence(p, events));
  }

  lemma DecideReasons(p: Payment, marks: set<Mark>)
    requires Coherent(marks)
    ensures var v, arrived := Decide(p, marks), Settled(p) || Stealth in marks;
            && (v.reason == FailureText <==> v.stage in {ForwardFailedRetrying, Refundable, Claimable})
            && (v.reason == NoMarkers <==> v.stage == NotPrivacy)
            && (v.reason == NoConfirmation <==>
                  v.stage == SettledToStealth && Requested !in marks && p.status == Completed && arrived)
            && (v.reason == SettledNoMarkers <==> v.stage == Unknown && (arrived || p.status == Processing))
            && (v.reason == PendingNoMarkers <==> v.stage == Unknown && !arrived && p.status == Pending)
            && (v.reason == Insufficient <==> v.stage == Unknown && !arrived && p.status != Pending && p.status != Processing)
  {
  }

  /** A text contains another exactly when it is that one with something before and after. */
  lemma ContainsIff(s: string, part: string)
    ensures Contains(s, part) <==> exists before: string, behind: string :: s == before + part + behind
  {
    if i: nat :| i <= |s| && At(s, part, i) {
      assert s == s[..i] + part + s[i + |part|..];
    }
    if before: string, behind: string :| s == before + part + behind {
      assert s[|before|..|before| + |part|] == part;
      assert At(s, part, |before|);
    }
  }

  /** Both the type and the metadata of an event are read, the one after the other. */
  lemma BlobIs(e: Event, text: string)
    ensures Contains(Upper(TrimSpace(e.kind)), text) ==> Contains(Blob(e), text)
    ensures Contains(Upper(TrimSpace(e.shown)), text) ==> Contains(Blob(e), text)
    ensures Blob(e) == Upper(TrimSpace(e.kind)) + "|" + Upper(TrimSpace(e.shown))
  {
    var kind, shown := Upper(TrimSpace(e.kind)), Upper(TrimSpace(e.shown));
    if i: nat :| i <= |kind| && At(kind, text, i) {
      assert Blob(e)[i..i + |text|] == kind[i..i + |text|];
      assert At(Blob(e), text, i);
    }
    if i: nat :| i <= |shown| && At(shown, text, i) {
      var k := |kind| + 1 + i;
      assert Blob(e)[k..k + |text|] == shown[i..i + |text|];
      assert At(Blob(e), text, k);
    }
  }

  /** Which signals the payment row gives beside the stage, in terms of the texts. */
  lemma RowSignalsIff(p: Payment, events: seq<Event>)
    ensures Reported(p, events, DestTxHashPresent) <==> TrimSpace(p.destTxHash) != ""
    ensures Reported(p, events, ReasonMentions(Privacy)) <==> Contains(FailureUpper(p), "PRIVACY")
    ensures Reported(p, events, ReasonMentions(ForwardFailed)) <==> Contains(FailureUpper(p), "PRIVACY_FORWARD_FAILED")
  {
    assert Texts(Privacy)[0] == "PRIVACY" && Texts(ForwardFailed)[0] == "PRIVACY_FORWARD_FAILED";
  }

  /** Every mark but an arrival is signalled, each exactly when it is logged; its texts are those of the stage. */
  lemma LogSignalsIff(p: Payment, events: seq<Event>, m: Mark)
    ensures Reported(p, events, EventBears(m)) <==>
            m != Stealth && if m == Privacy then Says(events, "PRIVACY", "PRIVACY")
                            else if m == ForwardFailed then Says(events, "PRIVACY_FORWARD_FAILED", "PRIVACY_FORWARD_FAILED")
                            else m in Evidence(p, events)
  {
    if m == Privacy || m == ForwardFailed {
      SaysOne(events, m);
      assert Texts(Privacy)[0] == "PRIVACY" && Texts(ForwardFailed)[0] == "PRIVACY_FORWARD_FAILED";
    } else {
      InEvidence(p, events, m);
    }
  }

  /** The order is that of the first occurrences: more signals never move those already listed. */
  lemma {:induction false} DedupeGrows(s: seq<Signal>, i: nat)
    requires i <= |s|
    ensures Dedupe(s[..i]) <= Dedupe(s)
    decreases |s| - i
  {
    if i == |s| {
      assert s[..i] == s;
    } else {
      assert s[..i + 1][..i] == s[..i];
      DedupeGrows(s, i + 1);
    }
  }

  /** Letter case and surrounding spaces of an event's type and metadata do not matter. */
  lemma CaseAndSpacesAreIrrelevant(e: Event, kind: string, shown: string)
    requires Upper(TrimSpace(kind)) == Upper(TrimSpace(e.kind)) && Upper(TrimSpace(shown)) == Upper(TrimSpace(e.shown))
    ensures Blob(Event(kind, shown, e.metadata)) == Blob(e)
    ensures Upper("privacy_z") == "PRIVACY_Z" && TrimSpace(" a ") == "a"
  {
    assert Upper("privacy_z") == "PRIVACY_Z";
    assert " a "[1..] == "a " && "a "[..1] == "a";
    assert TrimLeft(" a ") == TrimLeft("a ") == "a ";
    assert TrimRight("a ") == TrimRight("a") == "a";
  }

  // --------------------------------------------------------------------- recovery

  datatype Action = Retry | Claim | Refund | OtherAction

  datatype RecoveryError = NotInPrivacyFlow | StageForbids | NoPaymentId | NoGateway | NoChain

  datatype Recovery = Built(tx: RecoveryTx) | Denied(error: RecoveryError)

  datatype RecoveryTx = RecoveryTx(action: Action, id: PaymentIdSearch.PaymentId, stage: Stage, reason: Reason)

  /** `validatePrivacyRecoveryStage`. */
  predicate Allowed(stage: Stage, action: Action) {
    match action
    case Retry => stage == ForwardFailedRetrying || stage == Claimable || stage == Refundable
    case Claim => stage == Claimable || stage == ForwardFailedRetrying || stage == SettledToStealth
    case Refund => stage == Refundable || stage == ForwardFailedRetrying
    case OtherAction => false
  }

  function Metadata(events: seq<Event>): seq<PaymentIdSearch.Json> {
    seq(|events|, i requires 0 <= i < |events| => events[i].metadata)
  }

  /** What the rest of the system answers while a transaction is built. */
  datatype World = World(decode: PaymentIdSearch.Decoder, gatewayFound: bool, chainFound: bool)

  /** `buildPrivacyRecoveryTx`, from the loaded payment and events on. */
  function BuildRecovery(p: Payment, events: seq<Event>, raw: string, action: Action, w: World): Recovery {
    var v := Derive(p, events);
    if !v.isPrivacy then Denied(NotInPrivacyFlow)
    else if !Allowed(v.stage, action) then Denied(StageForbids)
    else match PaymentIdSearch.Resolve(Metadata(events), raw, w.decode)
      case None => Denied(NoPaymentId)
      case Some(id) =>
        if !w.gatewayFound then Denied(NoGateway)
        else if !w.chainFound then Denied(NoChain)
        else Built(RecoveryTx(action, id, v.stage, v.reason))
  }

  /** The evidence under which each action is open. */
  predicate Open(p: Payment, marks: set<Mark>, action: Action) {
    && Claimed !in marks && Repaid !in marks
    && match action
       case Retry => ForwardFailed in marks || RetryRequested in marks
       case Refund => RetryRequested in marks || (ForwardFailed in marks && RefundDue(p))
       case Claim =>
         || RetryRequested in marks
         || (ForwardFailed in marks && !RefundDue(p))
         || (ForwardFailed !in marks && Forwarded !in marks &&
             (Requested in marks || (Privacy in marks && (Settled(p) || Stealth in marks || p.status == Processing))))
       case OtherAction => false
  }

  lemma DecideOpens(p: Payment, marks: set<Mark>, action: Action)
    requires Coherent(marks)
    ensures Decide(p, marks).isPrivacy && Allowed(Decide(p, marks).stage, action) <==> Open(p, marks, action)
  {
  }

  /** A recovery transaction is built exactly when the evidence opens the action and the rest is found. */
  lemma RecoveryIff(p: Payment, events: seq<Event>, raw: string, action: Action, w: World)
    ensures BuildRecovery(p, events, raw, action, w).Built? <==>
              && Open(p, Evidence(p, events), action)
              && PaymentIdSearch.Resolve(Metadata(events), raw, w.decode).Some?
              && w.gatewayFound && w.chainFound
  {
    EvidenceIsCoherent(p, events);
    DecideOpens(p, Evidence(p, events), action);
  }

  /** Whether the texts open an action. */
  predicate OpenByTexts(p: Payment, events: seq<Event>, action: Action) {
    var failed, retry := SaysFailed(p, events), SaysRetry(events);
    var refund := p.status == Failed || Contains(FailureUpper(p), "REFUND");
    && !SaysClosed(events)
    && match action
       case Retry => failed || retry
       case Refund => retry || (failed && refund)
       case Claim =>
         || retry || (failed && !refund)
         || (!failed && !SaysCompleted(events) &&
             (SaysRequested(events) || (SaysPrivacy(p, events) && (Arrived(p, events) || p.status == Processing))))
       case OtherAction => false
  }

  /**
   What a request for a recovery transaction gets, in terms of the texts: the first thing that is missing,
   or the transaction for the action with the resolved id and the stage and reason of the log.
   */
  lemma RecoveryIs(p: Payment, events: seq<Event>, raw: string, action: Action, w: World)
    ensures var id := PaymentIdSearch.Resolve(Metadata(events), raw, w.decode);
            BuildRecovery(p, events, raw, action, w) ==
            if !SaysPrivacy(p, events) then Denied(NotInPrivacyFlow)
            else if !OpenByTexts(p, events, action) then Denied(StageForbids)
            else if id.None? then Denied(NoPaymentId)
            else if !w.gatewayFound then Denied(NoGateway)
            else if !w.chainFound then Denied(NoChain)
            else Built(RecoveryTx(action, id.value, Derive(p, events).stage, Derive(p, events).reason))
  {
    var marks := Evidence(p, events);
    EvidenceIsCoherent(p, events);
    DecideIsPrivate(p, marks);
    DecideOpens(p, marks, action);
    EvidenceTexts(p, events);
    OpensByTexts(p, events, action);
  }

  lemma OpensByTexts(p: Payment, events: seq<Event>, action: Action)
    ensures Open(p, Evidence(p, events), action) <==> OpenByTexts(p, events, action)
  {
    EvidenceTexts(p, events);
    ClosingTexts(p, events);
    ArrivalTexts(p, events);
  }

  /**
   After a claim or a refund is logged, every log that still holds those events is resolved, for
   whatever payment row, and no action yields a transaction.
   */
  lemma ResolvedForGood(events: seq<Event>, more: seq<Event>, p: Payment, raw: string, action: Action, w: World)
    requires Logged(events, Claimed) || Logged(events, Repaid)
    requires forall e :: e in events ==> e in more
    ensures Derive(p, more) == Verdict(Resolved, true, NoReason)
    ensures BuildRecovery(p, more, raw, action, w) == Denied(StageForbids)
  {
    assert Logged(more, Claimed) || Logged(more, Repaid) by {
      LoggedWithin(events, more, Claimed);
      LoggedWithin(events, more, Repaid);
    }
    assert Claimed in Evidence(p, more) || Repaid in Evidence(p, more);
    ResolvedIsDenied(p, more, raw, action, w);
  }

  lemma ResolvedIsDenied(p: Payment, events: seq<Event>, raw: string, action: Action, w: World)
    requires Derive(p, events) == Verdict(Resolved, true, NoReason)
    ensures BuildRecovery(p, events, raw, action, w) == Denied(StageForbids)
  {
  }

  /** Retry and refund need a forward failure or a retry request on record; a refund needs more. */
  lemma RecoveryNeedsFailure(p: Payment, events: seq<Event>, raw: string, action: Action, w: World)
    requires BuildRecovery(p, events, raw, action, w).Built? && (action == Retry || action == Refund)
    ensures Shows(p, events, ForwardFailed) || Logged(events, RetryRequested)
    ensures action == Refund ==> RefundDue(p) || Logged(events, RetryRequested)
    ensures BuildRecovery(p, events, raw, Retry, w).Built?
  {
    RecoveryIff(p, events, raw, action, w);
    RecoveryIff(p, events, raw, Retry, w);
  }

  // ---------------------------------------------------------------- status report

  /** What the gateway contract stores for a payment. */
  datatype Gateway = Gateway(hasIntent: bool, hasStealth: bool, forwarded: bool, retryCount: nat, settled: bool)

  datatype Reading = Unreadable | Read(state: Gateway)

  predicate GatewayPrivate(g: Gateway) { g.hasIntent || g.hasStealth || g.forwarded || g.retryCount > 0 }

  /** `deriveGatewayPrivacyLifecycle` laid over the stage from the log. */
  function StatusStage(p: Payment, v: Verdict, r: Reading): Stage {
    if r.Unreadable? || !(v.isPrivacy || GatewayPrivate(r.state)) then v.stage
    else if r.state.forwarded then ForwardedFinal
    else if r.state.retryCount > 0 then
      if RefundDue(p) || p.status == Refunded then Refundable
      else if v.stage == ForwardFailedRetrying || Contains(FailureUpper(p), "RETRY") then ForwardFailedRetrying
      else Claimable
    else if r.state.settled then SettledToStealth
    else PendingOnSource
  }

  /** The gateway state under which the report's stage admits an action. */
  predicate GatewayOpens(p: Payment, v: Verdict, g: Gateway, action: Action) {
    var refund := RefundDue(p) || p.status == Refunded;
    && !g.forwarded
    && match action
       case Retry => g.retryCount > 0
       case Refund =>
         g.retryCount > 0 && (refund || v.stage == ForwardFailedRetrying || Contains(FailureUpper(p), "RETRY"))
       case Claim => if g.retryCount > 0 then !refund else g.settled
       case OtherAction => false
  }

  /** Of a private payment with a readable gateway, the report offers an action exactly when that state opens it. */
  lemma ReportOffersIff(p: Payment, v: Verdict, g: Gateway, action: Action)
    requires v.isPrivacy || GatewayPrivate(g)
    ensures Allowed(StatusStage(p, v, Read(g)), action) <==> GatewayOpens(p, v, g, action)
  {
  }

  /** The reported stage of a private payment whose gateway can be read, for each state of the gateway. */
  lemma StatusStageIff(p: Payment, v: Verdict, g: Gateway, stage: Stage)
    requires v.isPrivacy || g.hasIntent || g.hasStealth || g.forwarded || g.retryCount > 0
    ensures var refund := p.status == Failed || p.status == Refunded || Contains(FailureUpper(p), "REFUND");
            var retrying := v.stage == ForwardFailedRetrying || Contains(FailureUpper(p), "RETRY");
            StatusStage(p, v, Read(g)) == stage <==>
            match stage
            case ForwardedFinal => g.forwarded
            case Refundable => !g.forwarded && g.retryCount > 0 && refund
            case ForwardFailedRetrying => !g.forwarded && g.retryCount > 0 && !refund && retrying
            case Claimable => !g.forwarded && g.retryCount > 0 && !refund && !retrying
            case SettledToStealth => !g.forwarded && g.retryCount == 0 && g.settled
            case PendingOnSource => !g.forwarded && g.retryCount == 0 && !g.settled
            case _ => false
  {
  }

  /** Without a readable gateway, or when neither side shows privacy, the stage of the log is reported. */
  lemma StatusStageFallsBack(p: Payment, v: Verdict, g: Gateway)
    ensures StatusStage(p, v, Unreadable) == v.stage
    ensures !v.isPrivacy && !g.hasIntent && !g.hasStealth && !g.forwarded && g.retryCount == 0 ==> StatusStage(p, v, Read(g)) == v.stage
  {
  }

  /**
   The status report can offer an action that no transaction will be built for: of a claimed or
   refunded payment it does so exactly when the gateway is readable, not forwarded, and shows a
   failed forward or a settlement; it reports the resolution only when the gateway is unreadable.
   */
  lemma ResolvedReportIff(p: Payment, events: seq<Event>, r: Reading, raw: string, w: World)
    requires Logged(events, Claimed) || Logged(events, Repaid)
    ensures StatusStage(p, Derive(p, events), r) == Resolved <==> r.Unreadable?
    ensures (exists action :: Allowed(StatusStage(p, Derive(p, events), r), action) &&
                              BuildRecovery(p, events, raw, action, w) == Denied(StageForbids))
              <==> r.Read? && !r.state.forwarded && (r.state.retryCount > 0 || r.state.settled)
  {
    forall action: Action ensures BuildRecovery(p, events, raw, action, w) == Denied(StageForbids) {
      ResolvedForGood(events, events, p, raw, action, w);
    }
    ResolvedForGood(events, events, p, raw, Claim, w);
    var stage := StatusStage(p, Derive(p, events), r);
    if r.Read? && !r.state.forwarded && (r.state.retryCount > 0 || r.state.settled) {
      assert Allowed(stage, Claim) || Allowed(stage, Retry);
    }
  }

  /** A log that holds one claim. */
  const CLAIMED: seq<Event> := [Event("PRIVACY_CLAIMED", "", PaymentIdSearch.Null)]

  lemma ClaimIsLogged()
    ensures Logged(CLAIMED, Claimed)
  {
    var kind := "PRIVACY_CLAIMED";
    TrimNothing(kind);
    assert Upper(kind) == kind;
    assert Blob(CLAIMED[0])[..|kind|] == kind;
    assert At(Blob(CLAIMED[0]), kind, 0);
    assert Contains(Blob(CLAIMED[0]), Texts(Claimed)[3]);
    assert Bears(CLAIMED[0], Claimed);
  }

  /** A claimed payment whose gateway still shows the settlement is offered a claim that is never built. */
  lemma ClaimedIsOfferedAgain(raw: string, w: World)
    ensures var p := Payment(Completed, "", "");
            && Allowed(StatusStage(p, Derive(p, CLAIMED), Read(Gateway(true, true, false, 0, true))), Claim)
            && BuildRecovery(p, CLAIMED, raw, Claim, w) == Denied(StageForbids)
  {
    ClaimIsLogged();
    ResolvedForGood(CLAIMED, CLAIMED, Payment(Completed, "", ""), raw, Claim, w);
  }

  /** The report calls a payment private exactly when the log does or a readable gateway shows it. */
  lemma StatusPrivateIff(p: Payment, events: seq<Event>, r: Reading)
    ensures StatusStage(p, Derive(p, events), r) !in {Unknown, NotPrivacy} <==>
              Derive(p, events).isPrivacy || (r.Read? && GatewayPrivate(r.state))
  {
    IsPrivacyIff(p, events);
  }
}
