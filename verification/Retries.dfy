/** Counting over whole runs: attempts are conserved, the allowance bounds them, and the schedule is kept. */
module Retries {
  import opened Prelude
  import opened Webhooks
  import opened Models
  import opened Operations
  import opened Protocol
  import opened Invariants
  import opened Preservation
  import opened Fencing
  import opened Retention

  ghost function CountOwned(w: World, es: seq<Event>, d: DeliveryId): nat
    decreases |es|
  {
    if es == [] then 0 else (if Owned(w, es[0], d) then 1 else 0) + CountOwned(Step(w, es[0]), es[1..], d)
  }

  ghost function CountSuperseded(w: World, es: seq<Event>, d: DeliveryId): nat
    decreases |es|
  {
    if es == [] then 0 else (if Superseded(w, es[0], d) then 1 else 0) + CountSuperseded(Step(w, es[0]), es[1..], d)
  }

  ghost function CountReplays(w: World, es: seq<Event>, d: DeliveryId): nat
    decreases |es|
  {
    if es == [] then 0 else (if Replays(w, es[0], d) then 1 else 0) + CountReplays(Step(w, es[0]), es[1..], d)
  }

  // A delivery that does not exist yet has made no attempt.
  function AttemptsOf(w: World, d: DeliveryId): nat {
    if d in w.tables.deliveries then w.tables.deliveries[d].attempts else 0
  }

  function CycleOf(w: World, d: DeliveryId): nat {
    if d in w.tables.deliveries then w.tables.deliveries[d].cycleAttempts else 0
  }

  lemma StepMovesCounters(w: World, e: Event, d: DeliveryId)
    requires Legal(w, e)
    ensures var v := Step(w, e);
            && AttemptsOf(v, d) == AttemptsOf(w, d) + (if Records(w, e, d) then 1 else 0)
            && CycleOf(v, d) == if Replays(w, e, d) then 0 else CycleOf(w, d) + (if Owned(w, e, d) then 1 else 0)
  {
    if d in w.tables.deliveries {
      StepMovesRow(w, e, d);
    } else if d in Step(w, e).tables.deliveries {
      StepAddsOnlyNewRows(w, e, d);
    }
  }

  lemma StepKeepsPolicy(w: World, e: Event)
    ensures Step(w, e).policy == w.policy
  {
    if e.Advance? && e.id in w.requests {
      AdvanceInserts(w, e.id);
    }
  }

  /** The lifetime total rises by exactly the owned and the superseded completions of the run, over all cycles. */
  lemma {:induction false} AttemptsAreConserved(w: World, es: seq<Event>, d: DeliveryId)
    requires LegalRun(w, es)
    ensures AttemptsOf(Exec(w, es), d) == AttemptsOf(w, d) + CountOwned(w, es, d) + CountSuperseded(w, es, d)
    decreases |es|
  {
    if es != [] {
      StepMovesCounters(w, es[0], d);
      AttemptsAreConserved(Step(w, es[0]), es[1..], d);
    }
  }

  /** Until something is replayed the cycle counter rises by exactly the owned completions. */
  lemma {:induction false} CycleCountsOwned(w: World, es: seq<Event>, d: DeliveryId)
    requires LegalRun(w, es) && CountReplays(w, es, d) == 0
    ensures CycleOf(Exec(w, es), d) == CycleOf(w, d) + CountOwned(w, es, d)
    decreases |es|
  {
    if es != [] {
      StepMovesCounters(w, es[0], d);
      CycleCountsOwned(Step(w, es[0]), es[1..], d);
    }
  }

  /** The two counters of a delivery never replayed differ by exactly its superseded completions. */
  lemma CountersDifferBySuperseded(policy: RetryPolicy, es: seq<Event>, d: DeliveryId)
    requires policy.Valid() && LegalRun(Init(policy), es) && CountReplays(Init(policy), es, d) == 0
    ensures var w := Exec(Init(policy), es);
            && AttemptsOf(w, d) == CycleOf(w, d) + CountSuperseded(Init(policy), es, d)
            && (AttemptsOf(w, d) == CycleOf(w, d) <==> CountSuperseded(Init(policy), es, d) == 0)
  {
    AttemptsAreConserved(Init(policy), es, d);
    CycleCountsOwned(Init(policy), es, d);
  }

  // One delivery, claimed by worker 0, then by worker 1 once the lease is over; worker 0 reports last.
  const OVERTAKEN := Submission(0, 0.0, [], None, None)
  const RECEIVER := Webhook("", "")

  function OvertakenRun(result: DeliveryResult): seq<Event> {
    [Arrive(0, OVERTAKEN, Some(RECEIVER), 0), Advance(0), TryClaim(0, 0.0, 1.0, 0), TryClaim(0, 1.0, 1.0, 1),
      Finish(0, 0, result, 1.0, false)]
  }

  lemma RunUnfolds(w: World, e: Event, rest: seq<Event>, d: DeliveryId)
    ensures LegalRun(w, [e] + rest) <==> Legal(w, e) && LegalRun(Step(w, e), rest)
    ensures Exec(w, [e] + rest) == Exec(Step(w, e), rest)
    ensures CountReplays(w, [e] + rest, d) == (if Replays(w, e, d) then 1 else 0) + CountReplays(Step(w, e), rest, d)
  {
    assert ([e] + rest)[1..] == rest;
  }

  lemma AcceptedOnce(policy: RetryPolicy)
    ensures var w := Step(Step(Init(policy), Arrive(0, OVERTAKEN, Some(RECEIVER), 0)), Advance(0));
            && w.grants == map[] && w.jobs == map[]
            && w.tables == Tables(map[0 := OVERTAKEN], map[0 := NewDelivery(0, OVERTAKEN, RECEIVER, 0.0)], map[])
  {
  }

  // Both claims take; the second replaces the first one's token.
  lemma ReclaimedBy(w: World)
    requires w.tables == Tables(map[0 := OVERTAKEN], map[0 := NewDelivery(0, OVERTAKEN, RECEIVER, 0.0)], map[])
             && w.grants == map[]
    ensures Legal(w, TryClaim(0, 0.0, 1.0, 0))
    ensures var v := Step(w, TryClaim(0, 0.0, 1.0, 0));
            var u := Step(v, TryClaim(0, 1.0, 1.0, 1));
            && Legal(v, TryClaim(0, 1.0, 1.0, 1))
            && 0 in u.jobs && u.jobs[0].delivery == 0 && u.jobs[0].submission == Some(0)
            && u.tables.submissions == w.tables.submissions && u.tables.attempts == map[]
            && u.tables.deliveries == map[0 := ClaimedRow(w.tables.deliveries[0], 2.0, 1)]
  {
  }

  /** Two counters never replayed can differ, contrary to their documentation: a late completion counts in one only. */
  lemma CountersCanDifferWithoutReplay(policy: RetryPolicy, result: DeliveryResult)
    ensures var es := OvertakenRun(result);
            && LegalRun(Init(policy), es)
            && CountReplays(Init(policy), es, 0) == 0
            && AttemptsOf(Exec(Init(policy), es), 0) == 1
            && CycleOf(Exec(Init(policy), es), 0) == 0
  {
    AcceptedOnce(policy);
    var es := OvertakenRun(result);
    var w := Init(policy);
    var w1 := Step(w, es[0]);
    var w2 := Step(w1, es[1]);
    ReclaimedBy(w2);
    var w3 := Step(w2, es[2]);
    var w4 := Step(w3, es[3]);
    RunUnfolds(w4, es[4], [], 0);
    RunUnfolds(w3, es[3], [es[4]], 0);
    RunUnfolds(w2, es[2], [es[3], es[4]], 0);
    RunUnfolds(w1, es[1], [es[2], es[3], es[4]], 0);
    RunUnfolds(w, es[0], [es[1], es[2], es[3], es[4]], 0);
    assert es == [es[0], es[1], es[2], es[3], es[4]];
  }

  // One event, by its three effects on the account.
  lemma AllowanceOneStep(max: int, cycle: int, next: int, owned: bool, replayed: bool, ownedLater: nat,
                         replaysLater: nat)
    requires cycle <= max && !(owned && replayed)
    requires next == if replayed then 0 else cycle + if owned then 1 else 0
    requires next + ownedLater <= max * (1 + replaysLater)
    ensures cycle + (if owned then 1 else 0) + ownedLater <= max * (1 + (if replayed then 1 else 0) + replaysLater)
  {
    assert max * (1 + 1 + replaysLater) == max + max * (1 + replaysLater);
  }

  lemma CycleIsWithinAllowance(w: World, d: DeliveryId)
    requires Inv(w)
    ensures 0 <= CycleOf(w, d) <= w.policy.maxAttempts
  {
    if d in w.tables.deliveries {
      assert RowOk(w.tables.deliveries[d], w.policy);
    }
  }

  ghost predicate WithinAllowance(w: World, es: seq<Event>, d: DeliveryId) {
    CycleOf(w, d) + CountOwned(w, es, d) <= w.policy.maxAttempts * (1 + CountReplays(w, es, d))
  }

  lemma AllowanceOfStep(w: World, es: seq<Event>, d: DeliveryId)
    requires es != [] && Legal(w, es[0]) && CycleOf(w, d) <= w.policy.maxAttempts
    requires WithinAllowance(Step(w, es[0]), es[1..], d)
    ensures WithinAllowance(w, es, d)
  {
    var v := Step(w, es[0]);
    StepKeepsPolicy(w, es[0]);
    StepMovesCounters(w, es[0], d);
    AllowanceOneStep(w.policy.maxAttempts, CycleOf(w, d), CycleOf(v, d), Owned(w, es[0], d), Replays(w, es[0], d),
                     CountOwned(v, es[1..], d), CountReplays(v, es[1..], d));
  }

  /** Retrying stops: each entry into the queue buys at most max_attempts owned completions. */
  lemma {:induction false} AllowanceBoundsOwnedAttempts(w: World, es: seq<Event>, d: DeliveryId)
    requires Inv(w) && LegalRun(w, es)
    ensures CycleOf(w, d) + CountOwned(w, es, d) <= w.policy.maxAttempts * (1 + CountReplays(w, es, d))
    decreases |es|
  {
    CycleIsWithinAllowance(w, d);
    if es != [] {
      StepHolds(w, es[0]);
      AllowanceBoundsOwnedAttempts(Step(w, es[0]), es[1..], d);
      AllowanceOfStep(w, es, d);
    }
  }

  // ---------------------------------------------------------------- the schedule

  /** No event of the run claims d. */
  ghost predicate NeverClaimed(w: World, es: seq<Event>, d: DeliveryId)
    decreases |es|
  {
    es == [] || (!Claims(w, es[0], d) && NeverClaimed(Step(w, es[0]), es[1..], d))
  }

  predicate WaitingUntil(w: World, d: DeliveryId, due: Instant) {
    && d in w.tables.deliveries
    && w.tables.deliveries[d].state.Pending?
    && w.tables.deliveries[d].nextAttemptAt == due
  }

  lemma {:induction false} WaitIsKept(w: World, es: seq<Event>, d: DeliveryId, due: Instant)
    requires Inv(w) && LegalRun(w, es) && WaitingUntil(w, d, due) && NeverClaimed(w, es, d)
    ensures WaitingUntil(Exec(w, es), d, due)
    decreases |es|
  {
    if es != [] {
      assert RowOk(w.tables.deliveries[d], w.policy);
      StepMovesRow(w, es[0], d);
      StepHolds(w, es[0]);
      WaitIsKept(Step(w, es[0]), es[1..], d, due);
    }
  }

  lemma ClaimAfterWaiting(w: World, es: seq<Event>, claim: Event, d: DeliveryId, due: Instant)
    requires Inv(w) && LegalRun(w, es) && WaitingUntil(w, d, due) && NeverClaimed(w, es, d)
    requires Claims(Exec(w, es), claim, d)
    ensures claim.now >= due
  {
    WaitIsKept(w, es, d, due);
  }

  lemma RetryableCompletionWaits(w: World, e: Event, d: DeliveryId)
    requires RowsHold(w.tables.deliveries, w.policy) && Legal(w, e)
    requires Owned(w, e, d) && IsRetryable(e.result) && CycleOf(w, d) + 1 < w.policy.maxAttempts
    ensures WaitingUntil(Step(w, e), d, e.now + w.policy.DelayAfter(CycleOf(w, d) + 1))
  {
    OwnedSettles(w, e, d);
  }

  /**
   * After the k-th owned, retryable and not last completion of a cycle, at n, the next claim is no earlier than n plus
   * the k-th delay.
   */
  lemma NextClaimWaitsOutTheDelay(w: World, finish: Event, between: seq<Event>, claim: Event, d: DeliveryId)
    requires Inv(w) && LegalRun(w, [finish] + between)
    requires Owned(w, finish, d) && IsRetryable(finish.result) && CycleOf(w, d) + 1 < w.policy.maxAttempts
    requires NeverClaimed(Step(w, finish), between, d)
    requires Claims(Exec(Step(w, finish), between), claim, d)
    ensures claim.now >= finish.now + w.policy.DelayAfter(CycleOf(w, d) + 1)
  {
    var due := finish.now + w.policy.DelayAfter(CycleOf(w, d) + 1);
    assert ([finish] + between)[1..] == between;
    StepHolds(w, finish);
    RetryableCompletionWaits(w, finish, d);
    ClaimAfterWaiting(Step(w, finish), between, claim, d, due);
  }

  lemma WaitingIsClaimable(w: World, d: DeliveryId, due: Instant)
    requires PayloadsHold(w.tables.deliveries) && WaitingUntil(w, d, due)
    ensures forall now :: Claimable(w.tables, d, now) <==> now >= due
  {
  }

  lemma CompletionLeavesWaiting(w: World, e: Event, d: DeliveryId)
    requires Inv(w) && PayloadsHold(w.tables.deliveries) && Legal(w, e)
    requires Owned(w, e, d) && IsRetryable(e.result) && CycleOf(w, d) + 1 < w.policy.maxAttempts
    ensures Inv(Step(w, e)) && PayloadsHold(Step(w, e).tables.deliveries)
    ensures WaitingUntil(Step(w, e), d, e.now + w.policy.DelayAfter(CycleOf(w, d) + 1))
  {
    StepHolds(w, e);
    StepKeepsPayloads(w, e);
    RetryableCompletionWaits(w, e, d);
  }

  lemma WaitingComesDue(w: World, es: seq<Event>, d: DeliveryId, due: Instant)
    requires Inv(w) && PayloadsHold(w.tables.deliveries) && LegalRun(w, es) && NoOperator(es)
    requires WaitingUntil(w, d, due) && NeverClaimed(w, es, d)
    ensures forall now :: Claimable(Exec(w, es).tables, d, now) <==> now >= due
  {
    WaitIsKept(w, es, d, due);
    RunKeepsPayloads(w, es);
    WaitingIsClaimable(Exec(w, es), d, due);
  }

  /**
   * The retry schedule is exact. After the k-th owned, retryable and not last completion of a cycle, at n, the
   * delivery is claimable exactly from n plus the k-th delay, until somebody claims it.
   */
  lemma RetryComesDueExactly(w: World, finish: Event, between: seq<Event>, d: DeliveryId)
    requires Inv(w) && PayloadsHold(w.tables.deliveries) && LegalRun(w, [finish] + between) && NoOperator(between)
    requires Owned(w, finish, d) && IsRetryable(finish.result) && CycleOf(w, d) + 1 < w.policy.maxAttempts
    requires NeverClaimed(Step(w, finish), between, d)
    ensures var end := Exec(Step(w, finish), between);
            forall now :: Claimable(end.tables, d, now) <==>
              now >= finish.now + w.policy.DelayAfter(CycleOf(w, d) + 1)
  {
    assert ([finish] + between)[1..] == between;
    CompletionLeavesWaiting(w, finish, d);
    WaitingComesDue(Step(w, finish), between, d, finish.now + w.policy.DelayAfter(CycleOf(w, d) + 1));
  }

  /**
   * A replay makes the delivery due at once with its whole allowance back, keeps every recorded attempt, and wins only
   * once.
   */
  lemma ReplayStartsAFreshCycle(w: World, e: Event, d: DeliveryId)
    requires RowsHold(w.tables.deliveries, w.policy) && Replays(w, e, d)
    ensures var v := Step(w, e);
            && v.tables.attempts == w.tables.attempts && AttemptsOf(v, d) == AttemptsOf(w, d) && CycleOf(v, d) == 0
            && (forall now :: Claimable(v.tables, d, now) <==> now >= e.now)
            && !Requeueable(v.tables, d)
  {
  }

  // ---------------------------------------------------------------- the history

  predicate SameRequest(a: Attempt, b: Attempt) {
    && a == b.(submission := a.submission)
    && (a.submission == b.submission || a.submission.None?)
  }

  lemma StepKeepsAttempt(w: World, e: Event, a: AttemptId)
    requires Legal(w, e) && a in w.tables.attempts
    ensures a in Step(w, e).tables.attempts && SameRequest(Step(w, e).tables.attempts[a], w.tables.attempts[a])
  {
    if e.Advance? && e.id in w.requests {
      AdvanceInserts(w, e.id);
    }
  }

  /** Nothing recorded is ever removed, renumbered or rewritten; it can only lose its deleted submission. */
  lemma {:induction false} AttemptsAreForEver(w: World, es: seq<Event>, a: AttemptId)
    requires LegalRun(w, es) && a in w.tables.attempts
    ensures a in Exec(w, es).tables.attempts && SameRequest(Exec(w, es).tables.attempts[a], w.tables.attempts[a])
    decreases |es|
  {
    if es != [] {
      StepKeepsAttempt(w, es[0], a);
      AttemptsAreForEver(Step(w, es[0]), es[1..], a);
    }
  }

  /** A delivery's attempt numbers are exactly 1 to its total, each used once. */
  lemma NumbersAreOneToTotal(t: Tables, d: DeliveryId)
    requires HistoryInv(t) && d in t.deliveries
    ensures forall n: nat :: HasAttempt(t.attempts, d, n) <==> 1 <= n <= t.deliveries[d].attempts
    ensures forall a, b, n: nat :: Numbered(t.attempts, a, d, n) && Numbered(t.attempts, b, d, n) ==> a == b
  {
    forall n: nat | HasAttempt(t.attempts, d, n) ensures 1 <= n <= t.deliveries[d].attempts {
      var a :| Numbered(t.attempts, a, d, n);
      assert AttemptOk(t.attempts[a], t.deliveries);
    }
  }

  lemma AttemptNumbersOfEveryRun(policy: RetryPolicy, es: seq<Event>, d: DeliveryId)
    requires policy.Valid() && LegalRun(Init(policy), es) && d in Exec(Init(policy), es).tables.deliveries
    ensures var t := Exec(Init(policy), es).tables;
            && (forall n: nat :: HasAttempt(t.attempts, d, n) <==> 1 <= n <= t.deliveries[d].attempts)
            && (forall a, b, n: nat :: Numbered(t.attempts, a, d, n) && Numbered(t.attempts, b, d, n) ==> a == b)
            && t.deliveries[d].attempts == CountOwned(Init(policy), es, d) + CountSuperseded(Init(policy), es, d)
  {
    InitHolds(policy);
    RunHolds(Init(policy), es);
    NumbersAreOneToTotal(Exec(Init(policy), es).tables, d);
    AttemptsAreConserved(Init(policy), es, d);
  }

  /** Destination, secret and endpoint are what was owed when the submission was accepted; a link is only ever lost. */
  lemma {:induction false} DeliveryIdentityIsFixed(w: World, es: seq<Event>, d: DeliveryId)
    requires LegalRun(w, es) && d in w.tables.deliveries
    ensures d in Exec(w, es).tables.deliveries
    ensures var a := w.tables.deliveries[d];
            var b := Exec(w, es).tables.deliveries[d];
            a.webhook == b.webhook && a.endpoint == b.endpoint && (b.submission == a.submission || b.submission.None?)
    decreases |es|
  {
    if es != [] {
      StepMovesRow(w, es[0], d);
      DeliveryIdentityIsFixed(Step(w, es[0]), es[1..], d);
    }
  }

  lemma DeliveredStaysPut(w: World, e: Event, d: DeliveryId)
    requires RowsHold(w.tables.deliveries, w.policy) && Legal(w, e)
    requires d in w.tables.deliveries && w.tables.deliveries[d].state.Delivered?
    ensures d in Step(w, e).tables.deliveries
    ensures ControlOf(Step(w, e).tables.deliveries[d]) == ControlOf(w.tables.deliveries[d])
  {
    assert RowOk(w.tables.deliveries[d], w.policy);
    StepMovesRow(w, e, d);
  }

  /** Delivered is the end: no run moves such a delivery again, whatever completions still arrive. */
  lemma {:induction false} DeliveredIsFinal(w: World, es: seq<Event>, d: DeliveryId)
    requires Inv(w) && LegalRun(w, es) && d in w.tables.deliveries && w.tables.deliveries[d].state.Delivered?
    ensures d in Exec(w, es).tables.deliveries
    ensures ControlOf(Exec(w, es).tables.deliveries[d]) == ControlOf(w.tables.deliveries[d])
    decreases |es|
  {
    if es != [] {
      DeliveredStaysPut(w, es[0], d);
      StepHolds(w, es[0]);
      DeliveredIsFinal(Step(w, es[0]), es[1..], d);
    }
  }
}
