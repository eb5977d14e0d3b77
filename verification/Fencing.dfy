/** Who may move a delivery: claims, ownership and leases over whole runs. */
module Fencing {
  import opened Prelude
  import opened Webhooks
  import opened Models
  import opened Operations
  import opened Protocol
  import opened Invariants
  import opened Preservation

  /** The event claims delivery d. */
  predicate Claims(w: World, e: Event, d: DeliveryId) {
    e.TryClaim? && e.delivery == d && Claimable(w.tables, d, e.now)
  }

  /** The event records an attempt at delivery d, with or without ownership. */
  predicate Records(w: World, e: Event, d: DeliveryId) {
    && e.Finish? && e.token in w.jobs && w.jobs[e.token].delivery == d
    && Recordable(w.tables, Presented(w.tables, w.jobs[e.token], e.reread), e.attempt)
  }

  predicate Owned(w: World, e: Event, d: DeliveryId) {
    Records(w, e, d) && w.tables.deliveries[d].token == Some(e.token)
  }

  predicate Superseded(w: World, e: Event, d: DeliveryId) {
    Records(w, e, d) && w.tables.deliveries[d].token != Some(e.token)
  }

  /** The event puts the failed delivery d back in the queue. */
  predicate Replays(w: World, e: Event, d: DeliveryId) {
    e.Replay? && e.delivery == d && Requeueable(w.tables, d)
  }

  // ---------------------------------------------------------------- one step

  lemma LookUpOnlyReads(w: World, id: SubmissionId, unused: Stage)
    requires id in w.requests && w.requests[id].row.key.Some?
    ensures var v := LookUp(w, id, unused); v == w.(requests := v.requests)
  {
  }

  /** A request changes the tables in one way only: by committing its submission and delivery. */
  lemma AdvanceInserts(w: World, id: SubmissionId)
    requires id in w.requests
    ensures var v := AdvanceRequest(w, id);
            var r := w.requests[id];
            v.policy == w.policy && v.grants == w.grants &&
            (|| (v.tables == w.tables && v.archive == w.archive)
             || (!r.stage.Done?
                && Insertable(w.tables, id, r.row, r.delivery, r.webhook)
                && v.tables == Insert(w.tables, id, r.row, r.delivery, r.webhook, r.row.receivedAt)
                && v.archive == w.archive[id := r.row]))
  {
    var r := w.requests[id];
    match r.stage
    case Arrived => if r.row.key.Some? { LookUpOnlyReads(w, id, Missed); }
    case Collided => if r.row.key.Some? { LookUpOnlyReads(w, id, Done(StorageError)); }
    case _ =>
  }

  lemma QuietStepKeepsRow(w: World, e: Event, d: DeliveryId)
    requires Legal(w, e) && d in w.tables.deliveries && !e.TryClaim? && !e.Finish? && !e.Replay?
    ensures d in Step(w, e).tables.deliveries
    ensures var row := w.tables.deliveries[d];
            var row' := Step(w, e).tables.deliveries[d];
            row' == row || ((e.SweepDelete? || e.OperatorDelete?) && row' == row.(submission := None))
  {
    if e.Advance? && e.id in w.requests {
      AdvanceInserts(w, e.id);
    }
  }

  /** Apart from losing a deleted submission, a delivery changes only by these three kinds of event. */
  lemma StepMovesRow(w: World, e: Event, d: DeliveryId)
    requires Legal(w, e) && d in w.tables.deliveries
    ensures d in Step(w, e).tables.deliveries
    ensures var row := w.tables.deliveries[d];
            var row' := Step(w, e).tables.deliveries[d];
            if Claims(w, e, d) then row' == ClaimedRow(row, e.now + e.lease, e.token)
            else if Records(w, e, d) then row' == SettledRow(row, Some(e.token), e.result, e.now, w.policy)
            else if Replays(w, e, d) then row' == RequeuedRow(row, e.now)
            else row' == row || ((e.SweepDelete? || e.OperatorDelete?) && row' == row.(submission := None))
  {
    if !e.TryClaim? && !e.Finish? && !e.Replay? {
      QuietStepKeepsRow(w, e, d);
    }
  }

  lemma StepAddsOnlyNewRows(w: World, e: Event, d: DeliveryId)
    requires Legal(w, e) && d !in w.tables.deliveries && d in Step(w, e).tables.deliveries
    ensures e.Advance? && e.id in w.requests && w.requests[e.id].delivery == d && w.requests[e.id].webhook.Some?
    ensures var row := w.requests[e.id].row;
            Step(w, e).tables.deliveries[d] == NewDelivery(e.id, row, w.requests[e.id].webhook.value, row.receivedAt)
  {
    if e.Advance? && e.id in w.requests {
      AdvanceInserts(w, e.id);
    }
  }

  /**
   * The fence. A completion whose token is not the row's current one appends one attempt, numbered
   * one past the stored total, and raises that total; nothing that decides the delivery's fate moves.
   */
  lemma SupersededOnlyCounts(w: World, e: Event, d: DeliveryId)
    requires Legal(w, e) && Superseded(w, e, d)
    ensures var v := Step(w, e);
            && v == w.(tables := v.tables) && v.tables.submissions == w.tables.submissions
            && v.tables.deliveries == w.tables.deliveries[d := v.tables.deliveries[d]]
            && v.tables.deliveries[d] == w.tables.deliveries[d].(attempts := w.tables.deliveries[d].attempts + 1)
            && e.attempt !in w.tables.attempts
            && v.tables.attempts == w.tables.attempts[e.attempt := v.tables.attempts[e.attempt]]
            && v.tables.attempts[e.attempt].delivery == d
            && v.tables.attempts[e.attempt].number == v.tables.deliveries[d].attempts
  {
  }

  /** What decides a delivery's fate is six columns, all of them. */
  lemma ControlIsSixColumns(a: Delivery, b: Delivery)
    ensures ControlOf(a) == ControlOf(b) <==>
              && a.state == b.state && a.leaseEndsAt == b.leaseEndsAt && a.token == b.token
              && a.cycleAttempts == b.cycleAttempts && a.nextAttemptAt == b.nextAttemptAt
              && a.completedAt == b.completedAt
  {
  }

  /** What decides a delivery's fate moves only under a due claim, its owner's completion or a replay of a failure. */
  lemma ControlMovesOnlyByRight(w: World, e: Event, d: DeliveryId)
    requires Legal(w, e) && d in w.tables.deliveries
    requires d in Step(w, e).tables.deliveries
             && ControlOf(Step(w, e).tables.deliveries[d]) != ControlOf(w.tables.deliveries[d])
    ensures Claims(w, e, d) || Owned(w, e, d) || Replays(w, e, d)
  {
    StepMovesRow(w, e, d);
  }

  /** The owner's completion releases the claim, spends one of the cycle's attempts and lands where the outcome says. */
  lemma OwnedSettles(w: World, e: Event, d: DeliveryId)
    requires RowsHold(w.tables.deliveries, w.policy) && Legal(w, e) && Owned(w, e, d)
    ensures var row := w.tables.deliveries[d];
            var row' := Step(w, e).tables.deliveries[d];
            && row.state.Processing? && row'.token.None? && row'.leaseEndsAt.None?
            && row'.cycleAttempts == row.cycleAttempts + 1 <= w.policy.maxAttempts
            && row'.attempts == row.attempts + 1
            && (row'.state.Delivered? <==> e.result.outcome.Succeeded?)
            && (row'.state.Pending? <==> IsRetryable(e.result) && row'.cycleAttempts < w.policy.maxAttempts)
            && (row'.state.Pending? ==> row'.nextAttemptAt == e.now + w.policy.DelayAfter(row'.cycleAttempts))
            && (Terminal(row'.state) ==> row'.completedAt == Some(e.now))
  {
    assert RowOk(w.tables.deliveries[d], w.policy);
  }

  /**
   * The same outcome by outcome. A timeout or a network error is tried again while the allowance lasts; an
   * HTTP error is only for a status of 500 and up, 408, 425 or 429; everything else that did not succeed is final.
   */
  lemma OutcomeDecides(w: World, e: Event, d: DeliveryId)
    requires RowsHold(w.tables.deliveries, w.policy) && Legal(w, e) && Owned(w, e, d)
    ensures var row' := Step(w, e).tables.deliveries[d];
            var left := w.tables.deliveries[d].cycleAttempts + 1 < w.policy.maxAttempts;
            match e.result.outcome
            case Succeeded => row'.state.Delivered?
            case TimedOut => row'.state == if left then Pending else Failed
            case NetworkError => row'.state == if left then Pending else Failed
            case HttpError =>
              match e.result.responseStatus
              case None => row'.state.Failed?
              case Some(status) =>
                row'.state == if left && (status >= 500 || status == 408 || status == 425 || status == 429)
                              then Pending else Failed
  {
  }

  /** A claim writes the state, the lease and the token, and no other column. */
  lemma ClaimWritesOnlyTheClaim(w: World, e: Event, d: DeliveryId)
    requires Legal(w, e) && Claims(w, e, d)
    ensures var row := w.tables.deliveries[d];
            var row' := Step(w, e).tables.deliveries[d];
            && row'.state.Processing? && row'.leaseEndsAt == Some(e.now + e.lease) && row'.token == Some(e.token)
            && row' == row.(state := row'.state, leaseEndsAt := row'.leaseEndsAt, token := row'.token)
  {
  }

  // ---------------------------------------------------------------- tokens over a run

  /** The claim was granted once and no row carries it now. */
  ghost predicate Dead(w: World, token: ClaimToken) {
    token in w.grants && forall d | d in w.tables.deliveries :: w.tables.deliveries[d].token != Some(token)
  }

  lemma DeadStaysDeadOneStep(w: World, e: Event, token: ClaimToken)
    requires Legal(w, e) && Dead(w, token)
    ensures Dead(Step(w, e), token)
  {
    var v := Step(w, e);
    forall d | d in v.tables.deliveries ensures v.tables.deliveries[d].token != Some(token) {
      if d in w.tables.deliveries {
        StepMovesRow(w, e, d);
      } else {
        StepAddsOnlyNewRows(w, e, d);
      }
    }
  }

  /** Once superseded or cleared, a claim is never current again. */
  lemma {:induction false} DeadStaysDead(w: World, es: seq<Event>, token: ClaimToken)
    requires Inv(w) && LegalRun(w, es) && Dead(w, token)
    ensures Dead(Exec(w, es), token)
    decreases |es|
  {
    if es != [] {
      DeadStaysDeadOneStep(w, es[0], token);
      StepHolds(w, es[0]);
      DeadStaysDead(Step(w, es[0]), es[1..], token);
    }
  }

  /** The event is an owned completion under this token. */
  ghost predicate Wins(w: World, e: Event, token: ClaimToken) {
    e.Finish? && e.token == token && token in w.jobs && Owned(w, e, w.jobs[token].delivery)
  }

  ghost function CountWins(w: World, es: seq<Event>, token: ClaimToken): nat
    decreases |es|
  {
    if es == [] then 0
    else (if Wins(w, es[0], token) then 1 else 0) + CountWins(Step(w, es[0]), es[1..], token)
  }

  lemma WinKills(w: World, e: Event, token: ClaimToken)
    requires GrantsHold(w.tables.deliveries, w.grants) && Legal(w, e) && Wins(w, e, token)
    ensures Dead(Step(w, e), token)
  {
    var v := Step(w, e);
    var id := w.jobs[token].delivery;
    forall d | d in v.tables.deliveries ensures v.tables.deliveries[d].token != Some(token) {
      assert HoldsGrant(w.tables.deliveries[d], d, w.grants);
      assert HoldsGrant(w.tables.deliveries[id], id, w.grants);
    }
  }

  lemma {:induction false} DeadNeverWins(w: World, es: seq<Event>, token: ClaimToken)
    requires Inv(w) && LegalRun(w, es) && Dead(w, token)
    ensures CountWins(w, es, token) == 0
    decreases |es|
  {
    if es != [] {
      DeadStaysDeadOneStep(w, es[0], token);
      StepHolds(w, es[0]);
      DeadNeverWins(Step(w, es[0]), es[1..], token);
    }
  }

  /** However often it is presented, one claim settles its delivery at most once. */
  lemma {:induction false} EachClaimWinsAtMostOnce(w: World, es: seq<Event>, token: ClaimToken)
    requires Inv(w) && LegalRun(w, es)
    ensures CountWins(w, es, token) <= 1
    decreases |es|
  {
    if es != [] {
      StepHolds(w, es[0]);
      if Wins(w, es[0], token) {
        WinKills(w, es[0], token);
        DeadNeverWins(Step(w, es[0]), es[1..], token);
      } else {
        EachClaimWinsAtMostOnce(Step(w, es[0]), es[1..], token);
      }
    }
  }

  /** Two jobs in the memory of any workers never own the same delivery. */
  lemma LiveClaimsAreDisjoint(w: World, a: ClaimToken, b: ClaimToken)
    requires Inv(w) && a in w.jobs && b in w.jobs && a != b && !Dead(w, a) && !Dead(w, b)
    ensures w.jobs[a].delivery != w.jobs[b].delivery
  {
    var d :| d in w.tables.deliveries && w.tables.deliveries[d].token == Some(a);
    var f :| f in w.tables.deliveries && w.tables.deliveries[f].token == Some(b);
    assert HoldsGrant(w.tables.deliveries[d], d, w.grants) && HoldsGrant(w.tables.deliveries[f], f, w.grants);
    assert JobOk(w.jobs[a], a, w.grants, w.tables.deliveries, w.tables.submissions, w.archive);
    assert JobOk(w.jobs[b], b, w.grants, w.tables.deliveries, w.tables.submissions, w.archive);
  }

  // ---------------------------------------------------------------- leases over a run

  /** No event of the run is an owned completion of d. */
  ghost predicate NeverSettled(w: World, es: seq<Event>, d: DeliveryId)
    decreases |es|
  {
    es == [] || (!Owned(w, es[0], d) && NeverSettled(Step(w, es[0]), es[1..], d))
  }

  predicate LeasedUntil(w: World, d: DeliveryId, bound: Instant) {
    && d in w.tables.deliveries
    && w.tables.deliveries[d].state.Processing?
    && w.tables.deliveries[d].leaseEndsAt.Some?
    && bound <= w.tables.deliveries[d].leaseEndsAt.value
  }

  lemma {:induction false} LeaseNeverRetreats(w: World, es: seq<Event>, d: DeliveryId, bound: Instant)
    requires Inv(w) && LegalRun(w, es) && LeasedUntil(w, d, bound) && NeverSettled(w, es, d)
    ensures LeasedUntil(Exec(w, es), d, bound)
    decreases |es|
  {
    if es != [] {
      StepMovesRow(w, es[0], d);
      assert RowOk(w.tables.deliveries[d], w.policy);
      StepHolds(w, es[0]);
      LeaseNeverRetreats(Step(w, es[0]), es[1..], d, bound);
    }
  }

  /**
   * Claim exclusion, from the conditional update alone: whatever candidates any worker selected, a
   * second claim of a delivery whose first claim was not completed waits out the first one's lease.
   */
  lemma SecondClaimWaitsOutTheLease(w: World, first: Event, between: seq<Event>, second: Event, d: DeliveryId)
    requires Inv(w) && LegalRun(w, [first] + between)
    requires Claims(w, first, d)
    requires NeverSettled(Step(w, first), between, d)
    requires Claims(Exec(Step(w, first), between), second, d)
    ensures second.now >= first.now + first.lease
  {
    assert ([first] + between)[1..] == between;
    StepMovesRow(w, first, d);
    StepHolds(w, first);
    LeaseNeverRetreats(Step(w, first), between, d, first.now + first.lease);
  }

  /** A claim nobody finished is not lost: the row under it is due again the moment its lease ends. */
  lemma AbandonedClaimComesDue(w: World, d: DeliveryId)
    requires Inv(w) && PayloadsHold(w.tables.deliveries)
    requires d in w.tables.deliveries && w.tables.deliveries[d].token.Some?
    ensures var token := w.tables.deliveries[d].token.value;
            && token in w.grants && w.grants[token].delivery == d
            && forall now :: Claimable(w.tables, d, now) <==> now >= w.grants[token].endsAt
  {
    assert HoldsGrant(w.tables.deliveries[d], d, w.grants);
    assert RowOk(w.tables.deliveries[d], w.policy);
  }
}
