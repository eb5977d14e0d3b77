/** Retention never takes a payload that could still be sent, and never takes the record of what was. */
module Retention {
  import opened Prelude
  import opened Webhooks
  import opened Models
  import opened Operations
  import opened Protocol
  import opened Invariants
  import opened Preservation
  import opened Fencing

  predicate NoOperator(es: seq<Event>) {
    forall i | 0 <= i < |es| :: !es[i].OperatorDelete?
  }

  // ---------------------------------------------------------------- eligibility does not revert

  lemma RowStaysReleased(w: World, e: Event, d: DeliveryId)
    requires RowsHold(w.tables.deliveries, w.policy) && Legal(w, e) && d in w.tables.deliveries
    requires w.tables.deliveries[d].state.Delivered?
    ensures d in Step(w, e).tables.deliveries && Step(w, e).tables.deliveries[d].state.Delivered?
  {
    assert RowOk(w.tables.deliveries[d], w.policy);
    StepMovesRow(w, e, d);
  }

  /** What was ever committed stays known, and once deleted never comes back. */
  lemma ArchiveOneStep(w: World, e: Event, s: SubmissionId)
    requires ArchiveHolds(w.tables.submissions, w.archive, w.requests) && Legal(w, e) && s in w.archive
    ensures var v := Step(w, e);
            && s in v.archive && v.archive[s] == w.archive[s]
            && (s in v.tables.submissions
              ==> s in w.tables.submissions && v.tables.submissions[s] == w.tables.submissions[s])
  {
    if e.Advance? && e.id in w.requests {
      AdvanceInserts(w, e.id);
    }
  }

  lemma CarrierStaysReleased(w: World, e: Event, s: SubmissionId, d: DeliveryId)
    requires RowsHold(w.tables.deliveries, w.policy) && s in w.requests && Won(w.requests[s], s) && Legal(w, e)
    requires d in w.tables.deliveries && w.tables.deliveries[d].submission == Some(s)
             ==> w.tables.deliveries[d].state.Delivered?
    requires d in Step(w, e).tables.deliveries && Step(w, e).tables.deliveries[d].submission == Some(s)
    ensures Step(w, e).tables.deliveries[d].state.Delivered?
  {
    if d in w.tables.deliveries {
      StepMovesRow(w, e, d);
      RowStaysReleased(w, e, d);
    } else {
      NewRowsAreNotOf(w, e, s, d);
    }
  }

  lemma NewRowsAreNotOf(w: World, e: Event, s: SubmissionId, d: DeliveryId)
    requires Legal(w, e) && s in w.requests && w.requests[s].stage.Done?
    requires d !in w.tables.deliveries && d in Step(w, e).tables.deliveries
    ensures Step(w, e).tables.deliveries[d].submission != Some(s)
  {
    StepAddsOnlyNewRows(w, e, d);
  }

  lemma ExpiredStaysOneStep(w: World, e: Event, s: SubmissionId, before: Instant)
    requires ArchiveHolds(w.tables.submissions, w.archive, w.requests) && RowsHold(w.tables.deliveries, w.policy)
    requires Legal(w, e) && Expired(w.tables.submissions, w.tables.deliveries, s, before)
    ensures var t := Step(w, e).tables;
            s in t.submissions ==> Expired(t.submissions, t.deliveries, s, before)
  {
    var v := Step(w, e);
    ArchiveOneStep(w, e, s);
    assert Won(w.requests[s], s);
    forall d | d in v.tables.deliveries && v.tables.deliveries[d].submission == Some(s)
      ensures !Protected(v.tables.deliveries[d].state)
    {
      CarrierStaysReleased(w, e, s, d);
    }
  }

  lemma {:induction false} GoneStaysGone(w: World, es: seq<Event>, s: SubmissionId)
    requires Inv(w) && LegalRun(w, es) && s in w.archive && s !in w.tables.submissions
    ensures s in Exec(w, es).archive && s !in Exec(w, es).tables.submissions
    decreases |es|
  {
    if es != [] {
      ArchiveOneStep(w, es[0], s);
      StepHolds(w, es[0]);
      GoneStaysGone(Step(w, es[0]), es[1..], s);
    }
  }

  /** Expired and eligible now means expired and eligible for as long as the submission exists. */
  lemma {:induction false} ExpiredStays(w: World, es: seq<Event>, s: SubmissionId, before: Instant)
    requires Inv(w) && LegalRun(w, es) && Expired(w.tables.submissions, w.tables.deliveries, s, before)
    ensures var t := Exec(w, es).tables;
            s in t.submissions ==> Expired(t.submissions, t.deliveries, s, before)
    decreases |es|
  {
    if es != [] {
      StepHolds(w, es[0]);
      var v := Step(w, es[0]);
      ExpiredStaysOneStep(w, es[0], s, before);
      if s in v.tables.submissions {
        ExpiredStays(v, es[1..], s, before);
      } else {
        ArchiveOneStep(w, es[0], s);
        GoneStaysGone(v, es[1..], s);
      }
    }
  }

  // ---------------------------------------------------------------- what a sweep removes

  /**
   * The identifiers a sweep read may be stale by the time it deletes, and are not tested again. Even so it deletes
   * nothing but what is eligible at that moment.
   */
  lemma SweepRemovesOnlyExpired(w: World, k: nat)
    requires LinkInv(w) && k in w.sweeps
    ensures var t := Remove(w.tables, w.sweeps[k].ids);
            && Step(w, SweepDelete(k)).tables == t
            && (forall s | s in w.tables.submissions :: s in t.submissions <==> s !in w.sweeps[k].ids)
            && (forall s | s in w.tables.submissions && s !in t.submissions ::
                  Expired(w.tables.submissions, w.tables.deliveries, s, w.sweeps[k].before))
  {
  }

  /** Every delivery and attempt outlives a sweep, and only a delivery already delivered loses its link. */
  lemma SweepKeepsTheRecord(w: World, k: nat)
    requires LinkInv(w) && k in w.sweeps
    ensures var t := Remove(w.tables, w.sweeps[k].ids);
            && t.deliveries.Keys == w.tables.deliveries.Keys
            && t.attempts.Keys == w.tables.attempts.Keys
            && (forall d | d in t.deliveries && t.deliveries[d] != w.tables.deliveries[d] ::
                  w.tables.deliveries[d].state.Delivered?
                    && t.deliveries[d] == w.tables.deliveries[d].(submission := None))
  {
    var t := Remove(w.tables, w.sweeps[k].ids);
    forall d | d in t.deliveries && t.deliveries[d] != w.tables.deliveries[d]
      ensures w.tables.deliveries[d].state.Delivered? && t.deliveries[d] == w.tables.deliveries[d].(submission := None)
    {
      assert LinkOk(w.tables.deliveries[d], d, w.tables.submissions, w.requests);
    }
  }

  lemma SweepKeepsPayloads(w: World, k: nat)
    requires LinkInv(w) && PayloadsHold(w.tables.deliveries) && k in w.sweeps
    ensures PayloadsHold(Step(w, SweepDelete(k)).tables.deliveries)
  {
    var v := Step(w, SweepDelete(k));
    forall d | d in v.tables.deliveries && Protected(v.tables.deliveries[d].state)
      ensures v.tables.deliveries[d].submission.Some?
    {
      assert LinkOk(w.tables.deliveries[d], d, w.tables.submissions, w.requests);
    }
  }

  lemma OtherStepsKeepPayloads(w: World, e: Event, d: DeliveryId)
    requires RowsHold(w.tables.deliveries, w.policy) && PayloadsHold(w.tables.deliveries)
    requires Legal(w, e) && !e.OperatorDelete? && !e.SweepDelete?
    requires d in Step(w, e).tables.deliveries && Protected(Step(w, e).tables.deliveries[d].state)
    ensures Step(w, e).tables.deliveries[d].submission.Some?
  {
    if d in w.tables.deliveries {
      assert RowOk(w.tables.deliveries[d], w.policy);
      StepMovesRow(w, e, d);
    } else {
      StepAddsOnlyNewRows(w, e, d);
    }
  }

  lemma StepKeepsPayloads(w: World, e: Event)
    requires Inv(w) && PayloadsHold(w.tables.deliveries) && Legal(w, e) && !e.OperatorDelete?
    ensures PayloadsHold(Step(w, e).tables.deliveries)
  {
    if e.SweepDelete? {
      if e.sweep in w.sweeps {
        SweepKeepsPayloads(w, e.sweep);
      }
    } else {
      forall d | d in Step(w, e).tables.deliveries && Protected(Step(w, e).tables.deliveries[d].state)
        ensures Step(w, e).tables.deliveries[d].submission.Some?
      {
        OtherStepsKeepPayloads(w, e, d);
      }
    }
  }

  /** Without tampering, every pending, processing or failed delivery keeps the submission it must send. */
  lemma {:induction false} RunKeepsPayloads(w: World, es: seq<Event>)
    requires Inv(w) && PayloadsHold(w.tables.deliveries) && LegalRun(w, es) && NoOperator(es)
    ensures Inv(Exec(w, es)) && PayloadsHold(Exec(w, es).tables.deliveries)
    decreases |es|
  {
    if es != [] {
      StepHolds(w, es[0]);
      StepKeepsPayloads(w, es[0]);
      RunKeepsPayloads(Step(w, es[0]), es[1..]);
    }
  }

  /** A protected delivery of a reachable state has its payload, stored unchanged since it was committed. */
  lemma NeededPayloadIsStored(policy: RetryPolicy, es: seq<Event>, d: DeliveryId)
    requires policy.Valid() && LegalRun(Init(policy), es) && NoOperator(es)
    requires var w := Exec(Init(policy), es);
             d in w.tables.deliveries && Protected(w.tables.deliveries[d].state)
    ensures var w := Exec(Init(policy), es);
            var link := w.tables.deliveries[d].submission;
            && link.Some? && link.value in w.tables.submissions
            && link.value in w.requests && w.requests[link.value].delivery == d
            && w.tables.submissions[link.value] == w.requests[link.value].row
  {
    InitHolds(policy);
    RunKeepsPayloads(Init(policy), es);
    var w := Exec(Init(policy), es);
    assert LinkOk(w.tables.deliveries[d], d, w.tables.submissions, w.requests);
  }

  /** Eligible is exactly: received strictly before the cutoff, and either never owed a delivery or delivered. */
  lemma ExpiredExactly(w: World, s: SubmissionId, before: Instant)
    requires Inv(w) && s in w.tables.submissions
    ensures s in w.requests
    ensures Expired(w.tables.submissions, w.tables.deliveries, s, before) <==>
              && w.tables.submissions[s].receivedAt < before
              && (w.requests[s].webhook.Some? ==>
                    && w.requests[s].delivery in w.tables.deliveries
                    && w.tables.deliveries[w.requests[s].delivery].state.Delivered?)
  {
    assert s in w.archive;
    forall d | d in w.tables.deliveries && w.tables.deliveries[d].submission == Some(s)
      ensures w.requests[s].webhook.Some? && d == w.requests[s].delivery
    {
      assert LinkOk(w.tables.deliveries[d], d, w.tables.submissions, w.requests);
    }
    if w.requests[s].webhook.Some? {
      assert w.tables.deliveries[w.requests[s].delivery].submission == Some(s);
    }
  }

  /**
   * No delivery is stranded: unless it is finished, it is claimable exactly from its due time when it waits,
   * and exactly from the end of its lease when it is held.
   */
  lemma UnfinishedComesDue(policy: RetryPolicy, es: seq<Event>, d: DeliveryId)
    requires policy.Valid() && LegalRun(Init(policy), es) && NoOperator(es)
    requires var w := Exec(Init(policy), es);
             d in w.tables.deliveries && !Terminal(w.tables.deliveries[d].state)
    ensures var t := Exec(Init(policy), es).tables;
            var row := t.deliveries[d];
            && (row.state.Pending? ==> forall now :: Claimable(t, d, now) <==> now >= row.nextAttemptAt)
            && (row.state.Processing? ==>
                  row.leaseEndsAt.Some? && forall now :: Claimable(t, d, now) <==> now >= row.leaseEndsAt.value)
  {
    InitHolds(policy);
    RunKeepsPayloads(Init(policy), es);
    var w := Exec(Init(policy), es);
    assert RowOk(w.tables.deliveries[d], w.policy);
  }

  /**
   * A delivery that failed can always be replayed, however often it was before, and is claimable exactly from then on.
   */
  lemma FailedCanBeReplayed(policy: RetryPolicy, es: seq<Event>, d: DeliveryId, now: Instant)
    requires policy.Valid() && LegalRun(Init(policy), es) && NoOperator(es)
    requires var w := Exec(Init(policy), es); d in w.tables.deliveries && w.tables.deliveries[d].state.Failed?
    ensures var w := Exec(Init(policy), es);
            var t := Step(w, Replay(d, now)).tables;
            && Legal(w, Replay(d, now)) && d in t.deliveries
            && t.deliveries[d].state.Pending? && t.deliveries[d].cycleAttempts == 0
            && forall later :: Claimable(t, d, later) <==> later >= now
  {
    InitHolds(policy);
    RunKeepsPayloads(Init(policy), es);
  }

  // ---------------------------------------------------------------- what a worker finds

  /**
   * While its claim is current, a worker finds the submission it must send; afterwards it finds it iff the delivery is
   * still linked.
   */
  lemma LoadCannotMissWhileCurrent(w: World, k: ClaimToken)
    requires Inv(w) && PayloadsHold(w.tables.deliveries) && k in w.jobs
    ensures var job := w.jobs[k];
            && job.submission.Some? && job.delivery in w.tables.deliveries
            && (job.submission.value in w.tables.submissions <==> w.tables.deliveries[job.delivery].submission.Some?)
            && (w.tables.deliveries[job.delivery].token == Some(k) ==> job.submission.value in w.tables.submissions)
  {
    var job := w.jobs[k];
    assert JobOk(job, k, w.grants, w.tables.deliveries, w.tables.submissions, w.archive);
    assert RowOk(w.tables.deliveries[job.delivery], w.policy);
  }

  /**
   * With a fresh attempt identifier a completion is refused only when a sweep has taken the submission;
   * the refused worker was superseded, and its delivery has already been delivered. A worker presenting
   * the link it loaded is refused in exactly that case, and one that reread its row never is.
   */
  lemma OnlyASupersededCompletionIsRefused(w: World, k: ClaimToken, attempt: AttemptId, reread: bool)
    requires Inv(w) && PayloadsHold(w.tables.deliveries) && k in w.jobs && attempt !in w.tables.attempts
    ensures var job := w.jobs[k];
            var refused := !Recordable(w.tables, Presented(w.tables, job, reread), attempt);
            && job.delivery in w.tables.deliveries
            && (refused <==> !reread && w.tables.deliveries[job.delivery].submission.None?)
            && (refused ==>
                  && w.tables.deliveries[job.delivery].token != Some(k)
                  && w.tables.deliveries[job.delivery].state.Delivered?)
  {
    LoadCannotMissWhileCurrent(w, k);
    var job := w.jobs[k];
    assert LinkOk(w.tables.deliveries[job.delivery], job.delivery, w.tables.submissions, w.requests);
  }

  // ---------------------------------------------------------------- an operator deletes anything

  /** No event of the run claims d or puts it back in the queue. */
  ghost predicate NeverQueued(w: World, es: seq<Event>, d: DeliveryId)
    decreases |es|
  {
    es == [] || (!Claims(w, es[0], d) && !Replays(w, es[0], d) && NeverQueued(Step(w, es[0]), es[1..], d))
  }

  /** Even if submissions are deleted behind the service's back, a delivery without one is never claimed or requeued. */
  lemma {:induction false} UnlinkedIsNeverQueued(w: World, es: seq<Event>, d: DeliveryId)
    requires LegalRun(w, es) && d in w.tables.deliveries && w.tables.deliveries[d].submission.None?
    ensures NeverQueued(w, es, d)
    ensures var t := Exec(w, es).tables; d in t.deliveries && t.deliveries[d].submission.None?
    decreases |es|
  {
    if es != [] {
      StepMovesRow(w, es[0], d);
      UnlinkedIsNeverQueued(Step(w, es[0]), es[1..], d);
    }
  }
}
