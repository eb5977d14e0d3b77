/** The in-place operations are runs of the protocol, and no reachable state violates the schema. */
module Refinement {
  import opened Prelude
  import opened Webhooks
  import opened Models
  import opened Operations
  import opened Protocol
  import opened Invariants
  import opened Preservation
  import opened Idempotency
  import opened Retries
  import Database
  import Worker

  /** No step ever commits a row that a declared constraint forbids. */
  lemma ReachableStatesMeetTheSchema(w: World)
    requires Inv(w)
    ensures ConstraintsHold(w.tables)
  {
    var t := w.tables;
    forall s | s in t.submissions ensures t.submissions[s].key.Some? <==> t.submissions[s].fingerprint.Some? {
      assert s in w.archive && s in w.requests && w.requests[s].row == t.submissions[s];
    }
    forall d, e | d in t.deliveries && e in t.deliveries && d != e && t.deliveries[d].submission.Some?
      ensures t.deliveries[d].submission != t.deliveries[e].submission
    {
      assert LinkOk(t.deliveries[d], d, t.submissions, w.requests);
      assert LinkOk(t.deliveries[e], e, t.submissions, w.requests);
    }
    forall d | d in t.deliveries
      ensures CompletionHolds(t.deliveries[d]) && Resolves(t.deliveries[d].submission, t.submissions)
    {
      assert RowOk(t.deliveries[d], w.policy);
      assert LinkOk(t.deliveries[d], d, t.submissions, w.requests);
    }
    forall a | a in t.attempts
      ensures t.attempts[a].delivery in t.deliveries && Resolves(t.attempts[a].submission, t.submissions)
    {
      assert AttemptOk(t.attempts[a], t.deliveries);
      assert LinkOk(t.deliveries[t.attempts[a].delivery], t.attempts[a].delivery, t.submissions, w.requests);
    }
  }

  /** What the invariant says of one delivery, in every reachable state. */
  lemma ReachableRowsAreConsistent(policy: RetryPolicy, es: seq<Event>, d: DeliveryId)
    requires policy.Valid() && LegalRun(Init(policy), es) && d in Exec(Init(policy), es).tables.deliveries
    ensures var row := Exec(Init(policy), es).tables.deliveries[d];
            && (row.state.Processing? <==> row.token.Some?) && (row.token.Some? <==> row.leaseEndsAt.Some?)
            && (row.completedAt.Some? <==> row.state.Delivered? || row.state.Failed?)
            && (row.state.Pending? || row.state.Processing? ==> row.cycleAttempts < policy.maxAttempts)
            && row.cycleAttempts <= row.attempts
  {
    InitHolds(policy);
    RunHolds(Init(policy), es);
    RunKeepsPolicy(Init(policy), es);
    var w := Exec(Init(policy), es);
    assert RowOk(w.tables.deliveries[d], w.policy);
  }

  /**
   * Every attempt names its delivery, its delivery's submission and destination; a linked delivery has its submission's
   * endpoint.
   */
  lemma ReachableLinksAgree(policy: RetryPolicy, es: seq<Event>, a: AttemptId)
    requires policy.Valid() && LegalRun(Init(policy), es) && a in Exec(Init(policy), es).tables.attempts
    ensures var t := Exec(Init(policy), es).tables;
            var d := t.attempts[a].delivery;
            && d in t.deliveries
            && t.attempts[a].submission == t.deliveries[d].submission
            && t.attempts[a].url == t.deliveries[d].webhook.url
            && (t.deliveries[d].submission.Some? ==>
                  && t.deliveries[d].submission.value in t.submissions
                  && t.deliveries[d].endpoint == t.submissions[t.deliveries[d].submission.value].endpoint)
  {
    InitHolds(policy);
    RunHolds(Init(policy), es);
    var w := Exec(Init(policy), es);
    assert AttemptOk(w.tables.attempts[a], w.tables.deliveries);
    var d := w.tables.attempts[a].delivery;
    assert LinkOk(w.tables.deliveries[d], d, w.tables.submissions, w.requests);
  }

  lemma {:induction false} RunKeepsPolicy(w: World, es: seq<Event>)
    ensures Exec(w, es).policy == w.policy
    decreases |es|
  {
    if es != [] {
      StepKeepsPolicy(w, es[0]);
      RunKeepsPolicy(Step(w, es[0]), es[1..]);
    }
  }

  // ---------------------------------------------------------------- a claimed batch

  function ClaimEvents(ids: seq<DeliveryId>, now: Instant, lease: Seconds, tokens: seq<ClaimToken>): seq<Event>
    requires |ids| <= |tokens|
    decreases |ids|
  {
    if ids == [] then []
    else
      var last := |ids| - 1;
      ClaimEvents(ids[..last], now, lease, tokens) + [TryClaim(ids[last], now, lease, tokens[last])]
  }

  /** A claimed batch is one protocol step per candidate, so other processes' steps may fall between them. */
  lemma {:induction false} ClaimedBatchIsARun(w: World, ids: seq<DeliveryId>, now: Instant, lease: Seconds,
                                              tokens: seq<ClaimToken>)
    requires |ids| <= |tokens|
    ensures Exec(w, ClaimEvents(ids, now, lease, tokens)).tables == Database.ClaimAll(w.tables, ids, now, lease, tokens)
    decreases |ids|
  {
    if ids != [] {
      var last := |ids| - 1;
      ClaimedBatchIsARun(w, ids[..last], now, lease, tokens);
      var before := ClaimEvents(ids[..last], now, lease, tokens);
      var e := TryClaim(ids[last], now, lease, tokens[last]);
      ExecSplits(w, before, [e]);
      OneEvent(Exec(w, before), e);
    }
  }

  lemma OneEvent(w: World, e: Event)
    ensures Exec(w, [e]) == Step(w, e)
  {
    assert [e][1..] == [];
  }

  // ---------------------------------------------------------------- a recorded batch

  /** The completions of a batch's first n results, each presenting its own token and what its worker holds by then. */
  function FinishEvents(t: Tables, jobs: seq<Job>, outcomes: seq<Worker.Outcome>, n: nat, now: Instant,
                        policy: RetryPolicy): seq<Event>
    requires n <= |jobs| <= |outcomes| && forall i | 0 <= i < |jobs| :: jobs[i].token.Some?
  {
    if n == 0 then []
    else
      var before := FinishEvents(t, jobs, outcomes, n - 1, now, policy);
      var (job, o) := (jobs[n - 1], outcomes[n - 1]);
      var r := Worker.RecordAll(t, jobs, outcomes, n - 1, now, policy);
      if r.aborted || !o.reachable then before
      else before + [Finish(job.token.value, o.attempt, o.result, now, r.expired)]
  }

  lemma TurnIsAFinish(w: World, r: Worker.Recording, job: Job, o: Worker.Outcome, now: Instant)
    requires w.tables == r.tables && !r.aborted && o.reachable
    requires job.token.Some? && job.token.value in w.jobs && w.jobs[job.token.value] == job
    ensures Step(w, Finish(job.token.value, o.attempt, o.result, now, r.expired))
            == w.(tables := Worker.Turn(r, job, o, now, w.policy).tables)
  {
  }

  /** Recording a batch is one protocol step per result that reaches the database. */
  lemma {:induction false} RecordedBatchIsARun(w: World, jobs: seq<Job>, outcomes: seq<Worker.Outcome>, n: nat,
                                               now: Instant)
    requires n <= |jobs| <= |outcomes|
    requires forall i | 0 <= i < |jobs| ::
               jobs[i].token.Some? && jobs[i].token.value in w.jobs && w.jobs[jobs[i].token.value] == jobs[i]
    ensures var v := Exec(w, FinishEvents(w.tables, jobs, outcomes, n, now, w.policy));
            v == w.(tables := Worker.RecordAll(w.tables, jobs, outcomes, n, now, w.policy).tables)
  {
    if n > 0 {
      RecordedBatchIsARun(w, jobs, outcomes, n - 1, now);
      var before := FinishEvents(w.tables, jobs, outcomes, n - 1, now, w.policy);
      var r := Worker.RecordAll(w.tables, jobs, outcomes, n - 1, now, w.policy);
      var o := outcomes[n - 1];
      if !r.aborted && o.reachable {
        var e := Finish(jobs[n - 1].token.value, o.attempt, o.result, now, r.expired);
        ExecSplits(w, before, [e]);
        OneEvent(Exec(w, before), e);
        TurnIsAFinish(Exec(w, before), r, jobs[n - 1], o, now);
      }
    }
  }

  // ---------------------------------------------------------------- a request nobody races

  /** What the protocol's reply to a request is, in the storage operation's terms. */
  predicate IsReply(r: Result<Database.StoredSubmission, Database.StoreError>, reply: Reply) {
    match r
    case Ok(stored) => reply == Stored(stored.id, stored.replayed, stored.deliveryQueued)
    case Err(IdempotencyKeyReused) => reply.KeyReused?
    case Err(IntegrityError) => reply.StorageError?
  }

  lemma KeyedRequestMissesThenStores(w: World, id: SubmissionId)
    requires Inv(w) && id in w.requests && w.requests[id].stage == Arrived && w.requests[id].row.key.Some?
    requires FindByKey(w.tables, w.requests[id].row.endpoint, w.requests[id].row.key.value).None?
    ensures var r := w.requests[id]; Insertable(w.tables, id, r.row, r.delivery, r.webhook)
  {
    var r := w.requests[id];
    LosersLeaveNothing(w, id);
    assert r.row.key.Some? <==> r.row.fingerprint.Some?;
  }

  lemma KeylessRequestStores(w: World, id: SubmissionId)
    requires Inv(w) && id in w.requests && w.requests[id].stage == Arrived && w.requests[id].row.key.None?
    ensures var r := w.requests[id]; Insertable(w.tables, id, r.row, r.delivery, r.webhook)
  {
    LosersLeaveNothing(w, id);
    assert w.requests[id].row.key.Some? <==> w.requests[id].row.fingerprint.Some?;
  }

  ghost predicate AnsweredLike(w: World, v: World, id: SubmissionId)
    requires id in w.requests
  {
    var r := w.requests[id];
    var outcome := Database.StoreOutcome(w.tables, id, r.row, r.delivery, r.webhook);
    && id in v.requests && v.requests[id].stage.Done? && IsReply(outcome, v.requests[id].stage.reply)
    && v.tables == if outcome.Ok? && !outcome.value.replayed
                   then Insert(w.tables, id, r.row, r.delivery, r.webhook, r.row.receivedAt) else w.tables
  }

  lemma AloneKeylessRequest(w: World, id: SubmissionId)
    requires Inv(w) && id in w.requests && w.requests[id].stage == Arrived && w.requests[id].row.key.None?
    ensures id in AdvanceRequest(w, id).requests && AnsweredLike(w, AdvanceRequest(AdvanceRequest(w, id), id), id)
  {
    KeylessRequestStores(w, id);
  }

  lemma AloneFirstRequest(w: World, id: SubmissionId)
    requires Inv(w) && id in w.requests && w.requests[id].stage == Arrived && w.requests[id].row.key.Some?
    requires FindByKey(w.tables, w.requests[id].row.endpoint, w.requests[id].row.key.value).None?
    ensures id in AdvanceRequest(w, id).requests && AnsweredLike(w, AdvanceRequest(AdvanceRequest(w, id), id), id)
  {
    KeyedRequestMissesThenStores(w, id);
    assert AdvanceRequest(w, id) == SetStage(w, id, Missed);
  }

  lemma AloneRetry(w: World, id: SubmissionId)
    requires id in w.requests && w.requests[id].stage == Arrived && w.requests[id].row.key.Some?
    requires FindByKey(w.tables, w.requests[id].row.endpoint, w.requests[id].row.key.value).Some?
    ensures id in AdvanceRequest(w, id).requests && AnsweredLike(w, AdvanceRequest(AdvanceRequest(w, id), id), id)
  {
    var row := w.requests[id].row;
    var s := FindByKey(w.tables, row.endpoint, row.key.value).value;
    assert AdvanceRequest(w, id) == SetStage(w, id, Settle(s, w.tables.submissions[s], row));
  }

  /** Uninterrupted, a request's steps are the storage operation run once. */
  lemma AloneRequestIsStoreSubmission(w: World, id: SubmissionId)
    requires Inv(w) && id in w.requests && w.requests[id].stage == Arrived
    ensures id in AdvanceRequest(w, id).requests && AnsweredLike(w, AdvanceRequest(AdvanceRequest(w, id), id), id)
  {
    var row := w.requests[id].row;
    if row.key.None? {
      AloneKeylessRequest(w, id);
    } else if FindByKey(w.tables, row.endpoint, row.key.value).None? {
      AloneFirstRequest(w, id);
    } else {
      AloneRetry(w, id);
    }
  }

  // ---------------------------------------------------------------- a retention batch

  /** Reading and deleting a batch with nothing in between is the storage operation's batch. */
  lemma RetentionBatchIsARun(w: World, k: nat, before: Instant, ids: set<SubmissionId>)
    requires ids <= Database.ExpiredSet(w.tables, before)
    ensures Legal(w, SweepRead(k, before, ids))
    ensures Step(Step(w, SweepRead(k, before, ids)), SweepDelete(k)).tables == Remove(w.tables, ids)
  {
  }
}
