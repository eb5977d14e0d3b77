/** Every legal step keeps every invariant. */
module Preservation {
  import opened Prelude
  import opened Webhooks
  import opened Models
  import opened Operations
  import opened Protocol
  import opened Invariants

  lemma InitHolds(policy: RetryPolicy)
    requires policy.Valid()
    ensures Inv(Init(policy)) && PayloadsHold(Init(policy).tables.deliveries)
  {
  }

  // ---------------------------------------------------------------- what a stage learnt stays true

  /** Requests keep what they were sent with, the archive only grows, and nothing deleted comes back. */
  ghost predicate Later(w: World, v: World) {
    && (forall r | r in w.requests :: r in v.requests && v.requests[r].webhook == w.requests[r].webhook)
    && (forall s | s in w.archive :: s in v.archive && v.archive[s] == w.archive[s])
    && (forall s | s in w.archive && s in v.tables.submissions :: s in w.tables.submissions)
  }

  lemma StageStaysOk(r: Request, id: SubmissionId, w: World, v: World)
    requires ArchiveHolds(w.tables.submissions, w.archive, w.requests) && Later(w, v)
    requires StageOk(r, id, w.tables.submissions, w.archive, w.requests)
    ensures StageOk(r, id, v.tables.submissions, v.archive, v.requests)
  {
    if KeySpent(w.archive, r.row) {
      var s :| Matches(w.archive, s, r.row);
      assert Matches(v.archive, s, r.row);
    }
    if r.stage == Done(StorageError) {
      var s :| Matches(w.archive, s, r.row) && s !in w.tables.submissions;
      assert Matches(v.archive, s, r.row);
    }
  }

  /** Only request `id` may have moved. */
  lemma StagesStayOk(w: World, v: World, id: SubmissionId)
    requires ArchiveHolds(w.tables.submissions, w.archive, w.requests) && Later(w, v)
    requires StagesHold(w.tables.submissions, w.archive, w.requests)
    requires forall r | r in v.requests && r != id :: r in w.requests && v.requests[r] == w.requests[r]
    requires id in v.requests ==>
      && (v.requests[id].row.key.Some? <==> v.requests[id].row.fingerprint.Some?)
      && StageOk(v.requests[id], id, v.tables.submissions, v.archive, v.requests)
    ensures StagesHold(v.tables.submissions, v.archive, v.requests)
  {
    forall r | r in v.requests && r != id
      ensures StageOk(v.requests[r], r, v.tables.submissions, v.archive, v.requests)
    {
      StageStaysOk(w.requests[r], r, w, v);
    }
  }

  // ---------------------------------------------------------------- a request arrives

  lemma ArriveKeepsStore(w: World, e: Event)
    requires StoreInv(w) && e.Arrive? && Legal(w, e)
    ensures StoreInv(Step(w, e))
  {
    var v := ArriveStep(w, e.id, e.row, e.webhook, e.newDelivery);
    StagesStayOk(w, v, e.id);
    ArriveKeepsArchive(w, e.id, e.row, e.webhook, e.newDelivery);
  }

  lemma ArriveKeepsArchive(w: World, id: SubmissionId, row: Submission, webhook: Option<Webhook>, delivery: DeliveryId)
    requires StoreInv(w) && id !in w.requests
    requires forall r | r in w.requests :: w.requests[r].delivery != delivery
    ensures var v := ArriveStep(w, id, row, webhook, delivery);
            ArchiveHolds(v.tables.submissions, v.archive, v.requests) && DeliveryIdsDistinct(v.requests)
  {
  }

  lemma ArriveKeepsLinks(w: World, e: Event)
    requires LinkInv(w) && StoreInv(w) && e.Arrive? && Legal(w, e)
    ensures LinkInv(Step(w, e))
  {
  }

  lemma ArriveHolds(w: World, e: Event)
    requires Inv(w) && e.Arrive? && Legal(w, e)
    ensures Inv(Step(w, e))
  {
    ArriveKeepsStore(w, e);
    ArriveKeepsLinks(w, e);
  }

  // ---------------------------------------------------------------- one delivery row changes

  predicate SameIdentity(a: Delivery, b: Delivery) {
    a.submission == b.submission && a.endpoint == b.endpoint && a.webhook == b.webhook
  }

  /** The row moves without becoming needed again, so what was deletable stays deletable. */
  predicate StaysReleased(a: Delivery, b: Delivery) {
    Protected(b.state) ==> Protected(a.state)
  }

  /** From w to v at most one delivery row differs, and it stays the same obligation. */
  predicate PutRow(w: World, v: World, id: DeliveryId, row: Delivery) {
    && id in w.tables.deliveries
    && SameIdentity(w.tables.deliveries[id], row)
    && StaysReleased(w.tables.deliveries[id], row)
    && v.policy == w.policy
    && v.requests == w.requests
    && v.archive == w.archive
    && v.sweeps == w.sweeps
    && v.tables.submissions == w.tables.submissions
    && v.tables.deliveries == w.tables.deliveries[id := row]
  }

  lemma PutRowKeepsLinks(w: World, v: World, id: DeliveryId, row: Delivery)
    requires LinkInv(w) && PutRow(w, v, id, row)
    ensures LinkInv(v)
  {
  }

  lemma PutRowKeepsJobs(w: World, v: World, id: DeliveryId, row: Delivery)
    requires JobsHold(w.jobs, w.grants, w.tables.deliveries, w.tables.submissions, w.archive)
    requires PutRow(w, v, id, row)
    ensures JobsHold(w.jobs, w.grants, v.tables.deliveries, v.tables.submissions, v.archive)
  {
  }

  lemma PutRowKeepsHistory(w: World, v: World, id: DeliveryId, row: Delivery)
    requires HistoryInv(w.tables) && PutRow(w, v, id, row)
    requires v.tables.attempts == w.tables.attempts && row.attempts == w.tables.deliveries[id].attempts
    ensures HistoryInv(v.tables)
  {
  }

  // ---------------------------------------------------------------- claims

  lemma ClaimPutsRow(w: World, id: DeliveryId, now: Instant, lease: Seconds, token: ClaimToken)
    requires Claimable(w.tables, id, now)
    ensures PutRow(w, ClaimStep(w, id, now, lease, token), id, ClaimedRow(w.tables.deliveries[id], now + lease, token))
  {
  }

  lemma ClaimKeepsGrants(w: World, id: DeliveryId, now: Instant, lease: Seconds, token: ClaimToken)
    requires RowsHold(w.tables.deliveries, w.policy) && GrantsHold(w.tables.deliveries, w.grants) && token !in w.grants
    ensures var v := ClaimStep(w, id, now, lease, token);
            RowsHold(v.tables.deliveries, v.policy) && GrantsHold(v.tables.deliveries, v.grants)
  {
  }

  lemma ClaimKeepsJobs(w: World, id: DeliveryId, now: Instant, lease: Seconds, token: ClaimToken)
    requires JobsHold(w.jobs, w.grants, w.tables.deliveries, w.tables.submissions, w.archive) && token !in w.grants
    requires LinksHold(w.tables.deliveries, w.tables.submissions, w.requests)
    requires ArchiveHolds(w.tables.submissions, w.archive, w.requests)
    ensures var v := ClaimStep(w, id, now, lease, token);
            JobsHold(v.jobs, v.grants, v.tables.deliveries, v.tables.submissions, v.archive)
  {
    if Claimable(w.tables, id, now) {
      ClaimPutsRow(w, id, now, lease, token);
      var v := ClaimStep(w, id, now, lease, token);
      PutRowKeepsJobs(w, v, id, ClaimedRow(w.tables.deliveries[id], now + lease, token));
      assert LinkOk(w.tables.deliveries[id], id, w.tables.submissions, w.requests);
    }
  }

  lemma ClaimKeepsLinks(w: World, id: DeliveryId, now: Instant, lease: Seconds, token: ClaimToken)
    requires LinkInv(w) && HistoryInv(w.tables)
    ensures LinkInv(ClaimStep(w, id, now, lease, token)) && HistoryInv(ClaimStep(w, id, now, lease, token).tables)
  {
    if Claimable(w.tables, id, now) {
      ClaimPutsRow(w, id, now, lease, token);
      var row := ClaimedRow(w.tables.deliveries[id], now + lease, token);
      PutRowKeepsLinks(w, ClaimStep(w, id, now, lease, token), id, row);
      PutRowKeepsHistory(w, ClaimStep(w, id, now, lease, token), id, row);
    }
  }

  lemma ClaimHolds(w: World, id: DeliveryId, now: Instant, lease: Seconds, token: ClaimToken)
    requires Inv(w) && token !in w.grants
    ensures Inv(ClaimStep(w, id, now, lease, token))
  {
    ClaimKeepsGrants(w, id, now, lease, token);
    ClaimKeepsJobs(w, id, now, lease, token);
    ClaimKeepsLinks(w, id, now, lease, token);
  }

  // ---------------------------------------------------------------- replays

  lemma ReplayKeepsQueue(w: World, id: DeliveryId, now: Instant)
    requires w.policy.Valid() && QueueInv(w)
    ensures QueueInv(ReplayStep(w, id, now))
  {
    if Requeueable(w.tables, id) {
      PutRowKeepsJobs(w, ReplayStep(w, id, now), id, RequeuedRow(w.tables.deliveries[id], now));
    }
  }

  lemma ReplayKeepsLinks(w: World, id: DeliveryId, now: Instant)
    requires LinkInv(w) && HistoryInv(w.tables)
    ensures LinkInv(ReplayStep(w, id, now)) && HistoryInv(ReplayStep(w, id, now).tables)
  {
    if Requeueable(w.tables, id) {
      var row := RequeuedRow(w.tables.deliveries[id], now);
      PutRowKeepsLinks(w, ReplayStep(w, id, now), id, row);
      PutRowKeepsHistory(w, ReplayStep(w, id, now), id, row);
    }
  }

  // ---------------------------------------------------------------- completions

  lemma FinishPutsRow(w: World, token: ClaimToken, attempt: AttemptId, result: DeliveryResult, now: Instant,
                      reread: bool)
    requires RowsHold(w.tables.deliveries, w.policy)
    requires token in w.jobs && Recordable(w.tables, Presented(w.tables, w.jobs[token], reread), attempt)
    ensures var id := w.jobs[token].delivery;
            PutRow(w, FinishStep(w, token, attempt, result, now, reread), id,
                   SettledRow(w.tables.deliveries[id], Some(token), result, now, w.policy))
  {
    SettledRowOk(w.tables.deliveries[w.jobs[token].delivery], Some(token), result, now, w.policy);
  }

  lemma FinishKeepsQueue(w: World, token: ClaimToken, attempt: AttemptId, result: DeliveryResult, now: Instant,
                         reread: bool)
    requires QueueInv(w)
    ensures QueueInv(FinishStep(w, token, attempt, result, now, reread))
  {
    if token in w.jobs && Recordable(w.tables, Presented(w.tables, w.jobs[token], reread), attempt) {
      var id := w.jobs[token].delivery;
      SettledRowOk(w.tables.deliveries[id], Some(token), result, now, w.policy);
      FinishPutsRow(w, token, attempt, result, now, reread);
      PutRowKeepsJobs(w, FinishStep(w, token, attempt, result, now, reread), id,
                      SettledRow(w.tables.deliveries[id], Some(token), result, now, w.policy));
    }
  }

  lemma FinishKeepsLinks(w: World, token: ClaimToken, attempt: AttemptId, result: DeliveryResult, now: Instant,
                         reread: bool)
    requires RowsHold(w.tables.deliveries, w.policy) && LinkInv(w)
    ensures LinkInv(FinishStep(w, token, attempt, result, now, reread))
  {
    if token in w.jobs && Recordable(w.tables, Presented(w.tables, w.jobs[token], reread), attempt) {
      var id := w.jobs[token].delivery;
      FinishPutsRow(w, token, attempt, result, now, reread);
      PutRowKeepsLinks(w, FinishStep(w, token, attempt, result, now, reread), id,
                       SettledRow(w.tables.deliveries[id], Some(token), result, now, w.policy));
    }
  }

  /** One more attempt, numbered one past the row's total, together with a row counting it. */
  lemma CountedAttemptKeepsNumbers(t: Tables, id: DeliveryId, row: Delivery, a: AttemptId, attempt: Attempt)
    requires HistoryInv(t) && id in t.deliveries && a !in t.attempts
    requires attempt.delivery == id && attempt.number == t.deliveries[id].attempts + 1 == row.attempts
    requires attempt.submission == t.deliveries[id].submission && attempt.url == row.webhook.url
    requires SameIdentity(t.deliveries[id], row)
    ensures HistoryInv(Tables(t.submissions, t.deliveries[id := row], t.attempts[a := attempt]))
  {
    var attempts := t.attempts[a := attempt];
    forall d, n: nat | d in t.deliveries[id := row] && 1 <= n <= t.deliveries[id := row][d].attempts
      ensures HasAttempt(attempts, d, n)
    {
      if d == id && n == row.attempts {
        assert Numbered(attempts, a, d, n);
      } else {
        assert HasAttempt(t.attempts, d, n);
        var x :| Numbered(t.attempts, x, d, n);
        assert Numbered(attempts, x, d, n);
      }
    }
  }

  lemma FinishKeepsHistory(w: World, token: ClaimToken, attempt: AttemptId, result: DeliveryResult, now: Instant,
                           reread: bool)
    requires JobsHold(w.jobs, w.grants, w.tables.deliveries, w.tables.submissions, w.archive)
    requires HistoryInv(w.tables)
    ensures HistoryInv(FinishStep(w, token, attempt, result, now, reread).tables)
  {
    if token in w.jobs && Recordable(w.tables, Presented(w.tables, w.jobs[token], reread), attempt) {
      var job := w.jobs[token];
      assert JobOk(job, token, w.grants, w.tables.deliveries, w.tables.submissions, w.archive);
      var d := w.tables.deliveries[job.delivery];
      var presented := Presented(w.tables, job, reread);
      CountedAttemptKeepsNumbers(w.tables, job.delivery, SettledRow(d, Some(token), result, now, w.policy), attempt,
                                 Attempt(job.delivery, presented.submission, d.attempts + 1, presented.webhook.url, now,
                                   result));
    }
  }

  lemma FinishHolds(w: World, token: ClaimToken, attempt: AttemptId, result: DeliveryResult, now: Instant, reread: bool)
    requires Inv(w)
    ensures Inv(FinishStep(w, token, attempt, result, now, reread))
  {
    FinishKeepsQueue(w, token, attempt, result, now, reread);
    FinishKeepsLinks(w, token, attempt, result, now, reread);
    FinishKeepsHistory(w, token, attempt, result, now, reread);
  }

  // ---------------------------------------------------------------- submissions are deleted

  lemma RemoveKeepsQueue(w: World, gone: set<SubmissionId>)
    requires QueueInv(w)
    ensures QueueInv(RemoveStep(w, gone))
  {
  }

  lemma RemoveKeepsStore(w: World, gone: set<SubmissionId>)
    requires StoreInv(w)
    ensures StoreInv(RemoveStep(w, gone))
  {
  }

  lemma RemoveKeepsLinks(w: World, gone: set<SubmissionId>)
    requires LinkInv(w)
    ensures LinkInv(RemoveStep(w, gone))
  {
  }

  lemma RemoveKeepsHistory(t: Tables, gone: set<SubmissionId>)
    requires HistoryInv(t)
    ensures HistoryInv(Remove(t, gone))
  {
    var u := Remove(t, gone);
    forall d, n: nat | d in u.deliveries && 1 <= n <= u.deliveries[d].attempts
      ensures HasAttempt(u.attempts, d, n)
    {
      assert HasAttempt(t.attempts, d, n);
      var x :| Numbered(t.attempts, x, d, n);
      assert Numbered(u.attempts, x, d, n);
    }
  }

  lemma RemoveHolds(w: World, gone: set<SubmissionId>)
    requires Inv(w)
    ensures Inv(RemoveStep(w, gone))
  {
    RemoveKeepsQueue(w, gone);
    RemoveKeepsStore(w, gone);
    RemoveKeepsLinks(w, gone);
    RemoveKeepsHistory(w.tables, gone);
  }

  // ---------------------------------------------------------------- a request advances

  lemma RestageHolds(w: World, id: SubmissionId, stage: Stage)
    requires Inv(w) && id in w.requests && !Won(w.requests[id], id)
    requires var r := w.requests[id].(stage := stage);
             !Won(r, id) && StageOk(r, id, w.tables.submissions, w.archive, w.requests)
    ensures Inv(SetStage(w, id, stage))
  {
    RestageKeepsStore(w, id, stage);
    RestageKeepsLinks(w, id, stage);
  }

  lemma RestageKeepsStore(w: World, id: SubmissionId, stage: Stage)
    requires StoreInv(w) && id in w.requests && !Won(w.requests[id], id)
    requires LosersHold(w.tables.deliveries, w.archive, w.requests)
    requires StageOk(w.requests[id].(stage := stage), id, w.tables.submissions, w.archive, w.requests)
    ensures StoreInv(SetStage(w, id, stage))
  {
    var v := SetStage(w, id, stage);
    StageStaysOk(v.requests[id], id, w, v);
    StagesStayOk(w, v, id);
    RestageKeepsArchive(w, id, stage);
  }

  lemma RestageKeepsArchive(w: World, id: SubmissionId, stage: Stage)
    requires ArchiveHolds(w.tables.submissions, w.archive, w.requests) && DeliveryIdsDistinct(w.requests)
    requires id in w.requests && id !in w.archive
    ensures var v := SetStage(w, id, stage);
            ArchiveHolds(v.tables.submissions, v.archive, v.requests) && DeliveryIdsDistinct(v.requests)
  {
  }

  lemma RestageKeepsLinks(w: World, id: SubmissionId, stage: Stage)
    requires LinkInv(w) && id in w.requests && !Won(w.requests[id], id)
    requires !Won(w.requests[id].(stage := stage), id)
    ensures LinkInv(SetStage(w, id, stage))
  {
  }

  /** With fresh identifiers, the only constraint an insert can violate is the idempotency key. */
  lemma OnlyTheKeyCollides(w: World, id: SubmissionId)
    requires StoreInv(w) && LinkInv(w) && id in w.requests && !Won(w.requests[id], id)
    requires var r := w.requests[id]; !Insertable(w.tables, id, r.row, r.delivery, r.webhook)
    ensures KeySpent(w.archive, w.requests[id].row)
  {
    var r := w.requests[id];
    assert id !in w.archive && r.delivery !in w.tables.deliveries;
    forall d | d in w.tables.deliveries ensures w.tables.deliveries[d].submission != Some(id) {
      assert LinkOk(w.tables.deliveries[d], d, w.tables.submissions, w.requests);
    }
    var s :| s in w.tables.submissions && SameKey(w.tables.submissions[s], r.row);
    assert Matches(w.archive, s, r.row);
  }

  lemma LookUpHolds(w: World, id: SubmissionId, unused: Stage)
    requires Inv(w) && id in w.requests && !Won(w.requests[id], id) && w.requests[id].row.key.Some?
    requires unused == Missed || (unused == Done(StorageError) && KeySpent(w.archive, w.requests[id].row))
    ensures Inv(LookUp(w, id, unused))
  {
    var row := w.requests[id].row;
    match FindByKey(w.tables, row.endpoint, row.key.value)
    case None =>
      if KeySpent(w.archive, row) {
        var s :| Matches(w.archive, s, row);
        assert s !in w.tables.submissions;
      }
      RestageHolds(w, id, unused);
    case Some(s) =>
      assert Matches(w.archive, s, row);
      RestageHolds(w, id, Settle(s, w.tables.submissions[s], row));
  }

  /** What a replay reports as queued is what the first request reported. */
  lemma OwedIsQueued(w: World, s: SubmissionId)
    requires LinkInv(w) && s in w.tables.submissions && s in w.requests
    ensures OwesDelivery(w.tables, s) <==> w.requests[s].webhook.Some?
  {
    if OwesDelivery(w.tables, s) {
      var d :| d in w.tables.deliveries && w.tables.deliveries[d].submission == Some(s);
      assert LinkOk(w.tables.deliveries[d], d, w.tables.submissions, w.requests);
    }
  }

  lemma ReplyHolds(w: World, id: SubmissionId)
    requires Inv(w) && id in w.requests && w.requests[id].stage.Found?
    ensures Inv(AdvanceRequest(w, id))
  {
    var s := w.requests[id].stage.existing;
    assert StageOk(w.requests[id], id, w.tables.submissions, w.archive, w.requests);
    if s in w.tables.submissions && s in w.requests {
      OwedIsQueued(w, s);
    }
    RestageHolds(w, id, Done(Stored(s, true, OwesDelivery(w.tables, s))));
  }

  ghost predicate CanCommit(w: World, id: SubmissionId) {
    && id in w.requests && !Won(w.requests[id], id)
    && Insertable(w.tables, id, w.requests[id].row, w.requests[id].delivery, w.requests[id].webhook)
  }

  lemma CommitKeepsQueue(w: World, id: SubmissionId)
    requires w.policy.Valid() && QueueInv(w) && CanCommit(w, id)
    requires LosersHold(w.tables.deliveries, w.archive, w.requests)
    ensures QueueInv(Committed(w, id))
  {
  }

  lemma CommitKeepsArchive(w: World, id: SubmissionId)
    requires StoreInv(w) && CanCommit(w, id)
    ensures var v := Committed(w, id); ArchiveHolds(v.tables.submissions, v.archive, v.requests)
  {
  }

  lemma CommitKeepsKeys(w: World, id: SubmissionId)
    requires StoreInv(w) && CanCommit(w, id)
    ensures var v := Committed(w, id); KeysUnique(v.tables.submissions) && DeliveryIdsDistinct(v.requests)
  {
  }

  lemma CommitKeepsStages(w: World, id: SubmissionId)
    requires StoreInv(w) && CanCommit(w, id)
    requires LosersHold(w.tables.deliveries, w.archive, w.requests)
    ensures var v := Committed(w, id); StagesHold(v.tables.submissions, v.archive, v.requests)
  {
    var v := Committed(w, id);
    assert id !in w.archive;
    StagesStayOk(w, v, id);
  }

  lemma CommitKeepsLinks(w: World, id: SubmissionId)
    requires DeliveryIdsDistinct(w.requests) && LinkInv(w) && CanCommit(w, id)
    ensures var v := Committed(w, id);
            && LinksHold(v.tables.deliveries, v.tables.submissions, v.requests)
            && OwedHold(v.tables.deliveries, v.tables.submissions, v.requests)
            && LosersHold(v.tables.deliveries, v.archive, v.requests)
  {
  }

  lemma CommitKeepsSweeps(w: World, id: SubmissionId)
    requires LinkInv(w) && CanCommit(w, id)
    ensures var v := Committed(w, id); SweepsHold(v.sweeps, v.tables.submissions, v.tables.deliveries, v.archive)
  {
    assert id !in w.archive;
  }

  lemma InsertKeepsHistory(t: Tables, id: SubmissionId, row: Submission, delivery: DeliveryId, webhook: Option<Webhook>,
                           now: Instant)
    requires HistoryInv(t) && Insertable(t, id, row, delivery, webhook)
    ensures HistoryInv(Insert(t, id, row, delivery, webhook, now))
  {
  }

  lemma CommitHolds(w: World, id: SubmissionId, violated: Stage)
    requires Inv(w) && id in w.requests && !Won(w.requests[id], id)
    requires violated == Collided || (violated == Done(StorageError) && w.requests[id].row.key.None?)
    ensures Inv(Commit(w, id, violated))
  {
    var r := w.requests[id];
    if Insertable(w.tables, id, r.row, r.delivery, r.webhook) {
      CommitKeepsQueue(w, id);
      CommitKeepsArchive(w, id);
      CommitKeepsKeys(w, id);
      CommitKeepsStages(w, id);
      CommitKeepsLinks(w, id);
      CommitKeepsSweeps(w, id);
      InsertKeepsHistory(w.tables, id, r.row, r.delivery, r.webhook, r.row.receivedAt);
    } else {
      OnlyTheKeyCollides(w, id);
      RestageHolds(w, id, violated);
    }
  }

  lemma AdvanceHolds(w: World, id: SubmissionId)
    requires Inv(w) && id in w.requests
    ensures Inv(AdvanceRequest(w, id))
  {
    var r := w.requests[id];
    assert StageOk(r, id, w.tables.submissions, w.archive, w.requests);
    match r.stage
    case Arrived =>
      if r.row.key.None? { CommitHolds(w, id, Done(StorageError)); } else { LookUpHolds(w, id, Missed); }
    case Missed => CommitHolds(w, id, Collided);
    case Collided => LookUpHolds(w, id, Done(StorageError));
    case Found(_) => ReplyHolds(w, id);
    case Done(_) =>
  }

  // ---------------------------------------------------------------- the rest, and all together

  lemma SweepReadHolds(w: World, e: Event)
    requires Inv(w) && e.SweepRead? && Legal(w, e)
    ensures Inv(Step(w, e))
  {
  }

  lemma SweepDeleteHolds(w: World, k: nat)
    requires Inv(w)
    ensures Inv(Step(w, SweepDelete(k)))
  {
    if k in w.sweeps {
      RemoveHolds(w, w.sweeps[k].ids);
    }
  }

  lemma CrashHolds(w: World, lost: set<ClaimToken>)
    requires Inv(w)
    ensures Inv(Step(w, Crash(lost)))
  {
  }

  lemma StepHolds(w: World, e: Event)
    requires Inv(w) && Legal(w, e)
    ensures Inv(Step(w, e))
  {
    match e
    case Arrive(_, _, _, _) => ArriveHolds(w, e);
    case Advance(id) => if id in w.requests { AdvanceHolds(w, id); }
    case TryClaim(id, now, lease, token) => ClaimHolds(w, id, now, lease, token);
    case Finish(token, attempt, result, now, reread) => FinishHolds(w, token, attempt, result, now, reread);
    case Crash(lost) => CrashHolds(w, lost);
    case Replay(id, now) => ReplayKeepsQueue(w, id, now); ReplayKeepsLinks(w, id, now);
    case SweepRead(_, _, _) => SweepReadHolds(w, e);
    case SweepDelete(k) => SweepDeleteHolds(w, k);
    case OperatorDelete(id) => RemoveHolds(w, {id});
  }

  /** Every state of every run satisfies the invariant, whatever an operator deletes. */
  lemma {:induction false} RunHolds(w: World, es: seq<Event>)
    requires Inv(w) && LegalRun(w, es)
    ensures Inv(Exec(w, es))
    decreases |es|
  {
    if es != [] {
      StepHolds(w, es[0]);
      RunHolds(Step(w, es[0]), es[1..]);
    }
  }
}
