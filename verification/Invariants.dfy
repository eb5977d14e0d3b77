/** What every reachable state of the protocol satisfies. Preservation is proved in Preservation.dfy. */
module Invariants {
  import opened Prelude
  import opened Webhooks
  import opened Models
  import opened Operations
  import opened Protocol

  /** Every delivery row is internally consistent. */
  ghost predicate RowsHold(deliveries: Deliveries, policy: RetryPolicy) {
    forall d | d in deliveries :: RowOk(deliveries[d], policy)
  }

  predicate HoldsGrant(row: Delivery, id: DeliveryId, grants: Grants) {
    row.token.Some? ==>
      && row.token.value in grants
      && grants[row.token.value].delivery == id
      && row.leaseEndsAt == Some(grants[row.token.value].endsAt)
  }

  /** A held token names the claim that granted it, and the row carries that claim's lease. */
  ghost predicate GrantsHold(deliveries: Deliveries, grants: Grants) {
    forall d | d in deliveries :: HoldsGrant(deliveries[d], d, grants)
  }

  /** The request answered that it stored its own submission. */
  predicate Won(r: Request, id: SubmissionId) {
    r.stage == Done(Stored(id, false, r.webhook.Some?))
  }

  /** Everything committed was committed by the request that generated its identifier. */
  ghost predicate ArchiveHolds(submissions: Submissions, archive: Submissions, requests: Requests) {
    && (forall s | s in submissions :: s in archive && archive[s] == submissions[s])
    && (forall s | s in archive :: s in requests && requests[s].row == archive[s] && Won(requests[s], s))
  }

  /** The unique constraint on (endpoint, key). */
  ghost predicate KeysUnique(submissions: Submissions) {
    forall a, b | a in submissions && b in submissions && a != b :: !SameKey(submissions[a], submissions[b])
  }

  ghost predicate DeliveryIdsDistinct(requests: Requests) {
    forall a, b | a in requests && b in requests && a != b :: requests[a].delivery != requests[b].delivery
  }

  predicate LinkOk(row: Delivery, id: DeliveryId, submissions: Submissions, requests: Requests) {
    row.submission.Some? ==>
      var s := row.submission.value;
      && s in submissions
      && s in requests
      && requests[s].delivery == id
      && requests[s].webhook == Some(row.webhook)
      && row.endpoint == submissions[s].endpoint
  }

  /** A linked delivery is the one its submission's request created, with the webhook of that moment. */
  ghost predicate LinksHold(deliveries: Deliveries, submissions: Submissions, requests: Requests) {
    forall d | d in deliveries :: LinkOk(deliveries[d], d, submissions, requests)
  }

  /** A stored submission that owes a delivery has it. */
  ghost predicate OwedHold(deliveries: Deliveries, submissions: Submissions, requests: Requests) {
    forall s | s in submissions && s in requests && requests[s].webhook.Some? ::
      requests[s].delivery in deliveries && deliveries[requests[s].delivery].submission == Some(s)
  }

  /** A request that did not commit left nothing behind. */
  ghost predicate LosersHold(deliveries: Deliveries, archive: Submissions, requests: Requests) {
    forall r | r in requests && !Won(requests[r], r) :: r !in archive && requests[r].delivery !in deliveries
  }

  /** Submission s, committed at some time, carries this row's endpoint and key. */
  predicate Matches(archive: Submissions, s: SubmissionId, row: Submission) {
    s in archive && SameKey(archive[s], row)
  }

  ghost predicate KeySpent(archive: Submissions, row: Submission) {
    exists s :: Matches(archive, s, row)
  }

  /** What each stage of store_submission has learnt. */
  ghost predicate StageOk(r: Request, id: SubmissionId, submissions: Submissions, archive: Submissions,
                          requests: Requests)
  {
    match r.stage
    case Arrived => true
    case Missed => r.row.key.Some?
    case Collided => KeySpent(archive, r.row)
    case Found(s) => Matches(archive, s, r.row) && archive[s].fingerprint == r.row.fingerprint
    case Done(reply) =>
      match reply
      case Stored(s, replayed, queued) =>
        if replayed then
          && Matches(archive, s, r.row)
          && archive[s].fingerprint == r.row.fingerprint
          && (s in submissions && s in requests ==> queued == requests[s].webhook.Some?)
        else s == id && id in archive && queued == r.webhook.Some?
      case KeyReused(s) => Matches(archive, s, r.row) && archive[s].fingerprint != r.row.fingerprint
      case StorageError => exists s :: Matches(archive, s, r.row) && s !in submissions
  }

  ghost predicate StagesHold(submissions: Submissions, archive: Submissions, requests: Requests) {
    forall r | r in requests ::
      && (requests[r].row.key.Some? <==> requests[r].row.fingerprint.Some?)
      && StageOk(requests[r], r, submissions, archive, requests)
  }

  predicate JobOk(job: Job, k: ClaimToken, grants: Grants, deliveries: Deliveries, submissions: Submissions,
                  archive: Submissions)
  {
    && job.token == Some(k)
    && k in grants
    && grants[k].delivery == job.delivery
    && job.delivery in deliveries
    && job.webhook == deliveries[job.delivery].webhook
    && job.submission.Some?
    && job.submission.value in archive
    && deliveries[job.delivery].submission == if job.submission.value in submissions then job.submission else None
  }

  /** A job in some worker's memory still describes its delivery, except that its submission may be gone. */
  ghost predicate JobsHold(jobs: Jobs, grants: Grants, deliveries: Deliveries, submissions: Submissions,
                           archive: Submissions)
  {
    forall k | k in jobs :: JobOk(jobs[k], k, grants, deliveries, submissions, archive)
  }

  predicate AttemptOk(a: Attempt, deliveries: Deliveries) {
    && a.delivery in deliveries
    && a.submission == deliveries[a.delivery].submission
    && a.url == deliveries[a.delivery].webhook.url
    && 1 <= a.number <= deliveries[a.delivery].attempts
  }

  /** Attempts point at deliveries, agree with them about the submission, and are numbered within range. */
  ghost predicate AttemptsHold(attempts: Attempts, deliveries: Deliveries) {
    forall a | a in attempts :: AttemptOk(attempts[a], deliveries)
  }

  ghost predicate NumbersUnique(attempts: Attempts) {
    forall a, b | a in attempts && b in attempts && a != b ::
      !(attempts[a].delivery == attempts[b].delivery && attempts[a].number == attempts[b].number)
  }

  predicate Numbered(attempts: Attempts, a: AttemptId, d: DeliveryId, n: nat) {
    a in attempts && attempts[a].delivery == d && attempts[a].number == n
  }

  ghost predicate HasAttempt(attempts: Attempts, d: DeliveryId, n: nat) {
    exists a :: Numbered(attempts, a, d, n)
  }

  /** No attempt number is missing. */
  ghost predicate NumbersComplete(attempts: Attempts, deliveries: Deliveries) {
    forall d, n: nat | d in deliveries && 1 <= n <= deliveries[d].attempts :: HasAttempt(attempts, d, n)
  }

  /** Whatever a sweep read as expired is still expired, or already gone. */
  ghost predicate SweepsHold(sweeps: Sweeps, submissions: Submissions, deliveries: Deliveries, archive: Submissions) {
    forall k, s | k in sweeps && s in sweeps[k].ids ::
      s in archive && (s in submissions ==> Expired(submissions, deliveries, s, sweeps[k].before))
  }

  /** Every delivery that could still be attempted has the payload it needs. */
  ghost predicate PayloadsHold(deliveries: Deliveries) {
    forall d | d in deliveries && Protected(deliveries[d].state) :: deliveries[d].submission.Some?
  }

  // Grouped by what they constrain, so that a proof can carry only the group it needs.

  ghost predicate QueueInv(w: World) {
    && RowsHold(w.tables.deliveries, w.policy)
    && GrantsHold(w.tables.deliveries, w.grants)
    && JobsHold(w.jobs, w.grants, w.tables.deliveries, w.tables.submissions, w.archive)
  }

  ghost predicate StoreInv(w: World) {
    && ArchiveHolds(w.tables.submissions, w.archive, w.requests)
    && KeysUnique(w.tables.submissions)
    && DeliveryIdsDistinct(w.requests)
    && StagesHold(w.tables.submissions, w.archive, w.requests)
  }

  ghost predicate LinkInv(w: World) {
    && LinksHold(w.tables.deliveries, w.tables.submissions, w.requests)
    && OwedHold(w.tables.deliveries, w.tables.submissions, w.requests)
    && LosersHold(w.tables.deliveries, w.archive, w.requests)
    && SweepsHold(w.sweeps, w.tables.submissions, w.tables.deliveries, w.archive)
  }

  ghost predicate HistoryInv(t: Tables) {
    && AttemptsHold(t.attempts, t.deliveries)
    && NumbersUnique(t.attempts)
    && NumbersComplete(t.attempts, t.deliveries)
  }

  ghost predicate Inv(w: World) {
    w.policy.Valid() && QueueInv(w) && StoreInv(w) && LinkInv(w) && HistoryInv(w.tables)
  }
}
