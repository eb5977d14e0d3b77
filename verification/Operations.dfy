/**
 * storage.py: what each committed statement makes of the stored rows.
 * The class in Database.dfy performs these in place; Protocol.dfy interleaves them.
 */
module Operations {
  import opened Prelude
  import opened Webhooks
  import opened Models

  predicate SameKey(a: Submission, b: Submission) {
    a.endpoint == b.endpoint && a.key.Some? && a.key == b.key
  }

  /** Every unique, check and foreign-key constraint the schema declares on these tables. */
  ghost predicate ConstraintsHold(t: Tables) {
    && (forall a, b | a in t.submissions && b in t.submissions && a != b ::
      !SameKey(t.submissions[a], t.submissions[b]))
    && (forall s | s in t.submissions :: t.submissions[s].key.Some? <==> t.submissions[s].fingerprint.Some?)
    && (forall d | d in t.deliveries :: CompletionHolds(t.deliveries[d]))
    && (forall d | d in t.deliveries :: Resolves(t.deliveries[d].submission, t.submissions))
    && (forall d, e | d in t.deliveries && e in t.deliveries && d != e ::
          t.deliveries[d].submission.Some? ==> t.deliveries[d].submission != t.deliveries[e].submission)
    && (forall a | a in t.attempts ::
      t.attempts[a].delivery in t.deliveries && Resolves(t.attempts[a].submission, t.submissions))
  }

  predicate Resolves(link: Option<SubmissionId>, submissions: Submissions) {
    link.Some? ==> link.value in submissions
  }

  // ---------------------------------------------------------------- storing

  /** No primary key, unique or check constraint refuses this insert. */
  ghost predicate Insertable(t: Tables, id: SubmissionId, row: Submission, delivery: DeliveryId,
                             webhook: Option<Webhook>)
  {
    && id !in t.submissions
    && (row.key.Some? <==> row.fingerprint.Some?)
    && (forall s | s in t.submissions :: !SameKey(t.submissions[s], row))
    && (webhook.Some? ==>
          && delivery !in t.deliveries
          && forall d | d in t.deliveries :: t.deliveries[d].submission != Some(id))
  }

  function NewDelivery(id: SubmissionId, row: Submission, webhook: Webhook, now: Instant): Delivery {
    Delivery(Some(id), row.endpoint, webhook, Pending, 0, 0, now, None, None, None)
  }

  function Insert(t: Tables, id: SubmissionId, row: Submission, delivery: DeliveryId, webhook: Option<Webhook>,
                  now: Instant): Tables
  {
    t.(submissions := t.submissions[id := row],
       deliveries := if webhook.None? then t.deliveries
                     else t.deliveries[delivery := NewDelivery(id, row, webhook.value, now)])
  }

  /** The submission a key was already spent on. */
  ghost function FindByKey(t: Tables, endpoint: EndpointId, key: string): (found: Option<SubmissionId>)
    ensures found.Some? ==> found.value in t.submissions
                            && t.submissions[found.value].endpoint == endpoint
                            && t.submissions[found.value].key == Some(key)
    ensures found.None? ==> forall s | s in t.submissions ::
            !(t.submissions[s].endpoint == endpoint && t.submissions[s].key == Some(key))
  {
    if s :| s in t.submissions && t.submissions[s].endpoint == endpoint && t.submissions[s].key == Some(key)
    then Some(s) else None
  }

  ghost predicate OwesDelivery(t: Tables, id: SubmissionId) {
    exists d | d in t.deliveries :: t.deliveries[d].submission == Some(id)
  }

  // ---------------------------------------------------------------- claiming

  /** A null column satisfies no comparison. */
  predicate Due(d: Delivery, now: Instant) {
    && d.submission.Some?
    && (|| (d.state.Pending? && d.nextAttemptAt <= now)
        || (d.state.Processing? && d.leaseEndsAt.Some? && d.leaseEndsAt.value <= now))
  }

  function ClaimedRow(d: Delivery, leaseEndsAt: Instant, token: ClaimToken): Delivery {
    d.(state := Processing, leaseEndsAt := Some(leaseEndsAt), token := Some(token))
  }

  predicate Claimable(t: Tables, id: DeliveryId, now: Instant) {
    id in t.deliveries && Due(t.deliveries[id], now)
  }

  /** The conditional update: it matches nothing unless the row is still due. */
  function Claim(t: Tables, id: DeliveryId, now: Instant, lease: Seconds, token: ClaimToken): Tables {
    if Claimable(t, id, now)
    then t.(deliveries := t.deliveries[id := ClaimedRow(t.deliveries[id], now + lease, token)])
    else t
  }

  // ---------------------------------------------------------------- completing

  /** A claimed row as a worker loaded it, which may be out of date by the time it is used. */
  datatype Job = Job(delivery: DeliveryId, submission: Option<SubmissionId>, webhook: Webhook,
    token: Option<ClaimToken>)

  function Loaded(id: DeliveryId, d: Delivery): Job {
    Job(id, d.submission, d.webhook, d.token)
  }

  /**
   * The same object reread from its row, as happens to every claimed object once a rollback expired it.
   * A link that is lost between the rereading and the row lock is presented as it was loaded.
   */
  function Reread(t: Tables, job: Job): Job {
    if job.delivery in t.deliveries
    then job.(submission := t.deliveries[job.delivery].submission, webhook := t.deliveries[job.delivery].webhook)
    else job
  }

  function Presented(t: Tables, job: Job, reread: bool): Job {
    if reread then Reread(t, job) else job
  }

  predicate Owns(d: Delivery, presented: Option<ClaimToken>) {
    presented.Some? && d.token == presented
  }

  function SettledRow(d: Delivery, presented: Option<ClaimToken>, result: DeliveryResult, now: Instant,
                      policy: RetryPolicy): Delivery
  {
    if !Owns(d, presented) then d.(attempts := d.attempts + 1)
    else
      var cycle := d.cycleAttempts + 1;
      var released := d.(attempts := d.attempts + 1, cycleAttempts := cycle, leaseEndsAt := None, token := None);
      if result.outcome.Succeeded? then
        released.(state := Delivered, completedAt := Some(now))
      else if IsRetryable(result) && !policy.IsExhausted(cycle) then
        released.(state := Pending, nextAttemptAt := now + policy.DelayAfter(cycle))
      else
        released.(state := Failed, completedAt := Some(now))
  }

  /** The delivery exists, the attempt's primary key is free, and its foreign key resolves. */
  predicate Recordable(t: Tables, job: Job, attempt: AttemptId) {
    && job.delivery in t.deliveries
    && attempt !in t.attempts
    && (job.submission.Some? ==> job.submission.value in t.submissions)
  }

  function Record(t: Tables, job: Job, presented: Option<ClaimToken>, attempt: AttemptId, result: DeliveryResult,
                  now: Instant, policy: RetryPolicy): Tables
    requires Recordable(t, job, attempt)
  {
    var d := t.deliveries[job.delivery];
    var recorded := Attempt(job.delivery, job.submission, d.attempts + 1, job.webhook.url, now, result);
    t.(attempts := t.attempts[attempt := recorded],
       deliveries := t.deliveries[job.delivery := SettledRow(d, presented, result, now, policy)])
  }

  /** A constraint violation rolls the audit row and the transition back together. */
  function Complete(t: Tables, job: Job, presented: Option<ClaimToken>, attempt: AttemptId, result: DeliveryResult,
                    now: Instant, policy: RetryPolicy): Tables
  {
    if Recordable(t, job, attempt) then Record(t, job, presented, attempt, result, now, policy) else t
  }

  // ---------------------------------------------------------------- replaying

  predicate Requeueable(t: Tables, id: DeliveryId) {
    id in t.deliveries && t.deliveries[id].state.Failed? && t.deliveries[id].submission.Some?
  }

  function RequeuedRow(d: Delivery, now: Instant): Delivery {
    d.(state := Pending, cycleAttempts := 0, nextAttemptAt := now, leaseEndsAt := None, token := None,
      completedAt := None)
  }

  function Requeue(t: Tables, id: DeliveryId, now: Instant): Tables {
    if Requeueable(t, id) then t.(deliveries := t.deliveries[id := RequeuedRow(t.deliveries[id], now)]) else t
  }

  // ---------------------------------------------------------------- retention

  /** Old enough, and carrying no delivery that could still be attempted. */
  predicate Expired(submissions: Submissions, deliveries: Deliveries, id: SubmissionId, before: Instant) {
    && id in submissions
    && submissions[id].receivedAt < before
    && forall d | d in deliveries :: deliveries[d].submission == Some(id) ==> !Protected(deliveries[d].state)
  }

  function Unlink(link: Option<SubmissionId>, gone: set<SubmissionId>): Option<SubmissionId> {
    if link.Some? && link.value in gone then None else link
  }

  /** Deleting by id. Both foreign keys are ON DELETE SET NULL. */
  function Remove(t: Tables, gone: set<SubmissionId>): Tables {
    Tables(
      t.submissions - gone,
      map d | d in t.deliveries :: t.deliveries[d].(submission := Unlink(t.deliveries[d].submission, gone)),
      map a | a in t.attempts :: t.attempts[a].(submission := Unlink(t.attempts[a].submission, gone)))
  }

  // ---------------------------------------------------------------- one row at a time

  lemma NewRowOk(id: SubmissionId, row: Submission, webhook: Webhook, now: Instant, policy: RetryPolicy)
    requires policy.Valid()
    ensures RowOk(NewDelivery(id, row, webhook, now), policy)
  {
  }

  lemma ClaimedRowOk(d: Delivery, now: Instant, endsAt: Instant, token: ClaimToken, policy: RetryPolicy)
    requires RowOk(d, policy) && Due(d, now)
    ensures RowOk(ClaimedRow(d, endsAt, token), policy)
  {
  }

  lemma SettledRowOk(d: Delivery, presented: Option<ClaimToken>, result: DeliveryResult, now: Instant,
                     policy: RetryPolicy)
    requires RowOk(d, policy)
    ensures RowOk(SettledRow(d, presented, result, now, policy), policy)
  {
  }

  lemma RequeuedRowOk(d: Delivery, now: Instant, policy: RetryPolicy)
    requires policy.Valid() && RowOk(d, policy)
    ensures RowOk(RequeuedRow(d, now), policy)
  {
  }
}
