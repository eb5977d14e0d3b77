/**
 * The whole service as one state machine: any number of API requests, workers, retention sweeps
 * and operators, each committed statement being one step, in any order.
 *
 * A request is named by the submission identifier it generated. Worker memory is the set of jobs
 * that claims handed out, each under the token it was claimed with; a job is never used up, so a
 * worker may present one claim as often as it likes.
 */
module Protocol {
  import opened Prelude
  import opened Webhooks
  import opened Models
  import opened Operations

  datatype Reply =
    | Stored(id: SubmissionId, replayed: bool, queued: bool)
    | KeyReused(id: SubmissionId)
    | StorageError

  // Where store_submission has got to: lookup, insert, and a second lookup after a violation.
  datatype Stage =
    | Arrived
    | Missed
    | Collided
    | Found(existing: SubmissionId)
    | Done(reply: Reply)

  datatype Request = Request(row: Submission, webhook: Option<Webhook>, delivery: DeliveryId, stage: Stage)

  // What a claim granted, kept for ever.
  datatype Grant = Grant(delivery: DeliveryId, claimedAt: Instant, endsAt: Instant)

  // The identifiers one retention batch read, and the cutoff it read them under.
  datatype Sweep = Sweep(before: Instant, ids: set<SubmissionId>)

  type Requests = map<SubmissionId, Request>
  type Jobs = map<ClaimToken, Job>
  type Grants = map<ClaimToken, Grant>
  type Sweeps = map<nat, Sweep>

  datatype World = World(
    policy: RetryPolicy,
    tables: Tables,
    requests: Requests,
    jobs: Jobs,
    sweeps: Sweeps,
    // History: every submission ever committed, and every claim ever granted.
    archive: Submissions,
    grants: Grants)

  datatype Event =
    | Arrive(id: SubmissionId, row: Submission, webhook: Option<Webhook>, newDelivery: DeliveryId)
    | Advance(id: SubmissionId)
    | TryClaim(delivery: DeliveryId, now: Instant, lease: Seconds, token: ClaimToken)
    | Finish(token: ClaimToken, attempt: AttemptId, result: DeliveryResult, now: Instant, reread: bool)
    | Crash(lost: set<ClaimToken>)
    | Replay(delivery: DeliveryId, now: Instant)
    | SweepRead(sweep: nat, before: Instant, ids: set<SubmissionId>)
    | SweepDelete(sweep: nat)
    | OperatorDelete(id: SubmissionId)

  function Init(policy: RetryPolicy): World {
    World(policy, EMPTY_TABLES, map[], map[], map[], map[], map[])
  }

  /**
   * What the environment guarantees: identifiers and tokens are freshly generated, a worker
   * finishes only what some claim handed it, and a sweep's list is what its query returned.
   */
  predicate Legal(w: World, e: Event) {
    match e
    case Arrive(id, row, webhook, delivery) =>
      && id !in w.requests
      && (row.key.Some? <==> row.fingerprint.Some?)
      && delivery !in w.tables.deliveries
      && forall r | r in w.requests :: w.requests[r].delivery != delivery
    case TryClaim(_, _, lease, token) => token !in w.grants && lease > 0.0
    case Finish(token, _, _, _, _) => token in w.jobs
    case SweepRead(_, before, ids) => forall s | s in ids ::
        Expired(w.tables.submissions, w.tables.deliveries, s, before)
    case _ => true
  }

  // ---------------------------------------------------------------- requests

  function Settle(existing: SubmissionId, stored: Submission, row: Submission): Stage {
    if stored.fingerprint == row.fingerprint then Found(existing) else Done(KeyReused(existing))
  }

  function SetStage(w: World, id: SubmissionId, stage: Stage): World
    requires id in w.requests
  {
    w.(requests := w.requests[id := w.requests[id].(stage := stage)])
  }

  function ArriveStep(w: World, id: SubmissionId, row: Submission, webhook: Option<Webhook>,
                      delivery: DeliveryId): World
  {
    w.(requests := w.requests[id := Request(row, webhook, delivery, Arrived)])
  }

  /** One lookup by key; `unused` is what happens when nothing holds it. */
  ghost function LookUp(w: World, id: SubmissionId, unused: Stage): World
    requires id in w.requests && w.requests[id].row.key.Some?
  {
    var row := w.requests[id].row;
    match FindByKey(w.tables, row.endpoint, row.key.value)
    case None => SetStage(w, id, unused)
    case Some(s) => SetStage(w, id, Settle(s, w.tables.submissions[s], row))
  }

  /** The world after request id committed its submission and its delivery together. */
  function Committed(w: World, id: SubmissionId): World
    requires id in w.requests
  {
    var r := w.requests[id];
    SetStage(w, id, Done(Stored(id, false, r.webhook.Some?)))
    .(tables := Insert(w.tables, id, r.row, r.delivery, r.webhook, r.row.receivedAt),
      archive := w.archive[id := r.row])
  }

  /** The commit, or a violation and nothing. */
  ghost function Commit(w: World, id: SubmissionId, violated: Stage): World
    requires id in w.requests
  {
    var r := w.requests[id];
    if Insertable(w.tables, id, r.row, r.delivery, r.webhook) then Committed(w, id) else SetStage(w, id, violated)
  }

  ghost function AdvanceRequest(w: World, id: SubmissionId): World
    requires id in w.requests
  {
    var r := w.requests[id];
    match r.stage
    case Arrived => if r.row.key.None? then Commit(w, id, Done(StorageError)) else LookUp(w, id, Missed)
    case Missed => Commit(w, id, Collided)
    case Collided => if r.row.key.None? then w else LookUp(w, id, Done(StorageError))
    case Found(s) => SetStage(w, id, Done(Stored(s, true, OwesDelivery(w.tables, s))))
    case Done(_) => w
  }

  // ---------------------------------------------------------------- steps

  function ClaimStep(w: World, id: DeliveryId, now: Instant, lease: Seconds, token: ClaimToken): World {
    if Claimable(w.tables, id, now) then
      var t := Claim(w.tables, id, now, lease, token);
      w.(tables := t,
         jobs := w.jobs[token := Loaded(id, t.deliveries[id])],
         grants := w.grants[token := Grant(id, now, now + lease)])
    else w
  }

  /**
   * `reread` is whether a neighbour's failure in the worker's batch has expired the claimed object since it was loaded.
   */
  function FinishStep(w: World, token: ClaimToken, attempt: AttemptId, result: DeliveryResult, now: Instant,
                      reread: bool): World
  {
    if token in w.jobs
    then
      var job := Presented(w.tables, w.jobs[token], reread);
      w.(tables := Complete(w.tables, job, Some(token), attempt, result, now, w.policy))
    else w
  }

  function ReplayStep(w: World, id: DeliveryId, now: Instant): World {
    w.(tables := Requeue(w.tables, id, now))
  }

  function RemoveStep(w: World, gone: set<SubmissionId>): World {
    w.(tables := Remove(w.tables, gone))
  }

  ghost function Step(w: World, e: Event): World {
    match e
    case Arrive(id, row, webhook, delivery) => ArriveStep(w, id, row, webhook, delivery)
    case Advance(id) => if id in w.requests then AdvanceRequest(w, id) else w
    case TryClaim(id, now, lease, token) => ClaimStep(w, id, now, lease, token)
    case Finish(token, attempt, result, now, reread) => FinishStep(w, token, attempt, result, now, reread)
    case Crash(lost) => w.(jobs := w.jobs - lost)
    case Replay(id, now) => ReplayStep(w, id, now)
    case SweepRead(k, before, ids) => w.(sweeps := w.sweeps[k := Sweep(before, ids)])
    case SweepDelete(k) => if k in w.sweeps then RemoveStep(w, w.sweeps[k].ids).(sweeps := w.sweeps - {k}) else w
    case OperatorDelete(id) => RemoveStep(w, {id})
  }

  ghost function Exec(w: World, es: seq<Event>): World
    decreases |es|
  {
    if es == [] then w else Exec(Step(w, es[0]), es[1..])
  }

  ghost predicate LegalRun(w: World, es: seq<Event>)
    decreases |es|
  {
    es == [] || (Legal(w, es[0]) && LegalRun(Step(w, es[0]), es[1..]))
  }

  lemma {:induction false} ExecSplits(w: World, a: seq<Event>, b: seq<Event>)
    ensures Exec(w, a + b) == Exec(Exec(w, a), b)
    ensures LegalRun(w, a + b) <==> LegalRun(w, a) && LegalRun(Exec(w, a), b)
    decreases |a|
  {
    if a == [] {
      assert a + b == b;
    } else {
      assert (a + b)[1..] == a[1..] + b;
      ExecSplits(Step(w, a[0]), a[1..], b);
    }
  }
}
