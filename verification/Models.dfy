/** models.py: the stored rows. Identifiers and tokens are opaque, so numbers stand for them. */
module Models {
  import opened Prelude
  import opened Webhooks

  type SubmissionId = nat
  type DeliveryId = nat
  type AttemptId = nat
  type ClaimToken = nat
  type EndpointId = nat

  // The insertion-ordered dictionary of a form: each name once, with its values in arrival order.
  datatype Field = Field(name: string, values: seq<string>)

  datatype Webhook = Webhook(url: string, secret: string)

  datatype Submission = Submission(
    endpoint: EndpointId,
    receivedAt: Instant,
    fields: seq<Field>,
    key: Option<string>,
    fingerprint: Option<string>)

  datatype DeliveryState = Pending | Processing | Delivered | Failed

  datatype Delivery = Delivery(
    submission: Option<SubmissionId>,
    endpoint: EndpointId,
    webhook: Webhook,
    state: DeliveryState,
    attempts: nat,
    cycleAttempts: nat,
    nextAttemptAt: Instant,
    leaseEndsAt: Option<Instant>,
    token: Option<ClaimToken>,
    completedAt: Option<Instant>)

  datatype Attempt = Attempt(
    delivery: DeliveryId,
    submission: Option<SubmissionId>,
    number: nat,
    url: string,
    attemptedAt: Instant,
    result: DeliveryResult)

  type Submissions = map<SubmissionId, Submission>
  type Deliveries = map<DeliveryId, Delivery>
  type Attempts = map<AttemptId, Attempt>

  datatype Tables = Tables(submissions: Submissions, deliveries: Deliveries, attempts: Attempts)

  const EMPTY_TABLES := Tables(map[], map[], map[])

  predicate Terminal(state: DeliveryState) {
    state.Delivered? || state.Failed?
  }

  /** The states that keep a submission alive however old it is. */
  predicate Protected(state: DeliveryState) {
    state.Pending? || state.Processing? || state.Failed?
  }

  /** The check constraint named "completion". */
  predicate CompletionHolds(d: Delivery) {
    Terminal(d.state) <==> d.completedAt.Some?
  }

  /** Everything one delivery row satisfies in a system run under one retry policy. */
  predicate RowOk(d: Delivery, policy: RetryPolicy) {
    && CompletionHolds(d)
    && (d.state.Processing? <==> d.token.Some?)
    && (d.token.Some? <==> d.leaseEndsAt.Some?)
    && (!Terminal(d.state) ==> d.cycleAttempts < policy.maxAttempts)
    && d.cycleAttempts <= policy.maxAttempts
    && d.cycleAttempts <= d.attempts
  }

  /** What only the owner of a claim, a claim or a replay may change. */
  datatype Control = Control(
    state: DeliveryState,
    leaseEndsAt: Option<Instant>,
    token: Option<ClaimToken>,
    cycleAttempts: nat,
    nextAttemptAt: Instant,
    completedAt: Option<Instant>)

  function ControlOf(d: Delivery): Control {
    Control(d.state, d.leaseEndsAt, d.token, d.cycleAttempts, d.nextAttemptAt, d.completedAt)
  }
}
