/**
 * migrations 0005: what its data statements do to stored rows. Adding and dropping columns, indexes
 * and foreign keys changes no row and is not modelled.
 */
module Migration {
  import opened Prelude
  import opened Webhooks
  import opened Models
  import opened Operations
  import opened Protocol
  import opened Invariants
  import Database

  // A delivery row as the older schema holds it: always linked, and with no endpoint of its own.
  datatype OldDelivery = OldDelivery(
    submission: SubmissionId,
    webhook: Webhook,
    state: DeliveryState,
    attempts: nat,
    cycleAttempts: nat,
    nextAttemptAt: Instant,
    leaseEndsAt: Option<Instant>,
    token: Option<ClaimToken>,
    completedAt: Option<Instant>)

  type OldDeliveries = map<DeliveryId, OldDelivery>

  function LinkedOnly(t: Tables): Tables {
    Tables(t.submissions,
           map d | d in t.deliveries && t.deliveries[d].submission.Some? :: t.deliveries[d],
           map a | a in t.attempts && t.attempts[a].submission.Some? :: t.attempts[a])
  }

  /** The foreign key from attempts to deliveries, which neither delete may leave dangling. */
  ghost predicate AttemptsResolve(attempts: Attempts, deliveries: Deliveries) {
    forall a | a in attempts :: attempts[a].delivery in deliveries
  }

  function DropEndpoint(d: Delivery): OldDelivery
    requires d.submission.Some?
  {
    OldDelivery(d.submission.value, d.webhook, d.state, d.attempts, d.cycleAttempts, d.nextAttemptAt,
                d.leaseEndsAt, d.token, d.completedAt)
  }

  /** The backfill: the endpoint of the submission the delivery carries. */
  function AddEndpoint(d: OldDelivery, submissions: Submissions): Delivery
    requires d.submission in submissions
  {
    Delivery(Some(d.submission), submissions[d.submission].endpoint, d.webhook, d.state, d.attempts, d.cycleAttempts,
             d.nextAttemptAt, d.leaseEndsAt, d.token, d.completedAt)
  }

  /** The two deletes in the order the downgrade runs them, each leaving every foreign key resolved. */
  method DeleteUnlinked(db: Database.Database)
    requires HistoryInv(db.Tables())
    modifies db
    ensures db.Tables() == LinkedOnly(old(db.Tables()))
    ensures db.submissions == old(db.submissions)
    ensures forall d :: d in db.deliveries <==> d in old(db.deliveries) && old(db.deliveries)[d].submission.Some?
    ensures forall a :: a in db.attempts <==> a in old(db.attempts) && old(db.attempts)[a].submission.Some?
    ensures AttemptsResolve(db.attempts, db.deliveries)
  {
    db.attempts := map a | a in db.attempts && db.attempts[a].submission.Some? :: db.attempts[a];
    assert AttemptsResolve(db.attempts, db.deliveries);
    db.deliveries := map d | d in db.deliveries && db.deliveries[d].submission.Some? :: db.deliveries[d];
    LinkedOnlyResolves(old(db.Tables()));
  }

  lemma LinkedOnlyResolves(t: Tables)
    requires AttemptsHold(t.attempts, t.deliveries)
    ensures AttemptsResolve(LinkedOnly(t).attempts, LinkedOnly(t).deliveries)
  {
    forall a | a in LinkedOnly(t).attempts ensures LinkedOnly(t).attempts[a].delivery in LinkedOnly(t).deliveries {
      assert AttemptOk(t.attempts[a], t.deliveries);
    }
  }

  /** The downgrade destroys unlinked deliveries and their attempts, and no part of any other history. */
  lemma LinkedHistoryIsKeptWhole(t: Tables, d: DeliveryId)
    requires HistoryInv(t) && d in t.deliveries && t.deliveries[d].submission.Some?
    ensures var u := LinkedOnly(t);
            && d in u.deliveries && u.deliveries[d] == t.deliveries[d]
            && forall a | a in t.attempts && t.attempts[a].delivery == d ::
              a in u.attempts && u.attempts[a] == t.attempts[a]
  {
    forall a | a in t.attempts && t.attempts[a].delivery == d ensures a in LinkedOnly(t).attempts {
      assert AttemptOk(t.attempts[a], t.deliveries);
    }
  }

  lemma LinkedOnlyKeepsHistory(t: Tables)
    requires HistoryInv(t)
    ensures HistoryInv(LinkedOnly(t))
  {
    var u := LinkedOnly(t);
    forall d, n: nat | d in u.deliveries && 1 <= n <= u.deliveries[d].attempts ensures HasAttempt(u.attempts, d, n) {
      LinkedHistoryIsKeptWhole(t, d);
      assert HasAttempt(t.attempts, d, n);
      var a :| Numbered(t.attempts, a, d, n);
      assert Numbered(u.attempts, a, d, n);
    }
  }

  /**
   * Deleting the deliveries first would leave an attempt pointing nowhere exactly when an unlinked delivery was ever
   * attempted.
   */
  lemma DeliveriesFirstWouldDangle(t: Tables)
    requires HistoryInv(t)
    ensures AttemptsResolve(t.attempts, LinkedOnly(t).deliveries) <==>
            forall d | d in t.deliveries && t.deliveries[d].submission.None? :: t.deliveries[d].attempts == 0
  {
    forall d | d in t.deliveries && t.deliveries[d].submission.None? && t.deliveries[d].attempts > 0
      ensures !AttemptsResolve(t.attempts, LinkedOnly(t).deliveries)
    {
      assert HasAttempt(t.attempts, d, 1);
      var a :| Numbered(t.attempts, a, d, 1);
    }
    forall a | a in t.attempts ensures AttemptOk(t.attempts[a], t.deliveries) {
    }
  }

  /** In a reachable state, downgrading and upgrading again gives back every linked delivery, endpoint included. */
  lemma BackfillRestoresEndpoints(w: World, d: DeliveryId)
    requires Inv(w) && d in LinkedOnly(w.tables).deliveries
    ensures var row := w.tables.deliveries[d];
            && row.submission.Some? && DropEndpoint(row).submission in w.tables.submissions
            && AddEndpoint(DropEndpoint(row), w.tables.submissions) == row
  {
    assert LinkOk(w.tables.deliveries[d], d, w.tables.submissions, w.requests);
  }

  /** The update that backfills every delivery: none is left without an endpoint, so the column can be tightened. */
  method Backfill(submissions: Submissions, olds: OldDeliveries) returns (deliveries: Deliveries)
    requires forall d | d in olds :: olds[d].submission in submissions
    ensures deliveries.Keys == olds.Keys
    ensures forall d | d in deliveries ::
              && deliveries[d].submission == Some(olds[d].submission)
              && deliveries[d].endpoint == submissions[olds[d].submission].endpoint
              && DropEndpoint(deliveries[d]) == olds[d]
  {
    deliveries := map d | d in olds :: AddEndpoint(olds[d], submissions);
  }
}
