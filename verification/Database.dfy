/**
 * storage.py's own operations, each updating the rows in place and proved against the functions of
 * Operations.dfy, which are what the protocol interleaves.
 */
module Database {
  import opened Prelude
  import opened Webhooks
  import opened Models
  import opened Operations

  datatype StoredSubmission = StoredSubmission(submission: Submission, id: SubmissionId, replayed: bool,
    deliveryQueued: bool)

  datatype StoreError = IdempotencyKeyReused | IntegrityError

  datatype CompletedAttempt = CompletedAttempt(attempt: Attempt, state: DeliveryState, owned: bool)

  datatype ReplayOutcome = ReplayOutcome(record: Option<Delivery>, requeued: bool)

  function ExpiredSet(t: Tables, before: Instant): set<SubmissionId> {
    set s | s in t.submissions && Expired(t.submissions, t.deliveries, s, before)
  }

  function DueSet(t: Tables, now: Instant): set<DeliveryId> {
    set d | d in t.deliveries && Due(t.deliveries[d], now)
  }

  lemma RemoveTwice(t: Tables, a: set<SubmissionId>, b: set<SubmissionId>)
    ensures Remove(Remove(t, a), b) == Remove(t, a + b)
  {
  }

  lemma RemoveNothing(t: Tables)
    ensures Remove(t, {}) == t
  {
    assert Remove(t, {}).submissions == t.submissions;
    assert Remove(t, {}).deliveries == t.deliveries;
    assert Remove(t, {}).attempts == t.attempts;
  }

  /** Deleting submissions makes no other submission eligible or protected. */
  lemma RemoveKeepsEligibility(t: Tables, gone: set<SubmissionId>, before: Instant)
    ensures ExpiredSet(Remove(t, gone), before) == ExpiredSet(t, before) - gone
  {
    var u := Remove(t, gone);
    forall s | s in u.submissions
      ensures Expired(u.submissions, u.deliveries, s, before) <==> Expired(t.submissions, t.deliveries, s, before)
    {
      if Expired(u.submissions, u.deliveries, s, before) {
        forall d | d in t.deliveries && t.deliveries[d].submission == Some(s)
          ensures !Protected(t.deliveries[d].state)
        {
          assert u.deliveries[d].submission == Some(s);
        }
      }
    }
  }

  /** How many rows n batches can take. */
  function Capacity(size: nat, n: nat): nat {
    if n == 0 then 0 else Capacity(size, n - 1) + size
  }

  lemma {:induction false} CapacityIsProduct(size: nat, n: nat)
    ensures Capacity(size, n) == size * n
  {
    if n > 0 {
      CapacityIsProduct(size, n - 1);
      assert size * n == size * (n - 1) + size;
    }
  }

  lemma {:induction false} CapacityGrows(size: nat, i: nat, n: nat)
    requires i <= n
    ensures Capacity(size, i) <= Capacity(size, n)
    ensures size == 0 ==> Capacity(size, n) == 0
  {
    if n > 0 {
      CapacityGrows(size, if i < n then i else n - 1, n - 1);
    }
  }

  lemma BatchSets(all: set<SubmissionId>, gone: set<SubmissionId>, ids: set<SubmissionId>, size: nat)
    requires gone <= all && ids <= all - gone && |ids| == Min(size, |all - gone|)
    ensures gone + ids <= all && |gone + ids| == |gone| + |ids|
    ensures |ids| < size ==> gone + ids == all
  {
    SubsetIsSmaller(ids, all - gone);
  }

  /** One more batch of a sweep that has already removed `gone`. */
  lemma BatchExtendsSweep(was: Tables, gone: set<SubmissionId>, ids: set<SubmissionId>, before: Instant, size: nat)
    requires gone <= ExpiredSet(was, before)
    requires ids <= ExpiredSet(Remove(was, gone), before)
    requires |ids| == Min(size, |ExpiredSet(Remove(was, gone), before)|)
    ensures gone + ids <= ExpiredSet(was, before) && |gone + ids| == |gone| + |ids|
    ensures Remove(Remove(was, gone), ids) == Remove(was, gone + ids)
    ensures |ids| < size ==> gone + ids == ExpiredSet(was, before)
  {
    RemoveKeepsEligibility(was, gone, before);
    RemoveTwice(was, gone, ids);
    BatchSets(ExpiredSet(was, before), gone, ids, size);
  }

  /** A sweep stops because everything eligible is gone, or because it used up its batches. */
  lemma SweepTotal(gone: set<SubmissionId>, all: set<SubmissionId>, removed: nat, size: nat, batches: nat)
    requires gone <= all && removed == |gone|
    requires removed == Capacity(size, batches) || (gone == all && removed <= Capacity(size, batches))
    ensures removed == Min(|all|, Capacity(size, batches))
    ensures removed < Capacity(size, batches) ==> gone == all
  {
    SubsetIsSmaller(gone, all);
  }

  /** What one request sees when it runs alone. */
  ghost function StoreOutcome(t: Tables, id: SubmissionId, row: Submission, delivery: DeliveryId,
                              webhook: Option<Webhook>): Result<StoredSubmission, StoreError>
  {
    var existing := if row.key.None? then None else FindByKey(t, row.endpoint, row.key.value);
    if existing.Some? then
      if t.submissions[existing.value].fingerprint == row.fingerprint
      then Ok(StoredSubmission(t.submissions[existing.value], existing.value, true, OwesDelivery(t, existing.value)))
      else Err(IdempotencyKeyReused)
    else if Insertable(t, id, row, delivery, webhook) then Ok(StoredSubmission(row, id, false, webhook.Some?))
    else Err(IntegrityError)
  }

  ghost function CommitOutcome(t: Tables, id: SubmissionId, row: Submission, delivery: DeliveryId,
                               webhook: Option<Webhook>): Result<StoredSubmission, StoreError>
  {
    if Insertable(t, id, row, delivery, webhook) then Ok(StoredSubmission(row, id, false, webhook.Some?))
    else if row.key.None? then Err(IntegrityError)
    else
      match FindByKey(t, row.endpoint, row.key.value)
      case None => Err(IntegrityError)
      case Some(existing) =>
        if t.submissions[existing].fingerprint == row.fingerprint
        then Ok(StoredSubmission(t.submissions[existing], existing, true, OwesDelivery(t, existing)))
        else Err(IdempotencyKeyReused)
  }

  // ---------------------------------------------------------------- claiming a batch

  /** `ids` is the ordered front of `due` and `rest` is what is left of it. */
  ghost predicate Selected(deliveries: Deliveries, due: set<DeliveryId>, rest: set<DeliveryId>, ids: seq<DeliveryId>) {
    && due <= deliveries.Keys && rest <= due
    && (forall i | 0 <= i < |ids| :: ids[i] in due && ids[i] !in rest)
    && (forall d | d in due :: d in ids || d in rest)
    && (forall i, j | 0 <= i < j < |ids| ::
          ids[i] != ids[j] && deliveries[ids[i]].nextAttemptAt <= deliveries[ids[j]].nextAttemptAt)
    && (forall i, d | 0 <= i < |ids| && d in rest :: deliveries[ids[i]].nextAttemptAt <= deliveries[d].nextAttemptAt)
  }

  lemma SelectOneMore(deliveries: Deliveries, due: set<DeliveryId>, rest: set<DeliveryId>, ids: seq<DeliveryId>,
                      next: DeliveryId)
    requires Selected(deliveries, due, rest, ids) && next in rest
    requires forall d | d in rest :: deliveries[next].nextAttemptAt <= deliveries[d].nextAttemptAt
    ensures Selected(deliveries, due, rest - {next}, ids + [next])
  {
    var after := ids + [next];
    forall d | d in due ensures d in after || d in rest - {next} {
      if d in ids {
        var i :| 0 <= i < |ids| && ids[i] == d;
        assert after[i] == d;
      } else if d == next {
        assert after[|ids|] == d;
      }
    }
  }

  function Ids(jobs: seq<Job>): seq<DeliveryId> {
    seq(|jobs|, i requires 0 <= i < |jobs| => jobs[i].delivery)
  }

  predicate DistinctDue(t: Tables, ids: seq<DeliveryId>, now: Instant) {
    && (forall i | 0 <= i < |ids| :: Claimable(t, ids[i], now))
    && (forall i, j | 0 <= i < j < |ids| :: ids[i] != ids[j])
  }

  /** One conditional update per candidate, in order. */
  function ClaimAll(t: Tables, ids: seq<DeliveryId>, now: Instant, lease: Seconds, tokens: seq<ClaimToken>): Tables
    requires |ids| <= |tokens|
    decreases |ids|
  {
    if ids == [] then t
    else
      var last := |ids| - 1;
      Claim(ClaimAll(t, ids[..last], now, lease, tokens), ids[last], now, lease, tokens[last])
  }

  lemma {:induction false} ClaimAllRows(t: Tables, ids: seq<DeliveryId>, now: Instant, lease: Seconds,
                                        tokens: seq<ClaimToken>)
    requires |ids| <= |tokens| && DistinctDue(t, ids, now)
    ensures var u := ClaimAll(t, ids, now, lease, tokens);
            && u == t.(deliveries := u.deliveries)
            && u.deliveries.Keys == t.deliveries.Keys
            && (forall i | 0 <= i < |ids| ::
              u.deliveries[ids[i]] == ClaimedRow(t.deliveries[ids[i]], now + lease, tokens[i]))
            && (forall d | d in t.deliveries && d !in ids :: u.deliveries[d] == t.deliveries[d])
    decreases |ids|
  {
    if ids != [] {
      var last := |ids| - 1;
      ClaimAllRows(t, ids[..last], now, lease, tokens);
      assert ids[last] !in ids[..last];
      forall d | d !in ids ensures d !in ids[..last] {
      }
    }
  }

  /** The next candidate is still due as it was selected, whatever was claimed before it. */
  lemma NextIsClaimable(t: Tables, ids: seq<DeliveryId>, i: nat, now: Instant, lease: Seconds, tokens: seq<ClaimToken>)
    requires i < |ids| <= |tokens| && DistinctDue(t, ids, now)
    ensures var u := ClaimAll(t, ids[..i], now, lease, tokens);
            && Claimable(u, ids[i], now) && u.deliveries[ids[i]] == t.deliveries[ids[i]]
            && ClaimAll(t, ids[..i + 1], now, lease, tokens) == Claim(u, ids[i], now, lease, tokens[i])
  {
    ClaimAllRows(t, ids[..i], now, lease, tokens);
    assert ids[..i + 1][..i] == ids[..i];
  }

  class Database {
    var submissions: Submissions
    var deliveries: Deliveries
    var attempts: Attempts

    ghost function Tables(): Tables
      reads this
    {
      Models.Tables(submissions, deliveries, attempts)
    }

    constructor ()
      ensures Tables() == EMPTY_TABLES
    {
      submissions, deliveries, attempts := map[], map[], map[];
    }

    // -------------------------------------------------------------- storing

    method FindByIdempotencyKey(endpoint: EndpointId, key: string) returns (found: Option<SubmissionId>)
      requires ConstraintsHold(Tables())
      ensures found == FindByKey(Tables(), endpoint, key)
    {
      if s :| s in submissions && submissions[s].endpoint == endpoint && submissions[s].key == Some(key) {
        assert forall r | r in submissions && SameKey(submissions[r], submissions[s]) :: r == s;
        found := Some(s);
      } else {
        found := None;
      }
    }

    /** The branch a conflict takes: the earlier submission when the content matches, a refusal when it does not. */
    method Replayed(existing: SubmissionId, fingerprint: Option<string>)
      returns (r: Result<StoredSubmission, StoreError>)
      requires existing in submissions
      ensures r == if submissions[existing].fingerprint == fingerprint
                   then Ok(StoredSubmission(submissions[existing], existing, true, OwesDelivery(Tables(), existing)))
                   else Err(IdempotencyKeyReused)
    {
      if submissions[existing].fingerprint != fingerprint {
        return Err(IdempotencyKeyReused);
      }
      var owed := exists d :: d in deliveries && deliveries[d].submission == Some(existing);
      r := Ok(StoredSubmission(submissions[existing], existing, true, owed));
    }

    /** The commit: the submission and its delivery together, or a violation and nothing. */
    method CommitSubmission(id: SubmissionId, row: Submission, delivery: DeliveryId, webhook: Option<Webhook>,
                            now: Instant)
      returns (accepted: bool)
      requires ConstraintsHold(Tables())
      modifies this
      ensures accepted == Insertable(old(Tables()), id, row, delivery, webhook)
      ensures Tables() == if accepted then Insert(old(Tables()), id, row, delivery, webhook, now) else old(Tables())
    {
      var keyFree := forall s | s in submissions :: !SameKey(submissions[s], row);
      var linkFree := forall d | d in deliveries :: deliveries[d].submission != Some(id);
      accepted := id !in submissions && (row.key.Some? <==> row.fingerprint.Some?) && keyFree
                  && (webhook.Some? ==> (delivery !in deliveries && linkFree));
      if accepted {
        submissions := submissions[id := row];
        if webhook.Some? {
          deliveries := deliveries[delivery := NewDelivery(id, row, webhook.value, now)];
        }
      }
    }

    /** The commit and what follows a violation of it, whatever other requests committed since the lookup. */
    method CommitOrResolve(id: SubmissionId, row: Submission, delivery: DeliveryId, webhook: Option<Webhook>,
                           now: Instant)
      returns (r: Result<StoredSubmission, StoreError>)
      requires ConstraintsHold(Tables())
      modifies this
      ensures r == CommitOutcome(old(Tables()), id, row, delivery, webhook)
      ensures Tables() == if Insertable(old(Tables()), id, row, delivery, webhook)
                          then Insert(old(Tables()), id, row, delivery, webhook, now) else old(Tables())
      ensures r.Ok? ==> r.value.id in submissions && r.value.submission == submissions[r.value.id]
      ensures r.Ok? && r.value.replayed ==>
                && r.value.id in old(submissions) && SameKey(old(submissions)[r.value.id], row)
                && old(submissions)[r.value.id].fingerprint == row.fingerprint
                && (r.value.deliveryQueued <==>
                      exists d :: d in deliveries && deliveries[d].submission == Some(r.value.id))
      ensures r.Ok? && !r.value.replayed ==>
                && r.value.id == id && id !in old(submissions) && submissions[id] == row
                && r.value.deliveryQueued == webhook.Some?
      ensures forall s | s in old(submissions) && SameKey(old(submissions)[s], row) ::
                if old(submissions)[s].fingerprint == row.fingerprint then r.Ok? && r.value.replayed && r.value.id == s
                else r == Err(IdempotencyKeyReused)
      ensures r.Err? && r.error.IdempotencyKeyReused? ==>
                exists s :: s in old(submissions) && SameKey(old(submissions)[s], row)
                            && old(submissions)[s].fingerprint != row.fingerprint
    {
      var accepted := CommitSubmission(id, row, delivery, webhook, now);
      if accepted {
        return Ok(StoredSubmission(row, id, false, webhook.Some?));
      }
      if row.key.Some? {
        var existing := FindByIdempotencyKey(row.endpoint, row.key.value);
        if existing.Some? {
          r := Replayed(existing.value, row.fingerprint);
          return;
        }
      }
      r := Err(IntegrityError);
    }

    /** Stores a submission and the obligation to deliver it, or resolves to an earlier one. */
    method StoreSubmission(id: SubmissionId, row: Submission, delivery: DeliveryId, webhook: Option<Webhook>,
                           now: Instant)
      returns (r: Result<StoredSubmission, StoreError>)
      requires ConstraintsHold(Tables())
      modifies this
      ensures r == StoreOutcome(old(Tables()), id, row, delivery, webhook)
      ensures Tables() == if r.Ok? && !r.value.replayed
                          then Insert(old(Tables()), id, row, delivery, webhook, now) else old(Tables())
      ensures r.Ok? ==> r.value.id in submissions && r.value.submission == submissions[r.value.id]
      ensures r.Ok? && r.value.replayed ==>
                && r.value.id in old(submissions) && SameKey(old(submissions)[r.value.id], row)
                && old(submissions)[r.value.id].fingerprint == row.fingerprint
                && (r.value.deliveryQueued <==>
                      exists d :: d in deliveries && deliveries[d].submission == Some(r.value.id))
      ensures r.Ok? && !r.value.replayed ==>
                && r.value.id == id && id !in old(submissions) && submissions[id] == row
                && r.value.deliveryQueued == webhook.Some?
      ensures forall s | s in old(submissions) && SameKey(old(submissions)[s], row) ::
                if old(submissions)[s].fingerprint == row.fingerprint then r.Ok? && r.value.replayed && r.value.id == s
                else r == Err(IdempotencyKeyReused)
      ensures r.Err? && r.error.IdempotencyKeyReused? ==>
                exists s :: s in old(submissions) && SameKey(old(submissions)[s], row)
                            && old(submissions)[s].fingerprint != row.fingerprint
    {
      if row.key.Some? {
        var existing := FindByIdempotencyKey(row.endpoint, row.key.value);
        if existing.Some? {
          r := Replayed(existing.value, row.fingerprint);
          return;
        }
      }
      r := CommitOrResolve(id, row, delivery, webhook, now);
    }

    // -------------------------------------------------------------- claiming

    /** The due deliveries in order of their due time, at most `limit` of them. */
    method SelectDue(now: Instant, limit: nat) returns (ids: seq<DeliveryId>)
      ensures |ids| == Min(limit, |DueSet(Tables(), now)|)
      ensures forall i | 0 <= i < |ids| :: ids[i] in DueSet(Tables(), now)
      ensures forall i, j | 0 <= i < j < |ids| ::
                ids[i] != ids[j] && deliveries[ids[i]].nextAttemptAt <= deliveries[ids[j]].nextAttemptAt
      ensures forall i, d | 0 <= i < |ids| && d in DueSet(Tables(), now) && d !in ids ::
                deliveries[ids[i]].nextAttemptAt <= deliveries[d].nextAttemptAt
    {
      var due := set d | d in deliveries && Due(deliveries[d], now);
      var rest := due;
      ids := [];
      while |ids| < limit && rest != {}
        invariant due == DueSet(Tables(), now) && rest <= due
        invariant |ids| <= limit && |ids| + |rest| == |due|
        invariant Selected(deliveries, due, rest, ids)
        decreases limit - |ids|
      {
        var next := Earliest(rest);
        SelectOneMore(deliveries, due, rest, ids, next);
        ids := ids + [next];
        rest := rest - {next};
      }
    }

    method Earliest(ids: set<DeliveryId>) returns (first: DeliveryId)
      requires ids != {} && ids <= deliveries.Keys
      ensures first in ids && forall d | d in ids :: deliveries[first].nextAttemptAt <= deliveries[d].nextAttemptAt
    {
      first :| first in ids;
      var rest := ids - {first};
      while rest != {}
        invariant first in ids && rest <= ids
        invariant forall d | d in ids - rest :: deliveries[first].nextAttemptAt <= deliveries[d].nextAttemptAt
        decreases |rest|
      {
        var d :| d in rest;
        if deliveries[d].nextAttemptAt < deliveries[first].nextAttemptAt {
          first := d;
        }
        rest := rest - {d};
      }
    }

    /** Takes ownership of up to `limit` due deliveries, the earliest due first, each under a token of its own. */
    method ClaimDueDeliveries(now: Instant, lease: Seconds, limit: nat, tokens: seq<ClaimToken>)
      returns (claimed: seq<Job>)
      requires |tokens| >= limit
      modifies this`deliveries
      ensures |claimed| == Min(limit, |DueSet(old(Tables()), now)|)
      ensures DistinctDue(old(Tables()), Ids(claimed), now)
      ensures forall i, d | 0 <= i < |claimed| && d in DueSet(old(Tables()), now) && d !in Ids(claimed) ::
                old(deliveries)[Ids(claimed)[i]].nextAttemptAt <= old(deliveries)[d].nextAttemptAt
      ensures Tables() == ClaimAll(old(Tables()), Ids(claimed), now, lease, tokens)
      ensures forall i | 0 <= i < |claimed| ::
                claimed[i]
                == Loaded(Ids(claimed)[i], ClaimedRow(old(deliveries)[Ids(claimed)[i]], now + lease, tokens[i]))
    {
      var candidates := SelectDue(now, limit);
      claimed := ClaimCandidates(candidates, now, lease, tokens);
    }

    /** The conditional updates, one per candidate in order. */
    method ClaimCandidates(candidates: seq<DeliveryId>, now: Instant, lease: Seconds, tokens: seq<ClaimToken>)
      returns (claimed: seq<Job>)
      requires |tokens| >= |candidates| && DistinctDue(Tables(), candidates, now)
      modifies this`deliveries
      ensures Ids(claimed) == candidates
      ensures Tables() == ClaimAll(old(Tables()), candidates, now, lease, tokens)
      ensures forall k | 0 <= k < |claimed| ::
              claimed[k] == Loaded(candidates[k], ClaimedRow(old(deliveries)[candidates[k]], now + lease, tokens[k]))
    {
      claimed := [];
      for i := 0 to |candidates|
        invariant Ids(claimed) == candidates[..i]
        invariant Tables() == ClaimAll(old(Tables()), candidates[..i], now, lease, tokens)
        invariant forall k | 0 <= k < i ::
            claimed[k] == Loaded(candidates[k], ClaimedRow(old(deliveries)[candidates[k]], now + lease, tokens[k]))
      {
        NextIsClaimable(old(Tables()), candidates, i, now, lease, tokens);
        var job := ClaimOne(candidates[i], now, lease, tokens[i]);
        if job.Some? {
          claimed := claimed + [job.value];
        }
      }
      assert candidates[..|candidates|] == candidates;
    }

    /** UPDATE ... WHERE id = ? AND still due, then a refresh of the row if it matched. */
    method ClaimOne(id: DeliveryId, now: Instant, lease: Seconds, token: ClaimToken) returns (job: Option<Job>)
      modifies this`deliveries
      ensures Tables() == Claim(old(Tables()), id, now, lease, token)
      ensures job.Some? <==>
                && id in old(deliveries) && old(deliveries)[id].submission.Some?
                && (|| (old(deliveries)[id].state.Pending? && old(deliveries)[id].nextAttemptAt <= now)
                    || (old(deliveries)[id].state.Processing? && old(deliveries)[id].leaseEndsAt.Some?
                        && old(deliveries)[id].leaseEndsAt.value <= now))
      ensures job.Some? ==> job.value == Loaded(id, ClaimedRow(old(deliveries)[id], now + lease, token))
    {
      job := None;
      if id in deliveries && Due(deliveries[id], now) {
        deliveries := deliveries[id := ClaimedRow(deliveries[id], now + lease, token)];
        job := Some(Loaded(id, deliveries[id]));
      }
    }

    /** The submission each claimed delivery carries, or nothing when one of them is missing. */
    method LoadSubmissions(jobs: seq<Job>) returns (loaded: Option<map<DeliveryId, Submission>>)
      ensures loaded.Some? <==> forall i | 0 <= i < |jobs| :: Resolves(jobs[i].submission, submissions)
      ensures loaded.Some? ==> forall i | 0 <= i < |jobs| && jobs[i].submission.Some? ::
              jobs[i].delivery in loaded.value
      ensures loaded.Some? ==> forall d | d in loaded.value ::
                exists i :: 0 <= i < |jobs| && jobs[i].delivery == d && jobs[i].submission.Some?
                            && jobs[i].submission.value in submissions
                            && loaded.value[d] == submissions[jobs[i].submission.value]
    {
      var rows: map<DeliveryId, Submission> := map[];
      for i := 0 to |jobs|
        invariant forall k | 0 <= k < i :: Resolves(jobs[k].submission, submissions)
        invariant forall k | 0 <= k < i && jobs[k].submission.Some? :: jobs[k].delivery in rows
        invariant forall d | d in rows ::
                    exists k :: 0 <= k < i && jobs[k].delivery == d && jobs[k].submission.Some?
                                && jobs[k].submission.value in submissions
                                && rows[d] == submissions[jobs[k].submission.value]
      {
        if jobs[i].submission.Some? {
          if jobs[i].submission.value !in submissions {
            return None;
          }
          rows := rows[jobs[i].delivery := submissions[jobs[i].submission.value]];
        }
      }
      loaded := Some(rows);
    }

    // -------------------------------------------------------------- completing

    /** Records one outbound request and, if the claim still holds, moves the delivery on. */
    method CompleteAttempt(job: Job, result: DeliveryResult, now: Instant, policy: RetryPolicy,
                           presented: Option<ClaimToken>, id: AttemptId)
      returns (r: Option<CompletedAttempt>)
      modifies this`deliveries, this`attempts
      ensures Tables() == Complete(old(Tables()), job, presented, id, result, now, policy)
      ensures r.Some? <==> Recordable(old(Tables()), job, id)
      ensures r.Some? ==>
                && r.value.attempt == attempts[id]
                && r.value.state == deliveries[job.delivery].state
                && r.value.owned == (presented.Some? && old(deliveries)[job.delivery].token == presented)
      ensures r.Some? && r.value.owned ==>
                var row := deliveries[job.delivery];
                var left := old(deliveries)[job.delivery].cycleAttempts + 1 < policy.maxAttempts;
                match result.outcome
                case Succeeded => row.state.Delivered?
                case TimedOut => row.state == if left then Pending else Failed
                case NetworkError => row.state == if left then Pending else Failed
                case HttpError =>
                  row.state == if left && result.responseStatus.Some?
                                  && (result.responseStatus.value >= 500 || result.responseStatus.value == 408
                                      || result.responseStatus.value == 425 || result.responseStatus.value == 429)
                               then Pending else Failed
    {
      if job.delivery !in deliveries || id in attempts
          || (job.submission.Some? && job.submission.value !in submissions) {
        return None;
      }
      var current := deliveries[job.delivery];
      var owned := presented.Some? && current.token == presented;
      var number := current.attempts + 1;
      var attempt := Attempt(job.delivery, job.submission, number, job.webhook.url, now, result);
      attempts := attempts[id := attempt];

      var row := current.(attempts := number);
      if owned {
        var cycle := current.cycleAttempts + 1;
        row := row.(cycleAttempts := cycle, leaseEndsAt := None, token := None);
        if result.outcome.Succeeded? {
          row := row.(state := Delivered, completedAt := Some(now));
        } else if IsRetryable(result) && !policy.IsExhausted(cycle) {
          row := row.(state := Pending, nextAttemptAt := now + policy.DelayAfter(cycle));
        } else {
          row := row.(state := Failed, completedAt := Some(now));
        }
      }
      deliveries := deliveries[job.delivery := row];
      r := Some(CompletedAttempt(attempt, row.state, owned));
    }

    // -------------------------------------------------------------- replaying

    /** Puts a failed delivery back in the queue; the loser of two replays reads what the winner made. */
    method RequeueFailedDelivery(id: DeliveryId, now: Instant) returns (outcome: ReplayOutcome)
      modifies this`deliveries
      ensures Tables() == Requeue(old(Tables()), id, now)
      ensures outcome.requeued <==>
                id in old(deliveries) && old(deliveries)[id].state.Failed? && old(deliveries)[id].submission.Some?
      ensures outcome.record == if id in deliveries then Some(deliveries[id]) else None
    {
      var matched := id in deliveries && deliveries[id].state.Failed? && deliveries[id].submission.Some?;
      if matched {
        deliveries := deliveries[id := deliveries[id].(state := Pending, cycleAttempts := 0, nextAttemptAt := now,
                                                       leaseEndsAt := None, token := None, completedAt := None)];
      }
      outcome := ReplayOutcome(if id in deliveries then Some(deliveries[id]) else None, matched);
    }

    // -------------------------------------------------------------- retention

    /** Up to `limit` eligible identifiers, in no promised order. */
    method SelectExpired(before: Instant, limit: nat) returns (ids: set<SubmissionId>)
      ensures ids <= ExpiredSet(Tables(), before)
      ensures |ids| == Min(limit, |ExpiredSet(Tables(), before)|)
    {
      var eligible := set s | s in submissions && Expired(submissions, deliveries, s, before);
      ids := {};
      while |ids| < limit && ids != eligible
        invariant eligible == ExpiredSet(Tables(), before)
        invariant ids <= eligible && |ids| <= limit && |ids| <= |eligible|
        decreases limit - |ids|
      {
        SubsetIsSmaller(ids, eligible);
        assert eligible - ids != {};
        var s :| s in eligible - ids;
        SubsetIsSmaller(ids + {s}, eligible);
        ids := ids + {s};
      }
      SubsetIsSmaller(ids, eligible);
    }

    /** DELETE by primary key; both foreign keys are set to null. */
    method DeleteSubmissions(ids: set<SubmissionId>) returns (rowcount: nat)
      modifies this
      ensures Tables() == Remove(old(Tables()), ids)
      ensures rowcount == |old(submissions).Keys * ids|
    {
      rowcount := |submissions.Keys * ids|;
      submissions := submissions - ids;
      deliveries := map d | d in deliveries :: deliveries[d].(submission := Unlink(deliveries[d].submission, ids));
      attempts := map a | a in attempts :: attempts[a].(submission := Unlink(attempts[a].submission, ids));
    }

    /** One committed batch: read the identifiers, then delete by identifier. */
    method SweepBatch(before: Instant, batchSize: nat) returns (read: nat, rowcount: nat, ghost ids: set<SubmissionId>)
      modifies this
      ensures ids <= ExpiredSet(old(Tables()), before)
      ensures read == |ids| == Min(batchSize, |ExpiredSet(old(Tables()), before)|)
      ensures rowcount == |ids|
      ensures Tables() == Remove(old(Tables()), ids)
    {
      ids := {};
      RemoveNothing(Tables());
      var found := SelectExpired(before, batchSize);
      if found == {} {
        return 0, 0, {};
      }
      rowcount := DeleteSubmissions(found);
      assert old(submissions).Keys * found == found;
      read, ids := |found|, found;
    }

    /** Deletes eligible submissions in committed batches until none are left or the ceiling is reached. */
    method DeleteExpiredSubmissions(before: Instant, batchSize: nat, maxBatches: nat)
      returns (removed: nat, ghost gone: set<SubmissionId>)
      modifies this
      ensures removed == Min(|ExpiredSet(old(Tables()), before)|, batchSize * maxBatches)
      ensures removed == |gone| && gone <= ExpiredSet(old(Tables()), before)
      ensures Tables() == Remove(old(Tables()), gone)
      ensures removed < batchSize * maxBatches ==> gone == ExpiredSet(old(Tables()), before)
    {
      removed := 0;
      gone := {};
      ghost var was := Tables();
      ghost var all := ExpiredSet(was, before);
      RemoveNothing(was);
      for i := 0 to maxBatches
        invariant gone <= all && removed == |gone| == Capacity(batchSize, i)
        invariant Tables() == Remove(was, gone)
      {
        ghost var ids;
        var read, rowcount;
        read, rowcount, ids := SweepBatch(before, batchSize);
        BatchExtendsSweep(was, gone, ids, before, batchSize);
        CapacityGrows(batchSize, i + 1, maxBatches);
        gone := gone + ids;
        removed := removed + rowcount;
        if read == 0 || read < batchSize {
          break;
        }
      }
      CapacityIsProduct(batchSize, maxBatches);
      SweepTotal(gone, all, removed, batchSize, maxBatches);
    }
  }
}
