/** store_submission under concurrency: every retry is answered as if the requests had run one after another. */
module Idempotency {
  import opened Prelude
  import opened Webhooks
  import opened Models
  import opened Operations
  import opened Protocol
  import opened Invariants
  import opened Preservation
  import opened Ingestion

  /** Nothing carrying this row's endpoint and key has been deleted. */
  ghost predicate Unswept(w: World, row: Submission) {
    forall s | Matches(w.archive, s, row) :: s in w.tables.submissions
  }

  /** What a request is told when the submission `winner` holds its key. */
  function Verdict(requests: Requests, winner: SubmissionId, id: SubmissionId): Reply
    requires winner in requests && id in requests
  {
    if id == winner then Stored(winner, false, requests[winner].webhook.Some?)
    else if requests[id].row.fingerprint == requests[winner].row.fingerprint
    then Stored(winner, true, requests[winner].webhook.Some?)
    else KeyReused(winner)
  }

  /** The submission that holds a key: its request committed it, and carries the same key. */
  predicate Holder(w: World, s: SubmissionId, row: Submission) {
    && s in w.tables.submissions && s in w.requests
    && w.requests[s].row == w.tables.submissions[s]
    && SameKey(w.tables.submissions[s], row)
    && Won(w.requests[s], s)
  }

  lemma HolderIsUnique(w: World, a: SubmissionId, b: SubmissionId, row: Submission)
    requires StoreInv(w) && Holder(w, a, row) && Holder(w, b, row)
    ensures a == b
  {
  }

  lemma MatchIsHolder(w: World, s: SubmissionId, row: Submission)
    requires StoreInv(w) && Unswept(w, row) && Matches(w.archive, s, row)
    ensures Holder(w, s, row)
  {
  }

  /** A settled request names the holder of its key, and is told what that holder's existence means for it. */
  lemma SettledRequestNamesHolder(w: World, id: SubmissionId) returns (winner: SubmissionId)
    requires StoreInv(w) && id in w.requests && w.requests[id].stage.Done?
    requires w.requests[id].row.key.Some? && Unswept(w, w.requests[id].row)
    ensures Holder(w, winner, w.requests[id].row)
    ensures w.requests[id].stage.reply == Verdict(w.requests, winner, id)
  {
    var r := w.requests[id];
    assert StageOk(r, id, w.tables.submissions, w.archive, w.requests);
    match r.stage.reply
    case Stored(s, _, _) =>
      winner := s;
      MatchIsHolder(w, s, r.row);
    case KeyReused(s) =>
      winner := s;
      MatchIsHolder(w, s, r.row);
    case StorageError =>
      winner := id;
      assert false;
  }

  /**
   * Linearizable ingestion. In every reachable state in which nothing carrying a key was swept, any
   * two settled requests on that key agree on one holder: it is the one stored submission with the
   * key, exactly its own request was answered "not a replay", every request with the same content
   * was answered with its identifier and its queued state, and every other content was refused.
   */
  lemma RetriesResolveToOneSubmission(policy: RetryPolicy, es: seq<Event>, a: SubmissionId, b: SubmissionId)
    returns (winner: SubmissionId)
    requires policy.Valid() && LegalRun(Init(policy), es)
    requires var w := Exec(Init(policy), es);
             && a in w.requests && b in w.requests
             && SameKey(w.requests[a].row, w.requests[b].row)
             && w.requests[a].stage.Done? && w.requests[b].stage.Done?
             && Unswept(w, w.requests[a].row)
    ensures var w := Exec(Init(policy), es);
            && Holder(w, winner, w.requests[a].row)
            && (forall s | s in w.tables.submissions && SameKey(w.tables.submissions[s], w.requests[a].row) ::
              s == winner)
            && w.requests[a].stage.reply == Verdict(w.requests, winner, a)
            && w.requests[b].stage.reply == Verdict(w.requests, winner, b)
  {
    InitHolds(policy);
    RunHolds(Init(policy), es);
    var w := Exec(Init(policy), es);
    winner := SettledRequestNamesHolder(w, a);
    assert forall s :: Matches(w.archive, s, w.requests[b].row) <==> Matches(w.archive, s, w.requests[a].row);
    var other := SettledRequestNamesHolder(w, b);
    HolderIsUnique(w, winner, other, w.requests[a].row);
  }

  /** Every keyed request's fingerprint is the digest of its own canonical form, and no two of these forms collide. */
  ghost predicate FingerprintsAreDigests(requests: Requests, digest: string -> string) {
    && (forall r | r in requests && requests[r].row.key.Some? ::
          requests[r].row.fingerprint == Some(digest(Canonical(requests[r].row.fields))))
    && (forall a, b | a in requests && b in requests ::
          digest(Canonical(requests[a].row.fields)) == digest(Canonical(requests[b].row.fields))
          ==> Canonical(requests[a].row.fields) == Canonical(requests[b].row.fields))
  }

  /** Short of a digest collision, what decides a retry is the submitted content itself, and nothing else. */
  lemma ContentDecidesTheRetry(policy: RetryPolicy, es: seq<Event>, id: SubmissionId, digest: string -> string)
    returns (winner: SubmissionId)
    requires policy.Valid() && LegalRun(Init(policy), es)
    requires var w := Exec(Init(policy), es);
             && id in w.requests && w.requests[id].stage.Done? && w.requests[id].row.key.Some?
             && Unswept(w, w.requests[id].row) && FingerprintsAreDigests(w.requests, digest)
    ensures var w := Exec(Init(policy), es);
            && Holder(w, winner, w.requests[id].row)
            && (w.requests[id].stage.reply == KeyReused(winner)
              <==> w.requests[id].row.fields != w.tables.submissions[winner].fields)
            && (w.requests[id].stage.reply.Stored? ==> w.requests[id].stage.reply.id == winner)
  {
    InitHolds(policy);
    RunHolds(Init(policy), es);
    var w := Exec(Init(policy), es);
    winner := SettledRequestNamesHolder(w, id);
    CanonicalIsInjective(w.requests[id].row.fields, w.requests[winner].row.fields);
  }

  /** A submission owes a delivery iff its request carried a webhook, and never two. */
  lemma OneDeliveryPerSubmission(w: World, s: SubmissionId)
    requires Inv(w) && s in w.tables.submissions
    ensures s in w.requests
    ensures forall d | d in w.tables.deliveries ::
              w.tables.deliveries[d].submission == Some(s) <==>
                w.requests[s].webhook.Some? && d == w.requests[s].delivery
  {
    assert s in w.archive;
    forall d | d in w.tables.deliveries && w.tables.deliveries[d].submission == Some(s)
      ensures w.requests[s].webhook.Some? && d == w.requests[s].delivery
    {
      assert LinkOk(w.tables.deliveries[d], d, w.tables.submissions, w.requests);
    }
  }

  lemma LookUpNeverWins(w: World, id: SubmissionId, unused: Stage)
    requires id in w.requests && w.requests[id].row.key.Some? && !Won(w.requests[id].(stage := unused), id)
    ensures id in LookUp(w, id, unused).requests && !Won(LookUp(w, id, unused).requests[id], id)
  {
  }

  lemma WonByCommitting(w: World, id: SubmissionId)
    requires id in w.requests && !w.requests[id].stage.Done?
    requires id in AdvanceRequest(w, id).requests && Won(AdvanceRequest(w, id).requests[id], id)
    ensures var r := w.requests[id];
            && Insertable(w.tables, id, r.row, r.delivery, r.webhook)
            && AdvanceRequest(w, id).tables == Insert(w.tables, id, r.row, r.delivery, r.webhook, r.row.receivedAt)
  {
    var r := w.requests[id];
    match r.stage
    case Arrived => if r.row.key.Some? { LookUpNeverWins(w, id, Missed); }
    case Collided => if r.row.key.Some? { LookUpNeverWins(w, id, Done(StorageError)); }
    case _ =>
  }

  /**
   * The answer and the obligation are one step: accepting a submission queues its delivery, due from the moment it was
   * received.
   */
  lemma AcceptedMeansQueued(w: World, id: SubmissionId)
    requires id in w.requests && !w.requests[id].stage.Done?
    requires id in AdvanceRequest(w, id).requests && Won(AdvanceRequest(w, id).requests[id], id)
    ensures var r := w.requests[id];
            var t := AdvanceRequest(w, id).tables;
            && id !in w.tables.submissions && id in t.submissions && t.submissions[id] == r.row
            && (r.webhook.None? ==> t.deliveries == w.tables.deliveries)
            && (r.webhook.Some? ==>
                  && r.delivery !in w.tables.deliveries && r.delivery in t.deliveries
                  && t.deliveries[r.delivery].submission == Some(id)
                  && t.deliveries[r.delivery].webhook == r.webhook.value
                  && t.deliveries[r.delivery].endpoint == r.row.endpoint
                  && forall now :: Claimable(t, r.delivery, now) <==> now >= r.row.receivedAt)
  {
    WonByCommitting(w, id);
  }

  /** A request that was not told it stored its submission stored nothing at all. */
  lemma LosersLeaveNothing(w: World, id: SubmissionId)
    requires Inv(w) && id in w.requests && !Won(w.requests[id], id)
    ensures id !in w.tables.submissions && w.requests[id].delivery !in w.tables.deliveries
    ensures forall d | d in w.tables.deliveries :: w.tables.deliveries[d].submission != Some(id)
  {
    assert id !in w.archive;
    forall d | d in w.tables.deliveries ensures w.tables.deliveries[d].submission != Some(id) {
      assert LinkOk(w.tables.deliveries[d], d, w.tables.submissions, w.requests);
    }
  }

  /** A request sent without a key always stores a submission of its own. */
  lemma KeylessRequestsAlwaysStore(w: World, id: SubmissionId)
    requires Inv(w) && id in w.requests && w.requests[id].row.key.None? && w.requests[id].stage.Done?
    ensures Won(w.requests[id], id) && id in w.archive
  {
    assert StageOk(w.requests[id], id, w.tables.submissions, w.archive, w.requests);
  }

  /** "The same id for every retry" is exact: sweeping the row frees its key, and a retry then stores anew. */
  lemma SweepFreesTheKey(w: World, id: SubmissionId, other: SubmissionId)
    requires Inv(w) && id in w.tables.submissions && other in w.requests && other != id
             && w.requests[other].stage == Missed
    requires SameKey(w.tables.submissions[id], w.requests[other].row)
    ensures var r := w.requests[other];
            && !Insertable(w.tables, other, r.row, r.delivery, r.webhook)
            && Insertable(Remove(w.tables, {id}), other, r.row, r.delivery, r.webhook)
  {
    var r := w.requests[other];
    var t := Remove(w.tables, {id});
    LosersLeaveNothing(w, other);
    forall s | s in t.submissions ensures !SameKey(t.submissions[s], r.row) {
      assert !SameKey(w.tables.submissions[s], w.tables.submissions[id]);
    }
  }

  /** How many database steps a request may still need. */
  function StepsLeft(stage: Stage): nat {
    match stage
    case Arrived => 4
    case Missed => 3
    case Collided => 2
    case Found(_) => 1
    case Done(_) => 0
  }

  /** Each step of an unanswered request brings its answer nearer. */
  lemma RequestsTerminate(w: World, id: SubmissionId)
    requires Inv(w) && id in w.requests && !w.requests[id].stage.Done?
    ensures var v := AdvanceRequest(w, id);
            id in v.requests && StepsLeft(v.requests[id].stage) < StepsLeft(w.requests[id].stage)
  {
    assert StageOk(w.requests[id], id, w.tables.submissions, w.archive, w.requests);
    AdvanceShortens(w, id);
  }

  lemma LookUpKeepsOthers(w: World, other: SubmissionId, id: SubmissionId, unused: Stage)
    requires other in w.requests && id in w.requests && other != id && w.requests[other].row.key.Some?
    ensures id in LookUp(w, other, unused).requests && LookUp(w, other, unused).requests[id] == w.requests[id]
  {
  }

  lemma OthersKeepRequest(w: World, other: SubmissionId, id: SubmissionId)
    requires other in w.requests && id in w.requests && other != id
    ensures id in AdvanceRequest(w, other).requests && AdvanceRequest(w, other).requests[id] == w.requests[id]
  {
    var r := w.requests[other];
    match r.stage
    case Arrived => if r.row.key.Some? { LookUpKeepsOthers(w, other, id, Missed); }
    case Collided => if r.row.key.Some? { LookUpKeepsOthers(w, other, id, Done(StorageError)); }
    case _ =>
  }

  /** No step of anybody else moves a request. */
  lemma OthersLeaveRequestsAlone(w: World, e: Event, id: SubmissionId)
    requires Legal(w, e) && id in w.requests && e != Advance(id)
    ensures id in Step(w, e).requests && Step(w, e).requests[id] == w.requests[id]
  {
    if e.Advance? && e.id in w.requests {
      OthersKeepRequest(w, e.id, id);
    }
  }

  lemma AnswersStand(w: World, id: SubmissionId)
    requires id in w.requests && w.requests[id].stage.Done?
    ensures AdvanceRequest(w, id) == w
  {
  }

  function CountAdvances(es: seq<Event>, id: SubmissionId): nat {
    if es == [] then 0 else (if es[0] == Advance(id) then 1 else 0) + CountAdvances(es[1..], id)
  }

  /**
   * Whatever other processes do in between, a request is answered after at most four steps of its own, and stays
   * answered.
   */
  lemma {:induction false} AnsweredWithinItsSteps(w: World, es: seq<Event>, id: SubmissionId)
    requires Inv(w) && LegalRun(w, es) && id in w.requests && CountAdvances(es, id) >= StepsLeft(w.requests[id].stage)
    ensures id in Exec(w, es).requests && Exec(w, es).requests[id].stage.Done?
    decreases |es|
  {
    if es != [] {
      StepHolds(w, es[0]);
      if es[0] != Advance(id) {
        OthersLeaveRequestsAlone(w, es[0], id);
      } else if w.requests[id].stage.Done? {
        AnswersStand(w, id);
      } else {
        RequestsTerminate(w, id);
      }
      AnsweredWithinItsSteps(Step(w, es[0]), es[1..], id);
    }
  }

  lemma LookUpDecides(w: World, id: SubmissionId, unused: Stage)
    requires id in w.requests && w.requests[id].row.key.Some?
    ensures id in LookUp(w, id, unused).requests
    ensures var stage := LookUp(w, id, unused).requests[id].stage; stage == unused || stage.Found? || stage.Done?
  {
  }

  lemma AdvanceShortens(w: World, id: SubmissionId)
    requires id in w.requests && !w.requests[id].stage.Done?
    requires w.requests[id].stage.Collided? ==> w.requests[id].row.key.Some?
    ensures var v := AdvanceRequest(w, id);
            id in v.requests && StepsLeft(v.requests[id].stage) < StepsLeft(w.requests[id].stage)
  {
    var r := w.requests[id];
    match r.stage
    case Arrived => if r.row.key.Some? { LookUpDecides(w, id, Missed); }
    case Collided => LookUpDecides(w, id, Done(StorageError));
    case _ =>
  }
}
