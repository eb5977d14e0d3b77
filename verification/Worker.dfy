/**
 * worker.py: claim a batch, send it, and record each result, and what one result's failure means for its neighbours.
 */
module Worker {
  import opened Prelude
  import opened Webhooks
  import opened Models
  import opened Operations
  import opened Protocol
  import opened Invariants
  import opened Preservation
  import opened Fencing
  import Database

  // What the outside world did to one claimed job: the result of its request, whether the database
  // could be reached to record it, whether after a failure it could be reached to reread the job for the
  // log line, and the identifier the attempt was given.
  datatype Outcome = Outcome(result: DeliveryResult, reachable: bool, rereadable: bool, attempt: AttemptId)

  predicate DistinctAttempts(outcomes: seq<Outcome>) {
    forall i, j | 0 <= i < j < |outcomes| :: outcomes[i].attempt != outcomes[j].attempt
  }

  // The tables once some results have been dealt with, whether a failure has expired the claimed objects
  // since, and whether reporting one has itself failed and ended the batch.
  datatype Recording = Recording(tables: Tables, expired: bool, aborted: bool)

  /** One result's turn: recorded under the job's own token, or rolled back, expiring what was loaded. */
  function Turn(r: Recording, job: Job, o: Outcome, now: Instant, policy: RetryPolicy): Recording {
    var presented := Presented(r.tables, job, r.expired);
    if r.aborted then r
    else if o.reachable && Recordable(r.tables, presented, o.attempt)
    then r.(tables := Record(r.tables, presented, job.token, o.attempt, o.result, now, policy))
    else Recording(r.tables, true, !o.rereadable)
  }

  /** What dealing with the first `n` results makes of the tables. */
  function RecordAll(t: Tables, jobs: seq<Job>, outcomes: seq<Outcome>, n: nat, now: Instant,
                     policy: RetryPolicy): Recording
    requires n <= |jobs| && n <= |outcomes|
  {
    if n == 0 then Recording(t, false, false)
    else Turn(RecordAll(t, jobs, outcomes, n - 1, now, policy), jobs[n - 1], outcomes[n - 1], now, policy)
  }

  lemma {:induction false} AbortedStays(t: Tables, jobs: seq<Job>, outcomes: seq<Outcome>, m: nat, n: nat, now: Instant,
                                        policy: RetryPolicy)
    requires m <= n <= |jobs| && n <= |outcomes| && RecordAll(t, jobs, outcomes, m, now, policy).aborted
    ensures RecordAll(t, jobs, outcomes, n, now, policy) == RecordAll(t, jobs, outcomes, m, now, policy)
  {
    if m < n { AbortedStays(t, jobs, outcomes, m, n - 1, now, policy); }
  }

  predicate DistinctJobs(jobs: seq<Job>) {
    forall i, j | 0 <= i < j < |jobs| :: jobs[i].delivery != jobs[j].delivery
  }

  /** A result before the i-th could not be recorded, so that every claimed object has been expired since. */
  predicate Expired(t: Tables, jobs: seq<Job>, outcomes: seq<Outcome>, i: nat)
    requires i <= |jobs| && i <= |outcomes|
    decreases i, 0
  {
    i > 0 && (Expired(t, jobs, outcomes, i - 1) || !Recorded(t, jobs, outcomes, i - 1))
  }

  /** A result before the i-th could neither be recorded nor reported, so that the i-th never got its turn. */
  predicate Aborted(t: Tables, jobs: seq<Job>, outcomes: seq<Outcome>, i: nat)
    requires i <= |jobs| && i <= |outcomes|
    decreases i, 0
  {
    i > 0 && (Aborted(t, jobs, outcomes, i - 1)
              || (!Recorded(t, jobs, outcomes, i - 1) && !outcomes[i - 1].rereadable))
  }

  /** The i-th result is recorded iff it got its turn, the database could be reached and the constraints let it in. */
  predicate Recorded(t: Tables, jobs: seq<Job>, outcomes: seq<Outcome>, i: nat)
    requires i < |jobs| && i < |outcomes|
    decreases i, 1
  {
    && !Aborted(t, jobs, outcomes, i)
    && outcomes[i].reachable
    && Recordable(t, Presented(t, jobs[i], Expired(t, jobs, outcomes, i)), outcomes[i].attempt)
  }

  predicate SameLink(a: Delivery, b: Delivery) {
    a.submission == b.submission && a.webhook == b.webhook
  }

  /** The same submissions, and the same deliveries with the same links. */
  predicate SameLinks(t: Tables, u: Tables) {
    && u.submissions == t.submissions && u.deliveries.Keys == t.deliveries.Keys
    && forall d | d in t.deliveries :: SameLink(t.deliveries[d], u.deliveries[d])
  }

  lemma RereadWhereNothingMoved(t: Tables, u: Tables, job: Job, attempt: AttemptId, reread: bool)
    requires SameLinks(t, u) && (attempt in u.attempts <==> attempt in t.attempts)
    ensures Presented(u, job, reread) == Presented(t, job, reread)
    ensures Recordable(u, Presented(u, job, reread), attempt) == Recordable(t, Presented(t, job, reread), attempt)
  {
  }

  lemma TurnKeepsLinks(t: Tables, r: Recording, job: Job, o: Outcome, now: Instant, policy: RetryPolicy)
    requires SameLinks(t, r.tables)
    ensures var u := Turn(r, job, o, now, policy).tables;
            SameLinks(t, u) && forall a | a != o.attempt :: a in u.attempts <==> a in r.tables.attempts
  {
  }

  /** Recording some results moves no link and takes no identifier of the rest, so it decides nothing for them. */
  lemma {:induction false} RecordingLeavesTheRest(t: Tables, jobs: seq<Job>, outcomes: seq<Outcome>, n: nat,
                                                  now: Instant, policy: RetryPolicy)
    requires n <= |jobs| <= |outcomes| && DistinctAttempts(outcomes)
    ensures var r := RecordAll(t, jobs, outcomes, n, now, policy);
            && r.expired == Expired(t, jobs, outcomes, n) && r.aborted == Aborted(t, jobs, outcomes, n)
            && SameLinks(t, r.tables)
            && (forall i | n <= i < |jobs| ::
                  outcomes[i].attempt in r.tables.attempts <==> outcomes[i].attempt in t.attempts)
  {
    if n > 0 {
      RecordingLeavesTheRest(t, jobs, outcomes, n - 1, now, policy);
      var r := RecordAll(t, jobs, outcomes, n - 1, now, policy);
      RereadWhereNothingMoved(t, r.tables, jobs[n - 1], outcomes[n - 1].attempt, r.expired);
      TurnKeepsLinks(t, r, jobs[n - 1], outcomes[n - 1], now, policy);
    }
  }

  /** What the i-th worker object says when its turn comes. */
  function AtItsTurn(t: Tables, jobs: seq<Job>, outcomes: seq<Outcome>, i: nat): (job: Job)
    requires i < |jobs| && i < |outcomes|
    ensures job.delivery == jobs[i].delivery && job.token == jobs[i].token
  {
    Presented(t, jobs[i], Expired(t, jobs, outcomes, i))
  }

  /** The n-th turn: its result lands under its own token, or nothing moves. */
  lemma OneMoreRecorded(t: Tables, jobs: seq<Job>, outcomes: seq<Outcome>, n: nat, now: Instant, policy: RetryPolicy)
    requires n < |jobs| <= |outcomes| && DistinctAttempts(outcomes)
    ensures var u := RecordAll(t, jobs, outcomes, n, now, policy).tables;
            var v := RecordAll(t, jobs, outcomes, n + 1, now, policy).tables;
            var (job, o) := (AtItsTurn(t, jobs, outcomes, n), outcomes[n]);
            && u.deliveries.Keys == t.deliveries.Keys
            && if !Recorded(t, jobs, outcomes, n) then v == u
               else
                 && job.delivery in u.deliveries && o.attempt !in u.attempts
                 && var row := u.deliveries[job.delivery];
                    var number := row.attempts + 1;
                    var landed := Attempt(job.delivery, job.submission, number, job.webhook.url, now, o.result);
                    && v.deliveries == u.deliveries[job.delivery := SettledRow(row, job.token, o.result, now, policy)]
                    && v.attempts == u.attempts[o.attempt := landed]
  {
    RecordingLeavesTheRest(t, jobs, outcomes, n, now, policy);
    var r := RecordAll(t, jobs, outcomes, n, now, policy);
    RereadWhereNothingMoved(t, r.tables, jobs[n], outcomes[n].attempt, r.expired);
  }

  /**
   * Which results are recorded, where every stored link resolves. Before any failure a worker presents
   * what it loaded, and its foreign key must resolve; after one it presents what its row says, and the
   * key always does. So a batch whose submissions were all swept loses its first record and keeps the rest.
   */
  lemma RecordedExactly(t: Tables, jobs: seq<Job>, outcomes: seq<Outcome>, i: nat)
    requires i < |jobs| <= |outcomes| && forall d | d in t.deliveries ::
             Resolves(t.deliveries[d].submission, t.submissions)
    ensures Recorded(t, jobs, outcomes, i) <==>
              && !Aborted(t, jobs, outcomes, i) && outcomes[i].reachable
              && jobs[i].delivery in t.deliveries && outcomes[i].attempt !in t.attempts
              && (Expired(t, jobs, outcomes, i) || Resolves(jobs[i].submission, t.submissions))
    ensures Expired(t, jobs, outcomes, i) && Recorded(t, jobs, outcomes, i) ==>
              AtItsTurn(t, jobs, outcomes, i).submission == t.deliveries[jobs[i].delivery].submission
  {
  }

  /**
   * A neighbour's failure costs a record exactly when that failure could not be reported either: a result
   * that could be recorded by itself is recorded iff every failure before it could be reread for its log line.
   */
  lemma OnlyAnUnreportedFailureCostsARecord(t: Tables, jobs: seq<Job>, outcomes: seq<Outcome>, i: nat)
    requires i < |jobs| <= |outcomes| && outcomes[i].reachable && Recordable(t, jobs[i], outcomes[i].attempt)
    requires Resolves(t.deliveries[jobs[i].delivery].submission, t.submissions)
    ensures Recorded(t, jobs, outcomes, i)
            <==> forall k | 0 <= k < i :: Recorded(t, jobs, outcomes, k) || outcomes[k].rereadable
  {
    AbortedExactly(t, jobs, outcomes, i);
  }

  lemma {:induction false} AbortedExactly(t: Tables, jobs: seq<Job>, outcomes: seq<Outcome>, i: nat)
    requires i <= |jobs| <= |outcomes|
    ensures Aborted(t, jobs, outcomes, i)
            <==> exists k :: 0 <= k < i && !Recorded(t, jobs, outcomes, k) && !outcomes[k].rereadable
  {
    if i > 0 { AbortedExactly(t, jobs, outcomes, i - 1); }
  }

  /**
   * Two claimed deliveries whose first recording fails with the database gone: the second result, recordable by itself,
   * is lost.
   */
  lemma ANeighbourCanBeLost(t: Tables, jobs: seq<Job>, outcomes: seq<Outcome>)
    requires |jobs| == |outcomes| == 2 && !outcomes[0].reachable && !outcomes[0].rereadable
    ensures !Recorded(t, jobs, outcomes, 1)
  {
    assert !Recorded(t, jobs, outcomes, 0);
  }

  /** What becomes of the row of job i: settled under the job's own token, or exactly as it was claimed. */
  function FateOf(t: Tables, jobs: seq<Job>, outcomes: seq<Outcome>, i: nat, now: Instant,
                  policy: RetryPolicy): Delivery
    requires i < |jobs| <= |outcomes| && jobs[i].delivery in t.deliveries
  {
    var row := t.deliveries[jobs[i].delivery];
    if Recorded(t, jobs, outcomes, i) then SettledRow(row, jobs[i].token, outcomes[i].result, now, policy) else row
  }

  /** The rows of the first n jobs have met their fate, and no other row has moved. */
  ghost predicate FatesMet(rows: Deliveries, t: Tables, jobs: seq<Job>, outcomes: seq<Outcome>, n: nat, now: Instant,
                           policy: RetryPolicy)
    requires n <= |jobs| <= |outcomes| && forall i | 0 <= i < |jobs| :: jobs[i].delivery in t.deliveries
  {
    && rows.Keys == t.deliveries.Keys
    && (forall i | 0 <= i < n :: rows[jobs[i].delivery] == FateOf(t, jobs, outcomes, i, now, policy))
    && (forall d | d in t.deliveries && (forall i | 0 <= i < n :: jobs[i].delivery != d) :: rows[d] == t.deliveries[d])
  }

  lemma NotYetItsTurn(rows: Deliveries, t: Tables, jobs: seq<Job>, outcomes: seq<Outcome>, n: nat, now: Instant,
                      policy: RetryPolicy)
    requires n < |jobs| <= |outcomes| && DistinctJobs(jobs)
    requires forall i | 0 <= i < |jobs| :: jobs[i].delivery in t.deliveries
    requires FatesMet(rows, t, jobs, outcomes, n, now, policy)
    ensures var d := jobs[n].delivery; d in rows && rows[d] == t.deliveries[d]
  {
    assert forall i | 0 <= i < n :: jobs[i].delivery != jobs[n].delivery;
  }

  lemma OneMoreFate(rows: Deliveries, after: Deliveries, t: Tables, jobs: seq<Job>, outcomes: seq<Outcome>, n: nat,
                    now: Instant, policy: RetryPolicy)
    requires n < |jobs| <= |outcomes| && DistinctJobs(jobs)
    requires forall i | 0 <= i < |jobs| :: jobs[i].delivery in t.deliveries
    requires FatesMet(rows, t, jobs, outcomes, n, now, policy)
    requires after == rows[jobs[n].delivery := FateOf(t, jobs, outcomes, n, now, policy)]
    ensures FatesMet(after, t, jobs, outcomes, n + 1, now, policy)
  {
    assert forall i | 0 <= i < n :: jobs[i].delivery != jobs[n].delivery;
  }

  lemma TurnMeetsFate(t: Tables, jobs: seq<Job>, outcomes: seq<Outcome>, n: nat, now: Instant, policy: RetryPolicy)
    requires n < |jobs| <= |outcomes| && DistinctAttempts(outcomes)
    requires var rows := RecordAll(t, jobs, outcomes, n, now, policy).tables.deliveries;
             var d := jobs[n].delivery; d in t.deliveries && d in rows && rows[d] == t.deliveries[d]
    ensures var rows := RecordAll(t, jobs, outcomes, n, now, policy).tables.deliveries;
            RecordAll(t, jobs, outcomes, n + 1, now, policy).tables.deliveries
            == rows[jobs[n].delivery := FateOf(t, jobs, outcomes, n, now, policy)]
  {
    OneMoreRecorded(t, jobs, outcomes, n, now, policy);
  }

  /** Each row's fate is its own result's, and nobody else's. */
  lemma {:induction false} EachRecordStandsAlone(t: Tables, jobs: seq<Job>, outcomes: seq<Outcome>, n: nat,
                                                 now: Instant, policy: RetryPolicy)
    requires n <= |jobs| <= |outcomes| && DistinctJobs(jobs) && DistinctAttempts(outcomes)
    requires forall i | 0 <= i < |jobs| :: jobs[i].delivery in t.deliveries
    ensures FatesMet(RecordAll(t, jobs, outcomes, n, now, policy).tables.deliveries, t, jobs, outcomes, n, now, policy)
  {
    if n > 0 {
      var rows := RecordAll(t, jobs, outcomes, n - 1, now, policy).tables.deliveries;
      EachRecordStandsAlone(t, jobs, outcomes, n - 1, now, policy);
      var after := RecordAll(t, jobs, outcomes, n, now, policy).tables.deliveries;
      NotYetItsTurn(rows, t, jobs, outcomes, n - 1, now, policy);
      TurnMeetsFate(t, jobs, outcomes, n - 1, now, policy);
      OneMoreFate(rows, after, t, jobs, outcomes, n - 1, now, policy);
    }
  }

  /** The history keeps what it had and gains nothing that was not recorded. */
  lemma {:induction false} OnlyRecordedAttemptsAppear(t: Tables, jobs: seq<Job>, outcomes: seq<Outcome>, n: nat,
                                                      now: Instant, policy: RetryPolicy)
    requires n <= |jobs| <= |outcomes| && DistinctJobs(jobs) && DistinctAttempts(outcomes)
    ensures var u := RecordAll(t, jobs, outcomes, n, now, policy).tables;
            && (forall a | a in t.attempts :: a in u.attempts && u.attempts[a] == t.attempts[a])
            && (forall a | a in u.attempts && a !in t.attempts ::
                  exists i :: 0 <= i < n && outcomes[i].attempt == a && Recorded(t, jobs, outcomes, i))
  {
    if n > 0 {
      OnlyRecordedAttemptsAppear(t, jobs, outcomes, n - 1, now, policy);
      OneMoreRecorded(t, jobs, outcomes, n - 1, now, policy);
    }
  }

  /**
   * The attempt a recorded result leaves: for its own delivery, with the link its worker presented and the next number.
   */
  predicate AttemptLanded(u: Tables, t: Tables, job: Job, o: Outcome, now: Instant) {
    && o.attempt in u.attempts && job.delivery in t.deliveries
    && u.attempts[o.attempt] ==
         Attempt(job.delivery, job.submission, t.deliveries[job.delivery].attempts + 1, job.webhook.url, now, o.result)
  }

  lemma RowStaysUntilItsTurn(t: Tables, jobs: seq<Job>, outcomes: seq<Outcome>, n: nat, now: Instant,
                             policy: RetryPolicy)
    requires n < |jobs| <= |outcomes| && DistinctJobs(jobs) && DistinctAttempts(outcomes)
    requires forall i | 0 <= i < |jobs| :: jobs[i].delivery in t.deliveries
    ensures var u := RecordAll(t, jobs, outcomes, n, now, policy).tables;
            jobs[n].delivery in u.deliveries && u.deliveries[jobs[n].delivery] == t.deliveries[jobs[n].delivery]
  {
    EachRecordStandsAlone(t, jobs, outcomes, n, now, policy);
  }

  lemma TurnRecordsItsAttempt(t: Tables, jobs: seq<Job>, outcomes: seq<Outcome>, n: nat, now: Instant,
                              policy: RetryPolicy)
    requires n < |jobs| <= |outcomes| && DistinctJobs(jobs) && DistinctAttempts(outcomes)
    requires forall i | 0 <= i < |jobs| :: jobs[i].delivery in t.deliveries
    ensures var u := RecordAll(t, jobs, outcomes, n, now, policy).tables;
            var v := RecordAll(t, jobs, outcomes, n + 1, now, policy).tables;
            && (forall a | a in u.attempts :: a in v.attempts && v.attempts[a] == u.attempts[a])
            && (Recorded(t, jobs, outcomes, n)
              ==> AttemptLanded(v, t, AtItsTurn(t, jobs, outcomes, n), outcomes[n], now))
  {
    RowStaysUntilItsTurn(t, jobs, outcomes, n, now, policy);
    OneMoreRecorded(t, jobs, outcomes, n, now, policy);
  }

  /** Every recorded result is in the history, numbered one past its own delivery's total. */
  lemma {:induction false} EveryRecordedAttemptAppears(t: Tables, jobs: seq<Job>, outcomes: seq<Outcome>, n: nat,
                                                       now: Instant, policy: RetryPolicy)
    requires n <= |jobs| <= |outcomes| && DistinctJobs(jobs) && DistinctAttempts(outcomes)
    requires forall i | 0 <= i < |jobs| :: jobs[i].delivery in t.deliveries
    ensures var u := RecordAll(t, jobs, outcomes, n, now, policy).tables;
            forall i | 0 <= i < n && Recorded(t, jobs, outcomes, i) ::
              AttemptLanded(u, t, AtItsTurn(t, jobs, outcomes, i), outcomes[i], now)
  {
    if n > 0 {
      EveryRecordedAttemptAppears(t, jobs, outcomes, n - 1, now, policy);
      TurnRecordsItsAttempt(t, jobs, outcomes, n - 1, now, policy);
    }
  }

  lemma ClaimedJobsAreDistinct(jobs: seq<Job>, t: Tables, now: Instant)
    requires Database.DistinctDue(t, Database.Ids(jobs), now)
    ensures DistinctJobs(jobs)
  {
    forall i, j | 0 <= i < j < |jobs| ensures jobs[i].delivery != jobs[j].delivery {
      assert Database.Ids(jobs)[i] != Database.Ids(jobs)[j];
    }
  }

  /**
   * Claims what is due, loads what it carries, captures each claim's token, sends everything, and
   * records the results one by one under the captured tokens. A missing submission abandons the batch
   * with everything still claimed, which the schema's foreign key makes impossible.
   * `outcomes[i]` is what the outside world does to the i-th claimed job.
   */
  method ProcessBatch(db: Database.Database, now: Instant, lease: Seconds, limit: nat, tokens: seq<ClaimToken>,
                      outcomes: seq<Outcome>, policy: RetryPolicy)
    returns (attempted: nat, abandoned: bool, raised: bool, jobs: seq<Job>)
    requires |tokens| >= limit && |outcomes| >= limit
    modifies db
    ensures attempted == |jobs| == Min(limit, |Database.DueSet(old(db.Tables()), now)|)
    ensures Database.DistinctDue(old(db.Tables()), Database.Ids(jobs), now) && DistinctJobs(jobs)
    ensures forall i | 0 <= i < |jobs| :: jobs[i].token == Some(tokens[i])
    ensures ConstraintsHold(old(db.Tables())) ==> !abandoned
    ensures var claimed := Database.ClaimAll(old(db.Tables()), Database.Ids(jobs), now, lease, tokens);
            db.Tables() == if abandoned then claimed else RecordAll(claimed, jobs, outcomes, |jobs|, now, policy).tables
    ensures !abandoned && raised ==> exists k :: 0 <= k < |jobs| && !outcomes[k].rereadable
  {
    jobs := db.ClaimDueDeliveries(now, lease, limit, tokens);
    attempted, abandoned, raised := |jobs|, false, false;
    ClaimedJobsAreDistinct(jobs, old(db.Tables()), now);
    if jobs == [] {
      return;
    }
    var loaded := db.LoadSubmissions(jobs);
    if loaded.None? {
      abandoned, raised := true, true;
      return;
    }
    var claims := seq(|jobs|, i requires 0 <= i < |jobs| => jobs[i].token);
    raised := RecordResults(db, now, jobs, claims, outcomes, policy);
  }

  /**
   * One result at a time. A result that cannot be recorded is rolled back, which expires every claimed
   * object; naming the job in the log rereads it, and unless that fails too the next result still gets its
   * turn, with what its row says by then.
   */
  method RecordResults(db: Database.Database, now: Instant, jobs: seq<Job>, claims: seq<Option<ClaimToken>>,
                       outcomes: seq<Outcome>, policy: RetryPolicy)
    returns (raised: bool)
    requires |jobs| <= |outcomes| && claims == seq(|jobs|, i requires 0 <= i < |jobs| => jobs[i].token)
    modifies db
    ensures var r := RecordAll(old(db.Tables()), jobs, outcomes, |jobs|, now, policy);
            db.Tables() == r.tables && raised == r.aborted
    ensures raised ==> exists k :: 0 <= k < |jobs| && !outcomes[k].rereadable
  {
    var expired := false;
    raised := false;
    for i := 0 to |jobs|
      invariant !raised
          && Recording(db.Tables(), expired, false) == RecordAll(old(db.Tables()), jobs, outcomes, i, now, policy)
    {
      var recorded: Option<Database.CompletedAttempt> := None;
      if outcomes[i].reachable {
        var job := jobs[i];
        if expired && job.delivery in db.deliveries {
          var row := db.deliveries[job.delivery];
          job := job.(submission := row.submission, webhook := row.webhook);
        }
        recorded := db.CompleteAttempt(job, outcomes[i].result, now, policy, claims[i], outcomes[i].attempt);
      }
      if recorded.None? {
        expired := true;
        if !outcomes[i].rereadable {
          raised := true;
          AbortedStays(old(db.Tables()), jobs, outcomes, i + 1, |jobs|, now, policy);
          return;
        }
      }
    }
  }

  /** Everything in the claimed batch stands as its claim left it. */
  lemma ClaimedRows(t: Tables, jobs: seq<Job>, now: Instant, lease: Seconds, tokens: seq<ClaimToken>)
    requires |jobs| <= |tokens| && Database.DistinctDue(t, Database.Ids(jobs), now)
    ensures var claimed := Database.ClaimAll(t, Database.Ids(jobs), now, lease, tokens);
            && DistinctJobs(jobs) && claimed.deliveries.Keys == t.deliveries.Keys
            && (forall i | 0 <= i < |jobs| ::
                  && Claimable(t, jobs[i].delivery, now)
                  && claimed.deliveries[jobs[i].delivery]
                    == ClaimedRow(t.deliveries[jobs[i].delivery], now + lease, tokens[i]))
            && (forall d | d in t.deliveries && d !in Database.Ids(jobs) :: claimed.deliveries[d] == t.deliveries[d])
  {
    var ids := Database.Ids(jobs);
    ClaimedJobsAreDistinct(jobs, t, now);
    Database.ClaimAllRows(t, ids, now, lease, tokens);
    assert forall i | 0 <= i < |jobs| :: jobs[i].delivery == ids[i];
  }

  /**
   * With no other process in between, at the end of a batch each claimed delivery is either settled by its own result
   * under its own
   * claim, or exactly as it was claimed and due again when its lease ends.
   */
  lemma BatchAccounting(t: Tables, jobs: seq<Job>, outcomes: seq<Outcome>, i: nat, now: Instant, lease: Seconds,
                        tokens: seq<ClaimToken>, policy: RetryPolicy)
    requires i < |jobs| <= |outcomes| && |jobs| <= |tokens| && DistinctAttempts(outcomes)
    requires Database.DistinctDue(t, Database.Ids(jobs), now) && jobs[i].token == Some(tokens[i])
    ensures var claimed := Database.ClaimAll(t, Database.Ids(jobs), now, lease, tokens);
            var done := RecordAll(claimed, jobs, outcomes, |jobs|, now, policy).tables;
            var d := jobs[i].delivery;
            && d in t.deliveries && d in done.deliveries
            && if Recorded(claimed, jobs, outcomes, i)
               then && done.deliveries[d].token.None?
                    && done.deliveries[d].attempts == t.deliveries[d].attempts + 1
                    && done.deliveries[d].cycleAttempts == t.deliveries[d].cycleAttempts + 1
                    && (done.deliveries[d].state.Delivered? <==> outcomes[i].result.outcome.Succeeded?)
               else && done.deliveries[d] == ClaimedRow(t.deliveries[d], now + lease, tokens[i])
                    && forall later :: Due(done.deliveries[d], later) <==> later >= now + lease
  {
    ClaimedRows(t, jobs, now, lease, tokens);
    var claimed := Database.ClaimAll(t, Database.Ids(jobs), now, lease, tokens);
    EachRecordStandsAlone(claimed, jobs, outcomes, |jobs|, now, policy);
    assert RecordAll(claimed, jobs, outcomes, |jobs|, now, policy).tables.deliveries[jobs[i].delivery]
        == FateOf(claimed, jobs, outcomes, i, now, policy);
  }

  lemma {:induction false} RecordingTouchesOnlyItsJobs(t: Tables, jobs: seq<Job>, outcomes: seq<Outcome>, n: nat,
                                                       d: DeliveryId, now: Instant, policy: RetryPolicy)
    requires n <= |jobs| <= |outcomes| && d in t.deliveries && d !in Database.Ids(jobs)
    ensures var u := RecordAll(t, jobs, outcomes, n, now, policy).tables;
            d in u.deliveries && u.deliveries[d] == t.deliveries[d]
  {
    if n > 0 {
      RecordingTouchesOnlyItsJobs(t, jobs, outcomes, n - 1, d, now, policy);
      assert Database.Ids(jobs)[n - 1] != d;
    }
  }

  /** A batch touches no delivery it did not claim. */
  lemma BatchTouchesOnlyItsClaims(t: Tables, jobs: seq<Job>, outcomes: seq<Outcome>, d: DeliveryId, now: Instant,
                                  lease: Seconds, tokens: seq<ClaimToken>, policy: RetryPolicy)
    requires |jobs| <= |outcomes| && |jobs| <= |tokens|
    requires Database.DistinctDue(t, Database.Ids(jobs), now) && d in t.deliveries && d !in Database.Ids(jobs)
    ensures var claimed := Database.ClaimAll(t, Database.Ids(jobs), now, lease, tokens);
            var done := RecordAll(claimed, jobs, outcomes, |jobs|, now, policy).tables;
            d in done.deliveries && done.deliveries[d] == t.deliveries[d]
  {
    var claimed := Database.ClaimAll(t, Database.Ids(jobs), now, lease, tokens);
    Database.ClaimAllRows(t, Database.Ids(jobs), now, lease, tokens);
    RecordingTouchesOnlyItsJobs(claimed, jobs, outcomes, |jobs|, d, now, policy);
  }

  // ---------------------------------------------------------------- with other processes in between

  lemma TokenHasOneHolder(deliveries: Deliveries, grants: Grants, d: DeliveryId, f: DeliveryId, k: ClaimToken)
    requires GrantsHold(deliveries, grants) && d in deliveries && f in deliveries && d != f
    requires deliveries[d].token == Some(k)
    ensures deliveries[f].token != Some(k)
  {
    assert HoldsGrant(deliveries[d], d, grants) && HoldsGrant(deliveries[f], f, grants);
  }

  lemma GrantedTokenDoesNotAppear(w: World, e: Event, f: DeliveryId, k: ClaimToken)
    requires Legal(w, e) && k in w.grants && f in Step(w, e).tables.deliveries
    requires f in w.tables.deliveries ==> w.tables.deliveries[f].token != Some(k)
    ensures Step(w, e).tables.deliveries[f].token != Some(k)
  {
    if f in w.tables.deliveries {
      StepMovesRow(w, e, f);
    } else {
      StepAddsOnlyNewRows(w, e, f);
    }
  }

  lemma HeldRowOneStep(w: World, e: Event, d: DeliveryId, k: ClaimToken)
    requires k in w.grants && Legal(w, e) && d in w.tables.deliveries && w.tables.deliveries[d].token == Some(k)
    ensures d in Step(w, e).tables.deliveries
    ensures Step(w, e).tables.deliveries[d].token == Some(k) ==>
              ControlOf(Step(w, e).tables.deliveries[d]) == ControlOf(w.tables.deliveries[d])
  {
    StepMovesRow(w, e, d);
  }

  lemma ReleasedTokenIsDead(w: World, e: Event, d: DeliveryId, k: ClaimToken)
    requires GrantsHold(w.tables.deliveries, w.grants) && Legal(w, e)
    requires d in w.tables.deliveries && w.tables.deliveries[d].token == Some(k)
    requires d in Step(w, e).tables.deliveries && Step(w, e).tables.deliveries[d].token != Some(k)
    ensures Dead(Step(w, e), k)
  {
    assert HoldsGrant(w.tables.deliveries[d], d, w.grants);
    forall f | f in Step(w, e).tables.deliveries ensures Step(w, e).tables.deliveries[f].token != Some(k) {
      if f != d {
        if f in w.tables.deliveries {
          TokenHasOneHolder(w.tables.deliveries, w.grants, d, f, k);
        }
        GrantedTokenDoesNotAppear(w, e, f, k);
      }
    }
    StepKeepsGrant(w, e, k);
  }

  lemma StepKeepsGrant(w: World, e: Event, k: ClaimToken)
    requires k in w.grants
    ensures k in Step(w, e).grants
  {
    if e.Advance? && e.id in w.requests {
      AdvanceInserts(w, e.id);
    }
  }

  /**
   * However long a request is in flight and whatever else runs meanwhile: a row that still carries the
   * captured token is exactly as it was claimed, so recording under that token decides from what was claimed.
   */
  lemma {:induction false} HeldClaimIsUntouched(w: World, es: seq<Event>, d: DeliveryId, k: ClaimToken)
    requires Inv(w) && LegalRun(w, es) && d in w.tables.deliveries && w.tables.deliveries[d].token == Some(k)
    ensures d in Exec(w, es).tables.deliveries
    ensures if Exec(w, es).tables.deliveries[d].token == Some(k)
            then ControlOf(Exec(w, es).tables.deliveries[d]) == ControlOf(w.tables.deliveries[d])
            else Dead(Exec(w, es), k)
    decreases |es|
  {
    if es != [] {
      var v := Step(w, es[0]);
      assert HoldsGrant(w.tables.deliveries[d], d, w.grants);
      HeldRowOneStep(w, es[0], d, k);
      StepHolds(w, es[0]);
      if v.tables.deliveries[d].token == Some(k) {
        HeldClaimIsUntouched(v, es[1..], d, k);
      } else {
        ReleasedTokenIsDead(w, es[0], d, k);
        DeadStaysDead(v, es[1..], k);
        RowStays(v, es[1..], d);
      }
    }
  }

  lemma {:induction false} RowStays(w: World, es: seq<Event>, d: DeliveryId)
    requires LegalRun(w, es) && d in w.tables.deliveries
    ensures d in Exec(w, es).tables.deliveries
    decreases |es|
  {
    if es != [] {
      StepMovesRow(w, es[0], d);
      RowStays(Step(w, es[0]), es[1..], d);
    }
  }

  // ---------------------------------------------------------------- how every claim ends

  /** Some event of the run claimed d again, at or after the instant. */
  ghost predicate TakenOver(w: World, es: seq<Event>, d: DeliveryId, endsAt: Instant)
    decreases |es|
  {
    es != [] && ((Claims(w, es[0], d) && es[0].now >= endsAt) || TakenOver(Step(w, es[0]), es[1..], d, endsAt))
  }

  lemma GrantIsFixed(w: World, e: Event, k: ClaimToken)
    requires Legal(w, e) && k in w.grants
    ensures k in Step(w, e).grants && Step(w, e).grants[k] == w.grants[k]
  {
    if e.Advance? && e.id in w.requests {
      AdvanceInserts(w, e.id);
    }
  }

  lemma OnlyItsDeliveryWins(w: World, e: Event, d: DeliveryId, k: ClaimToken)
    requires QueueInv(w) && d in w.tables.deliveries && w.tables.deliveries[d].token == Some(k)
    ensures Wins(w, e, k) <==> Owned(w, e, d) && e.token == k
  {
    assert HoldsGrant(w.tables.deliveries[d], d, w.grants);
    if k in w.jobs {
      assert JobOk(w.jobs[k], k, w.grants, w.tables.deliveries, w.tables.submissions, w.archive);
    }
  }

  /** One step either leaves the held claim alone, or completes it, or takes the delivery over after its lease. */
  lemma HeldClaimStep(w: World, e: Event, d: DeliveryId, k: ClaimToken)
    requires QueueInv(w) && Legal(w, e) && d in w.tables.deliveries && w.tables.deliveries[d].token == Some(k)
    ensures d in Step(w, e).tables.deliveries
    ensures var row := Step(w, e).tables.deliveries[d];
            if row.token == Some(k) then !Wins(w, e, k) && ControlOf(row) == ControlOf(w.tables.deliveries[d])
            else Wins(w, e, k) || (Claims(w, e, d) && k in w.grants && e.now >= w.grants[k].endsAt)
  {
    StepMovesRow(w, e, d);
    OnlyItsDeliveryWins(w, e, d, k);
    assert HoldsGrant(w.tables.deliveries[d], d, w.grants);
    assert RowOk(w.tables.deliveries[d], w.policy);
  }

  /** The three ways a claim can stand at the end of a run. */
  ghost predicate ClaimEnds(w: World, es: seq<Event>, d: DeliveryId, k: ClaimToken)
    requires d in w.tables.deliveries
  {
    var v := Exec(w, es);
    && d in v.tables.deliveries && k in w.grants
    && (|| (v.tables.deliveries[d].token == Some(k) && CountWins(w, es, k) == 0
            && ControlOf(v.tables.deliveries[d]) == ControlOf(w.tables.deliveries[d]))
        || (Dead(v, k) && CountWins(w, es, k) == 1)
        || (Dead(v, k) && CountWins(w, es, k) == 0 && TakenOver(w, es, d, w.grants[k].endsAt)))
  }

  /**
   * However long its requests are in flight and whatever other processes do meanwhile, a claim ends in
   * exactly one way: it still stands as it was granted, or it settled its delivery once, or it settled
   * nothing and the delivery was claimed again after its lease.
   */
  lemma {:induction false} ClaimEndsOneWay(w: World, es: seq<Event>, d: DeliveryId, k: ClaimToken)
    requires Inv(w) && LegalRun(w, es) && d in w.tables.deliveries && w.tables.deliveries[d].token == Some(k)
    ensures ClaimEnds(w, es, d, k)
    decreases |es|
  {
    if es != [] {
      var v := Step(w, es[0]);
      assert HoldsGrant(w.tables.deliveries[d], d, w.grants);
      HeldClaimStep(w, es[0], d, k);
      GrantIsFixed(w, es[0], k);
      StepHolds(w, es[0]);
      if v.tables.deliveries[d].token == Some(k) {
        ClaimEndsOneWay(v, es[1..], d, k);
      } else {
        ReleasedTokenIsDead(w, es[0], d, k);
        DeadStaysDead(v, es[1..], k);
        DeadNeverWins(v, es[1..], k);
        RowStays(v, es[1..], d);
      }
    }
  }

  /** So ends every claim any worker is ever granted, its lease running from the instant of the claim. */
  lemma EveryClaimEndsOneWay(w: World, claim: Event, es: seq<Event>, d: DeliveryId)
    requires Inv(w) && LegalRun(w, [claim] + es) && Claims(w, claim, d)
    ensures d in Step(w, claim).tables.deliveries && ClaimEnds(Step(w, claim), es, d, claim.token)
    ensures Step(w, claim).grants[claim.token] == Grant(d, claim.now, claim.now + claim.lease)
  {
    assert ([claim] + es)[1..] == es;
    StepHolds(w, claim);
    StepMovesRow(w, claim, d);
    ClaimEndsOneWay(Step(w, claim), es, d, claim.token);
  }
}
