/** delete_expired_submissions while requests, workers, operators and other sweeps go on in between. */
module Sweeping {
  import opened Prelude
  import opened Webhooks
  import opened Models
  import opened Operations
  import opened Protocol
  import opened Invariants
  import opened Preservation
  import opened Retention
  import Database

  // ---------------------------------------------------------------- the returned total

  /** The rows a delete statement removes. Their number is the row count the database reports. */
  ghost function TakenBy(w: World, e: Event): set<SubmissionId> {
    if e.SweepDelete? && e.sweep in w.sweeps then w.tables.submissions.Keys * w.sweeps[e.sweep].ids else {}
  }

  /** The event is a batch of this run of the sweep, which owns the lists `mine`. */
  predicate IsMine(e: Event, mine: set<nat>) {
    e.SweepDelete? && e.sweep in mine
  }

  /** Everything this run of the sweep removed. */
  ghost function Taken(w: World, es: seq<Event>, mine: set<nat>): set<SubmissionId>
    decreases |es|
  {
    if es == [] then {}
    else (if IsMine(es[0], mine) then TakenBy(w, es[0]) else {}) + Taken(Step(w, es[0]), es[1..], mine)
  }

  /** The sum of its row counts, which is what the sweep returns. */
  ghost function Total(w: World, es: seq<Event>, mine: set<nat>): nat
    decreases |es|
  {
    if es == [] then 0
    else (if IsMine(es[0], mine) then |TakenBy(w, es[0])| else 0) + Total(Step(w, es[0]), es[1..], mine)
  }

  lemma {:induction false} GoneIsNeverTaken(w: World, es: seq<Event>, mine: set<nat>, s: SubmissionId)
    requires Inv(w) && LegalRun(w, es) && s in w.archive && s !in w.tables.submissions
    ensures s !in Taken(w, es, mine)
    decreases |es|
  {
    if es != [] {
      ArchiveOneStep(w, es[0], s);
      StepHolds(w, es[0]);
      GoneIsNeverTaken(Step(w, es[0]), es[1..], mine, s);
    }
  }

  lemma TakenIsGone(w: World, e: Event, s: SubmissionId)
    requires ArchiveHolds(w.tables.submissions, w.archive, w.requests) && s in TakenBy(w, e)
    ensures s in Step(w, e).archive && s !in Step(w, e).tables.submissions
  {
  }

  lemma DisjointSum<T>(a: set<T>, b: set<T>)
    requires a !! b
    ensures |a + b| == |a| + |b|
  {
  }

  /** Whoever else deletes meanwhile, the returned total counts exactly the rows this run removed, each once. */
  lemma {:induction false} TotalIsWhatThisRunRemoved(w: World, es: seq<Event>, mine: set<nat>)
    requires Inv(w) && LegalRun(w, es)
    ensures Total(w, es, mine) == |Taken(w, es, mine)|
    decreases |es|
  {
    if es != [] {
      var v := Step(w, es[0]);
      StepHolds(w, es[0]);
      TotalIsWhatThisRunRemoved(v, es[1..], mine);
      if IsMine(es[0], mine) {
        forall s | s in TakenBy(w, es[0]) ensures s !in Taken(v, es[1..], mine) {
          TakenIsGone(w, es[0], s);
          GoneIsNeverTaken(v, es[1..], mine, s);
        }
        DisjointSum(TakenBy(w, es[0]), Taken(v, es[1..], mine));
      }
    }
  }

  // ---------------------------------------------------------------- a short batch

  lemma {:induction false} KnownStaysKnown(w: World, es: seq<Event>, s: SubmissionId)
    requires Inv(w) && LegalRun(w, es) && s in w.archive
    ensures s in Exec(w, es).archive
    decreases |es|
  {
    if es != [] {
      ArchiveOneStep(w, es[0], s);
      StepHolds(w, es[0]);
      KnownStaysKnown(Step(w, es[0]), es[1..], s);
    }
  }

  /** Nobody else writes or uses up this list of identifiers. */
  predicate LeavesList(es: seq<Event>, k: nat) {
    forall i | 0 <= i < |es| :: (es[i].SweepRead? || es[i].SweepDelete?) ==> es[i].sweep != k
  }

  lemma {:induction false} ListIsKept(w: World, es: seq<Event>, k: nat)
    requires LeavesList(es, k) && k in w.sweeps
    ensures k in Exec(w, es).sweeps && Exec(w, es).sweeps[k] == w.sweeps[k]
    decreases |es|
  {
    if es != [] {
      OtherStepsKeepList(w, es[0], k);
      assert forall i | 0 <= i < |es[1..]| :: es[1..][i] == es[i + 1];
      ListIsKept(Step(w, es[0]), es[1..], k);
    }
  }

  lemma OtherStepsKeepList(w: World, e: Event, k: nat)
    requires k in w.sweeps && ((e.SweepRead? || e.SweepDelete?) ==> e.sweep != k)
    ensures k in Step(w, e).sweeps && Step(w, e).sweeps[k] == w.sweeps[k]
  {
  }

  /** The query with its limit, finding fewer than the limit: it found everything. */
  lemma ShortReadIsComplete(t: Tables, before: Instant, ids: set<SubmissionId>, size: nat)
    requires ids <= Database.ExpiredSet(t, before) && |ids| == Min(size, |Database.ExpiredSet(t, before)|)
             && |ids| < size
    ensures ids == Database.ExpiredSet(t, before)
  {
    SubsetIsSmaller(ids, Database.ExpiredSet(t, before));
  }

  lemma ListedIsGone(w: World, between: seq<Event>, k: nat, s: SubmissionId)
    requires LeavesList(between, k) && k in w.sweeps && s in w.sweeps[k].ids
    ensures s !in Step(Exec(w, between), SweepDelete(k)).tables.submissions
  {
    ListIsKept(w, between, k);
  }

  lemma AbsentStaysAbsent(w: World, between: seq<Event>, k: nat, s: SubmissionId)
    requires Inv(w) && LegalRun(w, between) && s in w.archive && s !in w.tables.submissions
    ensures s !in Step(Exec(w, between), SweepDelete(k)).tables.submissions
  {
    GoneStaysGone(w, between, s);
  }

  /**
   * A batch that read fewer identifiers than its size is the last one needed: whatever happened since the
   * sweep began, and between this batch's read and its delete, nothing that was eligible at the beginning
   * is left.
   */
  lemma ShortBatchLeavesNothing(w: World, since: seq<Event>, k: nat, before: Instant, ids: set<SubmissionId>, size: nat,
                                between: seq<Event>, s: SubmissionId)
    requires Inv(w) && LegalRun(w, since) && Expired(w.tables.submissions, w.tables.deliveries, s, before)
    requires var v := Exec(w, since);
             && ids <= Database.ExpiredSet(v.tables, before)
             && |ids| == Min(size, |Database.ExpiredSet(v.tables, before)|) && |ids| < size
             && LegalRun(Step(v, SweepRead(k, before, ids)), between) && LeavesList(between, k)
    ensures var read := Step(Exec(w, since), SweepRead(k, before, ids));
            s !in Step(Exec(read, between), SweepDelete(k)).tables.submissions
  {
    var v := Exec(w, since);
    RunHolds(w, since);
    ExpiredStays(w, since, s, before);
    KnownStaysKnown(w, since, s);
    ShortReadIsComplete(v.tables, before, ids, size);
    var read := Step(v, SweepRead(k, before, ids));
    StepHolds(v, SweepRead(k, before, ids));
    if s in v.tables.submissions {
      ListedIsGone(read, between, k, s);
    } else {
      AbsentStaysAbsent(read, between, k, s);
    }
  }
}
