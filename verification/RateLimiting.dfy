/** ratelimit.py, the counter statements of storage.py, and the order api/submissions.py applies them in. */
module RateLimiting {
  import opened Prelude

  datatype Limiter = Ip | Endpoint

  datatype RateLimit = RateLimit(requests: int, windowSeconds: int) {
    predicate Valid() {
      requests >= 1 && windowSeconds >= 1
    }
  }

  datatype Limits = Limits(ip: RateLimit, endpoint: RateLimit) {
    predicate Valid() {
      ip.Valid() && endpoint.Valid()
    }

    function Of(limiter: Limiter): RateLimit {
      if limiter.Ip? then ip else endpoint
    }

    /** The longer of the two windows. */
    function Longest(): (w: int)
      ensures ip.windowSeconds <= w && endpoint.windowSeconds <= w
      ensures w == ip.windowSeconds || w == endpoint.windowSeconds
    {
      if ip.windowSeconds >= endpoint.windowSeconds then ip.windowSeconds else endpoint.windowSeconds
    }
  }

  // ---------------------------------------------------------------- window arithmetic

  /** int() drops the fraction, so it rounds instants before the epoch upwards. */
  function Truncate(x: real): int {
    if x >= 0.0 then x.Floor else -((-x).Floor)
  }

  function Ceiling(x: real): int {
    -((-x).Floor)
  }

  function WindowStart(now: Instant, windowSeconds: int): int
    requires windowSeconds >= 1
  {
    var elapsed := Truncate(now);
    elapsed - elapsed % windowSeconds
  }

  function SecondsUntilWindowEnds(now: Instant, start: int, windowSeconds: int): int {
    var remaining := Ceiling((start + windowSeconds) as real - now);
    if remaining < 1 then 1 else remaining
  }

  lemma WindowHolds(now: Instant, w: int)
    requires w >= 1
    ensures WindowStart(now, w) % w == 0
    ensures now < (WindowStart(now, w) + w) as real
    ensures now >= 0.0 ==> 0 <= WindowStart(now, w) && WindowStart(now, w) as real <= now
  {
    var e := Truncate(now);
    MultipleBelow(e, w);
  }

  lemma MultipleBelow(e: int, w: int)
    requires w >= 1
    ensures (e - e % w) % w == 0 && e - e % w <= e < e - e % w + w
    ensures e >= 0 ==> e - e % w >= 0
  {
    assert e == w * (e / w) + e % w;
    assert e - e % w == w * (e / w);
    MultipleHasNoRemainder(w, e / w);
  }

  lemma MultipleHasNoRemainder(w: int, q: int)
    requires w >= 1
    ensures (w * q) % w == 0
  {
    var r := (w * q) % w;
    var p := (w * q) / w;
    assert w * q == w * p + r;
    assert r == w * (q - p);
    Scaled(w, q - p, 1);
    Scaled(w, -1, q - p);
  }

  /** Two aligned instants at most a window apart, and not the same, are exactly one window apart. */
  lemma AlignedNeighbours(a: int, b: int, w: int)
    requires w >= 1 && a % w == 0 && b % w == 0 && a < b < a + 2 * w
    ensures b == a + w
  {
    var p, q := a / w, b / w;
    assert a == w * p && b == w * q;
    assert w * (q - p) == b - a;
    Scaled(w, q - p, 2);
    Scaled(w, 0, q - p);
  }

  lemma AlignedWindowIsUnique(start: int, now: Instant, w: int)
    requires w >= 1 && now >= 0.0 && start % w == 0 && start as real <= now < (start + w) as real
    ensures WindowStart(now, w) == start
  {
    WindowHolds(now, w);
    var s := WindowStart(now, w);
    if s < start { AlignedNeighbours(s, start, w); }
    if start < s { AlignedNeighbours(start, s, w); }
  }

  /**
   * A window starts no later than the instant it was derived from, except for fractional instants before the epoch that
   * truncate onto a boundary.
   */
  lemma WindowStartPrecedesExactly(now: Instant, w: int)
    requires w >= 1
    ensures WindowStart(now, w) as real <= now <==>
              now >= 0.0 || now == now.Floor as real || Truncate(now) % w != 0
  {
    WindowHolds(now, w);
    if now < 0.0 {
      var e := Truncate(now);
      MultipleBelow(e, w);
      if now == now.Floor as real {
        assert (-now).Floor == -now.Floor;
      } else {
        assert e == now.Floor + 1;
      }
    }
  }

  /** Half a second before the epoch with windows of one second, the window starts after the instant. */
  lemma WindowCanStartLate()
    ensures WindowStart(-0.5, 1) as real > -0.5
  {
    assert (0.5).Floor == 0;
  }

  /**
   * Retry-After (section 10.2.3 of RFC 9110) is exact: a whole number of seconds between one and the
   * window, waiting it lands in the next window, and no shorter whole wait leaves the refused one.
   */
  lemma RetryAfterIsExact(now: Instant, w: int, k: nat)
    requires w >= 1 && now >= 0.0
    ensures var start := WindowStart(now, w);
            var r := SecondsUntilWindowEnds(now, start, w);
            && 1 <= r <= w
            && WindowStart(now + r as real, w) == start + w
            && (k < r ==> WindowStart(now + k as real, w) == start)
  {
    WindowHolds(now, w);
    var start := WindowStart(now, w);
    var r := SecondsUntilWindowEnds(now, start, w);
    var left := (start + w) as real - now;
    assert Ceiling(left) as real - 1.0 < left <= Ceiling(left) as real;
    MultipleBelow(start + w, w);
    NextMultiple(start, w);
    AlignedWindowIsUnique(start + w, now + r as real, w);
    if k < r {
      assert k as real <= r as real - 1.0;
      AlignedWindowIsUnique(start, now + k as real, w);
    }
  }

  lemma NextMultiple(a: int, w: int)
    requires w >= 1 && a % w == 0
    ensures (a + w) % w == 0
  {
    assert a + w == w * (a / w + 1);
    MultipleHasNoRemainder(w, a / w + 1);
  }

  // ---------------------------------------------------------------- counters

  datatype CounterKey = CounterKey(limiter: Limiter, subject: string, start: int)

  type Counters = map<CounterKey, nat>

  function KeyFor(limits: Limits, limiter: Limiter, subject: string, now: Instant): CounterKey
    requires limits.Valid()
  {
    CounterKey(limiter, subject, WindowStart(now, limits.Of(limiter).windowSeconds))
  }

  function CountAt(c: Counters, k: CounterKey): nat {
    if k in c then c[k] else 0
  }

  /** The upsert: insert one, or add one to what is stored. */
  function Consumed(c: Counters, k: CounterKey): Counters {
    c[k := CountAt(c, k) + 1]
  }

  const SWEEP_RETAINED_WINDOWS := 2

  function SweepCutoff(limits: Limits, now: Instant): Instant {
    now - (SWEEP_RETAINED_WINDOWS * limits.Longest()) as real
  }

  function Swept(c: Counters, before: Instant): Counters {
    map k | k in c && k.start as real >= before :: c[k]
  }

  /** A sweep at instant s takes no counter of any attempt whose own clock reads at least s - W, W the longer window. */
  lemma SweepIsHarmless(limits: Limits, limiter: Limiter, subject: string, now: Instant, s: Instant, c: Counters)
    requires limits.Valid() && now >= 0.0 && now >= s - limits.Longest() as real
    ensures var k := KeyFor(limits, limiter, subject, now);
            CountAt(Swept(c, SweepCutoff(limits, s)), k) == CountAt(c, k)
  {
    WindowHolds(now, limits.Of(limiter).windowSeconds);
  }

  /** The margin is tight: for any larger skew there is an attempt of the longer limiter whose budget a sweep resets. */
  lemma SweepMarginIsTight(limits: Limits, limiter: Limiter, subject: string, n: nat, excess: real)
    requires limits.Valid() && limits.Of(limiter).windowSeconds == limits.Longest() && excess > 0.0
    ensures var w := limits.Longest() as real;
            var now := w - if excess <= 1.0 then excess / 2.0 else 0.5;
            var s := now + w + excess;
            var k := KeyFor(limits, limiter, subject, now);
            now >= 0.0 && CountAt(Swept(map[k := n], SweepCutoff(limits, s)), k) == 0
  {
    var w := limits.Longest();
    AlignedWindowIsUnique(0, w as real - if excess <= 1.0 then excess / 2.0 else 0.5, w);
  }

  datatype Hit =
    | Attempt(limiter: Limiter, subject: string, now: Instant)
    | Sweep(at: Instant)

  function Apply(limits: Limits, c: Counters, h: Hit): Counters
    requires limits.Valid()
  {
    match h
    case Attempt(limiter, subject, now) => Consumed(c, KeyFor(limits, limiter, subject, now))
    case Sweep(at) => Swept(c, SweepCutoff(limits, at))
  }

  /** The counters after a run of committed statements, from an empty table. */
  function After(limits: Limits, hs: seq<Hit>): Counters
    requires limits.Valid()
    decreases |hs|
  {
    if hs == [] then map[] else Apply(limits, After(limits, hs[..|hs| - 1]), hs[|hs| - 1])
  }

  predicate IsFor(limits: Limits, h: Hit, k: CounterKey)
    requires limits.Valid()
  {
    h.Attempt? && KeyFor(limits, h.limiter, h.subject, h.now) == k
  }

  function CountHits(limits: Limits, hs: seq<Hit>, k: CounterKey): nat
    requires limits.Valid()
    decreases |hs|
  {
    if hs == [] then 0
    else CountHits(limits, hs[..|hs| - 1], k) + if IsFor(limits, hs[|hs| - 1], k) then 1 else 0
  }

  /** What the i-th statement returned. */
  function Returned(limits: Limits, hs: seq<Hit>, i: nat): nat
    requires limits.Valid() && i < |hs| && hs[i].Attempt?
  {
    CountAt(After(limits, hs[..i + 1]), KeyFor(limits, hs[i].limiter, hs[i].subject, hs[i].now))
  }

  predicate Allowed(limits: Limits, hs: seq<Hit>, i: nat)
    requires limits.Valid() && i < |hs| && hs[i].Attempt?
  {
    Returned(limits, hs, i) <= limits.Of(hs[i].limiter).requests
  }

  /** No process's clock runs more than the longer window behind a sweep that already happened. */
  predicate ClocksAgree(limits: Limits, hs: seq<Hit>) {
    && (forall i | 0 <= i < |hs| && hs[i].Attempt? :: hs[i].now >= 0.0)
    && (forall i, j | 0 <= i < j < |hs| && hs[i].Sweep? && hs[j].Attempt? ::
      hs[j].now >= hs[i].at - limits.Longest() as real)
  }

  /** Up to an attempt, sweeps included, its counter holds exactly the number of attempts before it. */
  lemma {:induction false} CounterIsCount(limits: Limits, hs: seq<Hit>, limiter: Limiter, subject: string, now: Instant)
    requires limits.Valid() && now >= 0.0
    requires forall i | 0 <= i < |hs| && hs[i].Sweep? :: now >= hs[i].at - limits.Longest() as real
    ensures var k := KeyFor(limits, limiter, subject, now);
            CountAt(After(limits, hs), k) == CountHits(limits, hs, k)
    decreases |hs|
  {
    if hs != [] {
      var last := |hs| - 1;
      CounterIsCount(limits, hs[..last], limiter, subject, now);
      if hs[last].Sweep? {
        SweepIsHarmless(limits, limiter, subject, now, hs[last].at, After(limits, hs[..last]));
      }
    }
  }

  /** Under any interleaving the n attempts of one subject in one window are answered 1 to n, in commit order. */
  lemma ReturnsArePositions(limits: Limits, hs: seq<Hit>, i: nat)
    requires limits.Valid() && ClocksAgree(limits, hs) && i < |hs| && hs[i].Attempt?
    ensures Returned(limits, hs, i)
            == CountHits(limits, hs[..i + 1], KeyFor(limits, hs[i].limiter, hs[i].subject, hs[i].now))
  {
    CounterIsCount(limits, hs[..i], hs[i].limiter, hs[i].subject, hs[i].now);
    assert hs[..i + 1][..i] == hs[..i];
  }

  predicate AllowedFor(limits: Limits, hs: seq<Hit>, i: nat, k: CounterKey)
    requires limits.Valid() && i < |hs|
  {
    IsFor(limits, hs[i], k) && Allowed(limits, hs, i)
  }

  /** How many of the first n statements are allowed attempts on counter k. */
  function CountAllowed(limits: Limits, hs: seq<Hit>, n: nat, k: CounterKey): nat
    requires limits.Valid() && n <= |hs|
  {
    if n == 0 then 0 else CountAllowed(limits, hs, n - 1, k) + if AllowedFor(limits, hs, n - 1, k) then 1 else 0
  }

  /** Of n attempts in one window exactly min(n, limit) are allowed. */
  lemma {:induction false} ExactlyTheLimitIsAllowed(limits: Limits, hs: seq<Hit>, n: nat, k: CounterKey)
    requires limits.Valid() && ClocksAgree(limits, hs) && n <= |hs|
    ensures CountAllowed(limits, hs, n, k) == Min(CountHits(limits, hs[..n], k), limits.Of(k.limiter).requests)
  {
    if n > 0 {
      ExactlyTheLimitIsAllowed(limits, hs, n - 1, k);
      assert hs[..n][..n - 1] == hs[..n - 1];
      if IsFor(limits, hs[n - 1], k) {
        ReturnsArePositions(limits, hs, n - 1);
      }
    }
  }

  predicate AllowedWithin(limits: Limits, hs: seq<Hit>, i: nat, limiter: Limiter, subject: string, from: Instant)
    requires limits.Valid() && i < |hs|
  {
    && hs[i].Attempt? && hs[i].limiter == limiter && hs[i].subject == subject
    && from <= hs[i].now < from + limits.Of(limiter).windowSeconds as real
    && Allowed(limits, hs, i)
  }

  /** How many of the first n statements are allowed attempts of one subject within one window length of `from`. */
  function CountWithin(limits: Limits, hs: seq<Hit>, n: nat, limiter: Limiter, subject: string, from: Instant): nat
    requires limits.Valid() && n <= |hs|
  {
    if n == 0 then 0
    else CountWithin(limits, hs, n - 1, limiter, subject, from)
         + if AllowedWithin(limits, hs, n - 1, limiter, subject, from) then 1 else 0
  }

  /** An interval of one window length meets at most two windows. */
  lemma IntervalMeetsTwoWindows(from: Instant, now: Instant, w: int)
    requires w >= 1 && from >= 0.0 && from <= now < from + w as real
    ensures WindowStart(now, w) == WindowStart(from, w) || WindowStart(now, w) == WindowStart(from, w) + w
  {
    WindowHolds(from, w);
    WindowHolds(now, w);
    var a, b := WindowStart(from, w), WindowStart(now, w);
    if b < a {
      AlignedNeighbours(b, a, w);
    } else if a < b {
      AlignedNeighbours(a, b, w);
    }
  }

  lemma {:induction false} WithinIsSplit(limits: Limits, hs: seq<Hit>, n: nat, limiter: Limiter, subject: string,
                                         from: Instant)
    requires limits.Valid() && n <= |hs| && from >= 0.0
    ensures var w := limits.Of(limiter).windowSeconds;
            var a := WindowStart(from, w);
            CountWithin(limits, hs, n, limiter, subject, from)
            <= CountAllowed(limits, hs, n, CounterKey(limiter, subject, a))
               + CountAllowed(limits, hs, n, CounterKey(limiter, subject, a + w))
  {
    if n > 0 {
      WithinIsSplit(limits, hs, n - 1, limiter, subject, from);
      if AllowedWithin(limits, hs, n - 1, limiter, subject, from) {
        IntervalMeetsTwoWindows(from, hs[n - 1].now, limits.Of(limiter).windowSeconds);
      }
    }
  }

  lemma {:induction false} BeforeTheEpochIsEmpty(limits: Limits, hs: seq<Hit>, n: nat, limiter: Limiter,
                                                 subject: string, from: Instant)
    requires limits.Valid() && ClocksAgree(limits, hs) && n <= |hs| && from <= 0.0
    ensures CountWithin(limits, hs, n, limiter, subject, from) <= CountWithin(limits, hs, n, limiter, subject, 0.0)
  {
    if n > 0 { BeforeTheEpochIsEmpty(limits, hs, n - 1, limiter, subject, from); }
  }

  /**
   * Any half-open interval of one window length holds at most twice the limit of allowed attempts, sweeps or no sweeps.
   */
  lemma RateIsBounded(limits: Limits, hs: seq<Hit>, limiter: Limiter, subject: string, from: Instant)
    requires limits.Valid() && ClocksAgree(limits, hs)
    ensures CountWithin(limits, hs, |hs|, limiter, subject, from) <= 2 * limits.Of(limiter).requests
  {
    if from < 0.0 {
      BeforeTheEpochIsEmpty(limits, hs, |hs|, limiter, subject, from);
    }
    RateIsBoundedFromTheEpoch(limits, hs, limiter, subject, if from < 0.0 then 0.0 else from);
  }

  lemma RateIsBoundedFromTheEpoch(limits: Limits, hs: seq<Hit>, limiter: Limiter, subject: string, from: Instant)
    requires limits.Valid() && ClocksAgree(limits, hs) && from >= 0.0
    ensures CountWithin(limits, hs, |hs|, limiter, subject, from) <= 2 * limits.Of(limiter).requests
  {
    var w := limits.Of(limiter).windowSeconds;
    var a := WindowStart(from, w);
    WithinIsSplit(limits, hs, |hs|, limiter, subject, from);
    ExactlyTheLimitIsAllowed(limits, hs, |hs|, CounterKey(limiter, subject, a));
    ExactlyTheLimitIsAllowed(limits, hs, |hs|, CounterKey(limiter, subject, a + w));
  }

  // ---------------------------------------------------------------- the counter table and the route

  datatype Verdict = Admitted | RateLimited(limiter: Limiter, retryAfter: int) | NotFound

  class CounterTable {
    var counters: Counters

    constructor ()
      ensures counters == map[]
    {
      counters := map[];
    }

    method Consume(k: CounterKey) returns (used: nat)
      modifies this
      ensures counters == Consumed(old(counters), k)
      ensures used == CountAt(counters, k) >= 1
    {
      if k in counters {
        counters := counters[k := counters[k] + 1];
      } else {
        counters := counters[k := 1];
      }
      used := counters[k];
    }

    method DeleteExpired(before: Instant) returns (rowcount: nat)
      modifies this
      ensures counters == Swept(old(counters), before)
      ensures forall k :: k in counters <==> k in old(counters) && k.start as real >= before
      ensures forall k | k in counters :: counters[k] == old(counters)[k]
      ensures rowcount == |old(counters)| - |counters|
    {
      var kept := map k | k in counters && k.start as real >= before :: counters[k];
      SubsetIsSmaller(kept.Keys, counters.Keys);
      rowcount := |counters| - |kept|;
      counters := kept;
    }

    /** Spends one unit first and judges it afterwards. */
    method Spend(limits: Limits, limiter: Limiter, subject: string, now: Instant) returns (v: Verdict)
      requires limits.Valid()
      modifies this
      ensures counters == Consumed(old(counters), KeyFor(limits, limiter, subject, now))
      ensures var k := KeyFor(limits, limiter, subject, now);
              v == if CountAt(counters, k) <= limits.Of(limiter).requests then Admitted
                   else RateLimited(limiter, SecondsUntilWindowEnds(now, k.start, limits.Of(limiter).windowSeconds))
    {
      var limit := limits.Of(limiter);
      var start := WindowStart(now, limit.windowSeconds);
      var used := Consume(CounterKey(limiter, subject, start));
      if used <= limit.requests {
        v := Admitted;
      } else {
        v := RateLimited(limiter, SecondsUntilWindowEnds(now, start, limit.windowSeconds));
      }
    }

    /**
     * The order the ingestion route limits in: the source address pays before anything is looked up,
     * and only an endpoint that exists is ever charged. `sweeps` is the outcome of the route's dice.
     */
    method Admit(limits: Limits, address: string, endpoint: string, exists_: bool, now: Instant, sweeps: bool)
      returns (v: Verdict)
      requires limits.Valid()
      modifies this
      ensures var ip := KeyFor(limits, Ip, address, now);
              var ep := KeyFor(limits, Endpoint, endpoint, now);
              var paid := Consumed(old(counters), ip);
              && v == (if CountAt(paid, ip) > limits.ip.requests then
                         RateLimited(Ip, SecondsUntilWindowEnds(now, ip.start, limits.ip.windowSeconds))
                       else if !exists_ then NotFound
                       else if CountAt(Consumed(paid, ep), ep) > limits.endpoint.requests then
                         RateLimited(Endpoint, SecondsUntilWindowEnds(now, ep.start, limits.endpoint.windowSeconds))
                       else Admitted)
              && counters == if CountAt(paid, ip) > limits.ip.requests || !exists_ then paid
                             else if v.Admitted? && sweeps then Swept(Consumed(paid, ep), SweepCutoff(limits, now))
                             else Consumed(paid, ep)
    {
      v := Spend(limits, Ip, address, now);
      if !v.Admitted? {
        return;
      }
      if !exists_ {
        return NotFound;
      }
      v := Spend(limits, Endpoint, endpoint, now);
      if !v.Admitted? {
        return;
      }
      if sweeps {
        var _ := DeleteExpired(SweepCutoff(limits, now));
      }
    }
  }
}
