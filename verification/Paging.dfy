/**
 * storage.py and api/pagination.py: keyset pages, newest first, and the cursor that continues them.
 * Identifiers are opaque and totally ordered, so numbers stand for them.
 */
module Paging {
  import opened Prelude
  import opened Models

  type Id = nat

  datatype Row = Row(at: Instant, endpoint: EndpointId, state: DeliveryState)

  type Table = map<Id, Row>

  type Times = map<Id, Instant>

  /** What a listing may be narrowed to; both time bounds are exclusive. */
  datatype Filter = Filter(endpoint: Option<EndpointId>, state: Option<DeliveryState>, after: Option<Instant>,
    before: Option<Instant>)

  predicate Matches(f: Filter, r: Row) {
    && (f.endpoint.Some? ==> r.endpoint == f.endpoint.value)
    && (f.state.Some? ==> r.state == f.state.value)
    && (f.after.Some? ==> r.at > f.after.value)
    && (f.before.Some? ==> r.at < f.before.value)
  }

  /** A row is listed exactly when it is of the endpoint and state asked for and strictly inside both time bounds. */
  lemma ListedExactly(f: Filter, r: Row)
    ensures Matches(f, r) <==>
              && f.endpoint in {None, Some(r.endpoint)} && f.state in {None, Some(r.state)}
              && (f.after.None? || f.after.value < r.at) && (f.before.None? || r.at < f.before.value)
  {
  }

  // ---------------------------------------------------------------- the order

  function TimesOf(t: Table): Times {
    map id | id in t :: t[id].at
  }

  /** The row-value comparison: (at, id) of b is smaller than that of a. */
  predicate Newer(times: Times, a: Id, b: Id)
    requires a in times && b in times
  {
    times[b] < times[a] || (times[b] == times[a] && b < a)
  }

  predicate Known(times: Times, s: seq<Id>) {
    forall i | 0 <= i < |s| :: s[i] in times
  }

  predicate Descending(times: Times, s: seq<Id>)
    requires Known(times, s)
  {
    forall i, j | 0 <= i < j < |s| :: Newer(times, s[i], s[j])
  }

  ghost predicate IsNewest(times: Times, s: set<Id>, m: Id)
    requires s <= times.Keys
  {
    m in s && forall x | x in s && x != m :: Newer(times, m, x)
  }

  lemma NewestExists(times: Times, s: set<Id>)
    requires s <= times.Keys && s != {}
    ensures exists m :: IsNewest(times, s, m)
    decreases |s|
  {
    var x :| x in s;
    var rest := s - {x};
    assert forall y | y in s :: y == x || y in rest;
    if rest == {} {
      assert IsNewest(times, s, x);
    } else {
      NewestExists(times, rest);
      var m :| IsNewest(times, rest, m);
      assert IsNewest(times, s, if Newer(times, x, m) then x else m);
    }
  }

  /** ORDER BY at DESC, id DESC. */
  ghost function Listed(times: Times, s: set<Id>): seq<Id>
    requires s <= times.Keys
    decreases |s|
  {
    if s == {} then []
    else
      NewestExists(times, s);
      var m :| IsNewest(times, s, m);
      [m] + Listed(times, s - {m})
  }

  lemma NewestFirst(times: Times, s: set<Id>, m: Id, l: seq<Id>)
    requires s <= times.Keys && IsNewest(times, s, m)
    requires |l| == |s - {m}| && (forall id :: id in l <==> id in s - {m}) && Known(times, l) && Descending(times, l)
    ensures |[m] + l| == |s| && (forall id :: id in [m] + l <==> id in s)
    ensures Known(times, [m] + l) && Descending(times, [m] + l)
  {
    assert forall i | 0 <= i < |l| :: l[i] in l;
  }

  lemma {:induction false} ListedIsOrdered(times: Times, s: set<Id>)
    requires s <= times.Keys
    ensures var l := Listed(times, s);
            && |l| == |s|
            && (forall id :: id in l <==> id in s)
            && Known(times, l) && Descending(times, l)
    decreases |s|
  {
    if s != {} {
      var m := Listed(times, s)[0];
      ListedIsOrdered(times, s - {m});
      NewestFirst(times, s, m, Listed(times, s - {m}));
    }
  }

  lemma {:induction false} OrderIsUnique(times: Times, a: seq<Id>, b: seq<Id>)
    requires Known(times, a) && Known(times, b) && Descending(times, a) && Descending(times, b)
    requires forall id :: id in a <==> id in b
    ensures a == b
    decreases |a|
  {
    if a == [] {
      assert forall i | 0 <= i < |b| :: b[i] in b;
    } else {
      assert a[0] in b && b != [];
      assert b[0] in a;
      assert a[0] == b[0];
      forall id ensures id in a[1..] <==> id in b[1..] {
        assert id in a <==> id == a[0] || id in a[1..];
        assert id in b <==> id == b[0] || id in b[1..];
      }
      OrderIsUnique(times, a[1..], b[1..]);
    }
  }

  // ---------------------------------------------------------------- pages

  datatype Refused = UnknownCursor(cursor: Id)

  function Matching(t: Table, f: Filter): set<Id> {
    set id | id in t && Matches(f, t[id])
  }

  /** The matching rows that follow the anchor. */
  function Eligible(t: Table, f: Filter, after: Option<Id>): set<Id>
    requires after.Some? ==> after.value in t
  {
    set id | id in t && Matches(f, t[id]) && (after.Some? ==> Newer(TimesOf(t), after.value, id))
  }

  function Take<T>(s: seq<T>, n: nat): seq<T> {
    if |s| <= n then s else s[..n]
  }

  ghost function ListPage(t: Table, f: Filter, limit: nat, after: Option<Id>): Result<seq<Id>, Refused> {
    if after.Some? && after.value !in t then Err(UnknownCursor(after.value))
    else Ok(Take(Listed(TimesOf(t), Eligible(t, f, after)), limit))
  }

  function NextCursor(page: seq<Id>, limit: nat): Option<Id>
    requires limit >= 1
  {
    if |page| == limit then Some(page[|page| - 1]) else None
  }

  /** The page begins with the latest rows, and rows of one instant come by falling identifier. */
  lemma PageIsNewestFirst(t: Table, f: Filter, limit: nat, after: Option<Id>, i: nat, j: nat)
    requires ListPage(t, f, limit, after).Ok? && i < j < |ListPage(t, f, limit, after).value|
    ensures var page := ListPage(t, f, limit, after).value;
            && page[i] in t && page[j] in t
            && (t[page[i]].at > t[page[j]].at || (t[page[i]].at == t[page[j]].at && page[i] > page[j]))
    ensures after.Some? ==>
              var first := ListPage(t, f, limit, after).value[0];
              && after.value in t && first in t
              && (t[after.value].at > t[first].at || (t[after.value].at == t[first].at && after.value > first))
  {
    PageIsTheTop(t, f, limit, after);
    var page := ListPage(t, f, limit, after).value;
    assert page[0] in page && page[i] in page && page[j] in page;
  }

  /**
   * A page is the top of what follows the anchor: ordered, matching, never longer than asked, and short only at the
   * end.
   */
  lemma PageIsTheTop(t: Table, f: Filter, limit: nat, after: Option<Id>)
    requires ListPage(t, f, limit, after).Ok?
    ensures var page := ListPage(t, f, limit, after).value;
            && |page| <= limit
            && Known(TimesOf(t), page) && Descending(TimesOf(t), page)
            && (forall id | id in page :: id in Eligible(t, f, after))
            && (forall id | id in Eligible(t, f, after) && id !in page ::
                  |page| == limit && forall i | 0 <= i < |page| :: Newer(TimesOf(t), page[i], id))
  {
    var times, s := TimesOf(t), Eligible(t, f, after);
    var all := Listed(times, s);
    ListedIsOrdered(times, s);
    forall id | id in s && id !in Take(all, limit)
      ensures |Take(all, limit)| == limit
      ensures forall i | 0 <= i < |Take(all, limit)| :: Newer(times, Take(all, limit)[i], id)
    {
      assert id in all;
      var k :| 0 <= k < |all| && all[k] == id;
      assert |all| > limit && Take(all, limit) == all[..limit];
      assert forall i | 0 <= i < limit :: Take(all, limit)[i] == all[i] && all[i] in Take(all, limit);
    }
  }

  // ---------------------------------------------------------------- following the cursors

  function Flat(pages: seq<seq<Id>>): seq<Id> {
    if pages == [] then [] else pages[0] + Flat(pages[1..])
  }

  /**
   * One request for each table, each continuing from the last page's cursor, none refused, until no cursor is handed
   * back.
   */
  ghost predicate Followed(ts: seq<Table>, f: Filter, limit: nat, after: Option<Id>, pages: seq<seq<Id>>)
    requires limit >= 1
    decreases |ts|
  {
    && |ts| == |pages| > 0
    && ListPage(ts[0], f, limit, after) == Ok(pages[0])
    && match NextCursor(pages[0], limit)
       case None => |ts| == 1
       case Some(c) => Followed(ts[1..], f, limit, Some(c), pages[1..])
  }

  /** A row's timestamp never changes, so one clock serves every table of a walk. */
  predicate Agree(times: Times, ts: seq<Table>) {
    forall k, id | 0 <= k < |ts| && id in ts[k] :: id in times && times[id] == ts[k][id].at
  }

  predicate ThereThroughout(ts: seq<Table>, f: Filter, id: Id) {
    forall k | 0 <= k < |ts| :: id in ts[k] && Matches(f, ts[k][id])
  }

  predicate Follows(times: Times, after: Option<Id>, id: Id) {
    after.Some? ==> after.value in times && id in times && Newer(times, after.value, id)
  }

  lemma PageAgainst(times: Times, t: Table, f: Filter, limit: nat, after: Option<Id>, page: seq<Id>)
    requires forall id | id in t :: id in times && times[id] == t[id].at
    requires ListPage(t, f, limit, after) == Ok(page)
    ensures Known(times, page) && Descending(times, page)
    ensures forall id | id in page :: id in t && Matches(f, t[id]) && Follows(times, after, id)
    ensures forall id | id in t && Matches(f, t[id]) && Follows(times, after, id) && id !in page ::
              |page| == limit && forall i | 0 <= i < limit :: Newer(times, page[i], id)
  {
    PageIsTheTop(t, f, limit, after);
  }

  lemma FirstPage(times: Times, ts: seq<Table>, f: Filter, limit: nat, after: Option<Id>, pages: seq<seq<Id>>)
    requires limit >= 1 && Agree(times, ts) && Followed(ts, f, limit, after, pages)
    ensures Known(times, pages[0]) && Descending(times, pages[0])
    ensures forall id | id in pages[0] :: id in ts[0] && Matches(f, ts[0][id]) && Follows(times, after, id)
    ensures forall id | id in ts[0] && Matches(f, ts[0][id]) && Follows(times, after, id) && id !in pages[0] ::
              |pages[0]| == limit && forall i | 0 <= i < limit :: Newer(times, pages[0][i], id)
  {
    PageAgainst(times, ts[0], f, limit, after, pages[0]);
  }

  lemma LaterTables(times: Times, ts: seq<Table>, f: Filter, id: Id)
    requires ts != []
    ensures Agree(times, ts) ==> Agree(times, ts[1..])
    ensures ThereThroughout(ts, f, id) ==> ThereThroughout(ts[1..], f, id)
  {
  }

  /** A matching row that the first page does not show follows the cursor it hands back. */
  lemma UnseenFollowsTheCursor(times: Times, ts: seq<Table>, f: Filter, limit: nat, after: Option<Id>,
                               pages: seq<seq<Id>>, id: Id)
    requires limit >= 1 && Agree(times, ts) && Followed(ts, f, limit, after, pages)
    requires id in ts[0] && Matches(f, ts[0][id]) && Follows(times, after, id) && id !in pages[0]
    ensures var next := NextCursor(pages[0], limit);
            next.Some? && Followed(ts[1..], f, limit, next, pages[1..]) && Follows(times, next, id)
  {
    FirstPage(times, ts, f, limit, after, pages);
    assert Newer(times, pages[0][limit - 1], id);
  }

  /** However the table changes meanwhile, a row there and matching throughout is visited. */
  lemma {:induction false} NothingIsSkipped(times: Times, ts: seq<Table>, f: Filter, limit: nat, after: Option<Id>,
                                            pages: seq<seq<Id>>, id: Id)
    requires limit >= 1 && Agree(times, ts) && Followed(ts, f, limit, after, pages)
    requires ThereThroughout(ts, f, id) && Follows(times, after, id)
    ensures id in Flat(pages)
    decreases |ts|
  {
    if id !in pages[0] {
      UnseenFollowsTheCursor(times, ts, f, limit, after, pages, id);
      LaterTables(times, ts, f, id);
      NothingIsSkipped(times, ts[1..], f, limit, NextCursor(pages[0], limit), pages[1..], id);
    }
  }

  lemma Joined(times: Times, a: seq<Id>, b: seq<Id>)
    requires Known(times, a) && Known(times, b) && Descending(times, a) && Descending(times, b)
    requires a != [] && forall id | id in b :: Follows(times, Some(a[|a| - 1]), id)
    ensures Known(times, a + b) && Descending(times, a + b)
  {
    forall i, j | 0 <= i < |a| && 0 <= j < |b| ensures Newer(times, a[i], b[j]) {
      assert b[j] in b;
    }
  }

  lemma {:induction false} WalkDescends(times: Times, ts: seq<Table>, f: Filter, limit: nat, after: Option<Id>,
                                        pages: seq<seq<Id>>)
    requires limit >= 1 && Agree(times, ts) && Followed(ts, f, limit, after, pages)
    ensures Known(times, Flat(pages)) && Descending(times, Flat(pages))
    ensures forall id | id in Flat(pages) :: Follows(times, after, id)
    decreases |ts|
  {
    FirstPage(times, ts, f, limit, after, pages);
    if NextCursor(pages[0], limit).Some? {
      WalkDescends(times, ts[1..], f, limit, NextCursor(pages[0], limit), pages[1..]);
      Joined(times, pages[0], Flat(pages[1..]));
    } else {
      assert Flat(pages) == pages[0];
    }
  }

  /**
   * The walk while the table changes: strictly newest first, so nothing is visited twice, and every
   * row there and matching throughout is visited. A vanished cursor row would have refused the walk.
   */
  lemma ChangingTableIsVisitedOnce(times: Times, ts: seq<Table>, f: Filter, limit: nat, pages: seq<seq<Id>>)
    requires limit >= 1 && Agree(times, ts) && Followed(ts, f, limit, None, pages)
    ensures Known(times, Flat(pages)) && Descending(times, Flat(pages))
    ensures forall id | ThereThroughout(ts, f, id) :: multiset(Flat(pages))[id] == 1
  {
    WalkDescends(times, ts, f, limit, None, pages);
    forall id | ThereThroughout(ts, f, id) ensures multiset(Flat(pages))[id] == 1 {
      NothingIsSkipped(times, ts, f, limit, None, pages, id);
      CountedOnce(Flat(pages), id);
    }
  }

  lemma {:induction false} CountedOnce(s: seq<Id>, id: Id)
    requires id in s && forall i, j | 0 <= i < j < |s| :: s[i] != s[j]
    ensures multiset(s)[id] == 1
  {
    assert s == [s[0]] + s[1..];
    if s[0] == id {
      assert id !in s[1..];
    } else {
      CountedOnce(s[1..], id);
    }
  }

  /** Nothing else is shown: what a page holds was there and matching when that page was read. */
  lemma {:induction false} PagesShowWhatWasThere(ts: seq<Table>, f: Filter, limit: nat, after: Option<Id>,
                                                 pages: seq<seq<Id>>, k: nat, id: Id)
    requires limit >= 1 && Followed(ts, f, limit, after, pages) && k < |pages| && id in pages[k]
    ensures id in ts[k] && Matches(f, ts[k][id])
    decreases k
  {
    if k == 0 {
      PageIsTheTop(ts[0], f, limit, after);
    } else {
      PagesShowWhatWasThere(ts[1..], f, limit, NextCursor(pages[0], limit), pages[1..], k - 1, id);
    }
  }

  // Every outcome carries the pages read.
  datatype Browsed =
    | Finished(pages: seq<seq<Id>>)
    | Stopped(pages: seq<seq<Id>>, cursor: Id)
    | Unfinished(pages: seq<seq<Id>>)

  function OnePageMore(page: seq<Id>, b: Browsed): Browsed {
    match b
    case Finished(pages) => Finished([page] + pages)
    case Stopped(pages, c) => Stopped([page] + pages, c)
    case Unfinished(pages) => Unfinished([page] + pages)
  }

  /** What a client that keeps following cursors meets, one table for each of its requests. */
  ghost function Browse(ts: seq<Table>, f: Filter, limit: nat, after: Option<Id>): Browsed
    requires limit >= 1
    decreases |ts|
  {
    if ts == [] then Unfinished([])
    else
      match ListPage(ts[0], f, limit, after)
      case Err(UnknownCursor(c)) => Stopped([], c)
      case Ok(page) =>
        var next := NextCursor(page, limit);
        if next.None? then Finished([page]) else OnePageMore(page, Browse(ts[1..], f, limit, next))
  }

  ghost predicate WalkFinished(ts: seq<Table>, f: Filter, limit: nat, after: Option<Id>, pages: seq<seq<Id>>)
    requires limit >= 1
  {
    |pages| <= |ts| && Followed(ts[..|pages|], f, limit, after, pages)
  }

  /** The cursor the last page handed back was there and matching when that page was read, and is not there now. */
  predicate CursorVanished(ts: seq<Table>, f: Filter, limit: nat, after: Option<Id>, pages: seq<seq<Id>>, c: Id)
    requires limit >= 1
  {
    var k := |pages|;
    && k < |ts| && c !in ts[k]
    && if k == 0 then after == Some(c)
       else NextCursor(pages[k - 1], limit) == Some(c) && c in ts[k - 1] && Matches(f, ts[k - 1][c])
  }

  /** A client that was stopped was stopped by the row it had just been shown last vanishing, and by nothing else. */
  lemma {:induction false} OnlyAVanishedCursorStops(ts: seq<Table>, f: Filter, limit: nat, after: Option<Id>)
    requires limit >= 1
    ensures var b := Browse(ts, f, limit, after);
            && (b.Finished? ==> WalkFinished(ts, f, limit, after, b.pages))
            && (b.Stopped? ==> CursorVanished(ts, f, limit, after, b.pages, b.cursor))
    decreases |ts|
  {
    if ts != [] && (after.Some? ==> after.value in ts[0]) {
      var page := ListPage(ts[0], f, limit, after).value;
      var next := NextCursor(page, limit);
      if next.Some? {
        OnlyAVanishedCursorStops(ts[1..], f, limit, next);
        var b := Browse(ts[1..], f, limit, next);
        if b.Finished? { FinishedLater(ts, f, limit, after, b.pages); }
        if b.Stopped? { StoppedLater(ts, f, limit, after, b.pages, b.cursor); }
      } else {
        assert ts[..1][0] == ts[0];
      }
    }
  }

  lemma FinishedLater(ts: seq<Table>, f: Filter, limit: nat, after: Option<Id>, pages: seq<seq<Id>>)
    requires limit >= 1 && ts != [] && ListPage(ts[0], f, limit, after).Ok?
    requires var next := NextCursor(ListPage(ts[0], f, limit, after).value, limit);
             next.Some? && WalkFinished(ts[1..], f, limit, next, pages)
    ensures WalkFinished(ts, f, limit, after, [ListPage(ts[0], f, limit, after).value] + pages)
  {
    assert ts[..|pages| + 1][1..] == ts[1..][..|pages|];
  }

  lemma StoppedLater(ts: seq<Table>, f: Filter, limit: nat, after: Option<Id>, pages: seq<seq<Id>>, c: Id)
    requires limit >= 1 && ts != [] && ListPage(ts[0], f, limit, after).Ok?
    requires var next := NextCursor(ListPage(ts[0], f, limit, after).value, limit);
             next.Some? && CursorVanished(ts[1..], f, limit, next, pages, c)
    ensures CursorVanished(ts, f, limit, after, [ListPage(ts[0], f, limit, after).value] + pages, c)
  {
    PageIsTheTop(ts[0], f, limit, after);
    var page := ListPage(ts[0], f, limit, after).value;
    assert page[limit - 1] in page;
  }

  /** The identifiers ever used that come after an anchor. */
  function Beyond(times: Times, after: Option<Id>): set<Id> {
    set id | id in times && Follows(times, after, id)
  }

  function Members(s: seq<Id>): (m: set<Id>)
    ensures forall id :: id in m <==> id in s
  {
    if s == [] then {} else {s[0]} + Members(s[1..])
  }

  lemma {:induction false} MembersCount(s: seq<Id>)
    requires forall i, j | 0 <= i < j < |s| :: s[i] != s[j]
    ensures |Members(s)| == |s|
  {
    if s != [] {
      MembersCount(s[1..]);
      assert s[0] !in s[1..];
    }
  }

  lemma DisjointParts(shown: set<Id>, rest: set<Id>, all: set<Id>)
    requires shown <= all && rest <= all && shown !! rest
    ensures |rest| + |shown| <= |all|
  {
    SubsetIsSmaller(shown + rest, all);
  }

  lemma FullPageUsesUp(times: Times, t: Table, f: Filter, limit: nat, after: Option<Id>, page: seq<Id>)
    requires limit >= 1 && (forall id | id in t :: id in times && times[id] == t[id].at)
    requires ListPage(t, f, limit, after) == Ok(page) && NextCursor(page, limit).Some?
    ensures |Beyond(times, NextCursor(page, limit))| + limit <= |Beyond(times, after)|
  {
    PageAgainst(times, t, f, limit, after, page);
    MembersCount(page);
    PageIsBeyond(times, after, page);
    DisjointParts(Members(page), Beyond(times, Some(page[limit - 1])), Beyond(times, after));
  }

  lemma PageIsBeyond(times: Times, after: Option<Id>, page: seq<Id>)
    requires page != [] && Known(times, page) && Descending(times, page)
    requires forall id | id in page :: Follows(times, after, id)
    ensures var rest := Beyond(times, Some(page[|page| - 1]));
            Members(page) <= Beyond(times, after) && rest <= Beyond(times, after) && Members(page) !! rest
  {
    var last := page[|page| - 1];
    assert last in page;
    forall id | id in page ensures id == last || Newer(times, id, last) {
      var i :| 0 <= i < |page| && page[i] == id;
    }
  }

  /**
   * Following cursors ends: with more requests than full pages of everything beyond the anchor, the walk has finished
   * or been stopped.
   */
  lemma {:induction false} BrowsingEnds(times: Times, ts: seq<Table>, f: Filter, limit: nat, after: Option<Id>)
    requires limit >= 1 && Agree(times, ts) && limit * |ts| > |Beyond(times, after)|
    ensures !Browse(ts, f, limit, after).Unfinished?
    decreases |ts|
  {
    if ListPage(ts[0], f, limit, after).Ok? {
      var page := ListPage(ts[0], f, limit, after).value;
      var next := NextCursor(page, limit);
      if next.Some? {
        FullPageUsesUp(times, ts[0], f, limit, after, page);
        assert limit * |ts| == limit * |ts[1..]| + limit;
        BrowsingEnds(times, ts[1..], f, limit, next);
      }
    }
  }

  // ---------------------------------------------------------------- a table that stands still

  ghost function Walk(t: Table, f: Filter, limit: nat, after: Option<Id>): seq<seq<Id>>
    requires limit >= 1 && (after.Some? ==> after.value in t)
    decreases |Eligible(t, f, after)|
  {
    var page := ListPage(t, f, limit, after).value;
    var next := NextCursor(page, limit);
    if next.None? then [page]
    else
      LessRemains(t, f, limit, after);
      [page] + Walk(t, f, limit, next)
  }

  lemma LessRemains(t: Table, f: Filter, limit: nat, after: Option<Id>)
    requires limit >= 1 && (after.Some? ==> after.value in t)
    requires NextCursor(ListPage(t, f, limit, after).value, limit).Some?
    ensures var c := NextCursor(ListPage(t, f, limit, after).value, limit).value;
            c in t && |Eligible(t, f, Some(c))| < |Eligible(t, f, after)|
  {
    PageIsTheTop(t, f, limit, after);
    var page := ListPage(t, f, limit, after).value;
    var c := page[|page| - 1];
    assert c in page;
    SubsetIsSmaller(Eligible(t, f, Some(c)), Eligible(t, f, after));
    assert c in Eligible(t, f, after) && c !in Eligible(t, f, Some(c));
  }

  function Still(t: Table, n: nat): seq<Table> {
    seq(n, _ => t)
  }

  lemma {:induction false} WalkIsFollowed(t: Table, f: Filter, limit: nat, after: Option<Id>)
    requires limit >= 1 && (after.Some? ==> after.value in t)
    ensures var pages := Walk(t, f, limit, after); Followed(Still(t, |pages|), f, limit, after, pages)
    decreases |Eligible(t, f, after)|
  {
    var pages := Walk(t, f, limit, after);
    var next := NextCursor(ListPage(t, f, limit, after).value, limit);
    if next.Some? {
      LessRemains(t, f, limit, after);
      WalkIsFollowed(t, f, limit, next);
      assert Still(t, |pages|)[1..] == Still(t, |pages[1..]|);
    }
  }

  /** Every page but the last is full, and the last is not. */
  lemma {:induction false} WalkLength(ts: seq<Table>, f: Filter, limit: nat, after: Option<Id>, pages: seq<seq<Id>>)
    requires limit >= 1 && Followed(ts, f, limit, after, pages)
    ensures limit * (|pages| - 1) <= |Flat(pages)| < limit * |pages|
    decreases |ts|
  {
    PageIsTheTop(ts[0], f, limit, after);
    if NextCursor(pages[0], limit).Some? {
      WalkLength(ts[1..], f, limit, NextCursor(pages[0], limit), pages[1..]);
      assert limit * (|pages| - 1) == limit * (|pages| - 2) + limit;
      assert limit * |pages| == limit * (|pages| - 1) + limit;
    } else {
      assert Flat(pages) == pages[0];
    }
  }

  lemma QuotientIs(n: nat, d: nat, q: nat)
    requires d >= 1 && d * q <= n < d * (q + 1)
    ensures n / d == q
  {
    var r := n / d;
    assert n == d * r + n % d;
    Scaled(d, q, r + 1);
    Scaled(d, r, q + 1);
  }

  lemma {:induction false} WalkShowsOnlyMatching(t: Table, n: nat, f: Filter, limit: nat, after: Option<Id>,
                                                 pages: seq<seq<Id>>, id: Id)
    requires limit >= 1 && Followed(Still(t, n), f, limit, after, pages) && id in Flat(pages)
    ensures id in Matching(t, f)
    decreases n
  {
    PageIsTheTop(t, f, limit, after);
    if id !in pages[0] {
      assert Still(t, n)[1..] == Still(t, n - 1);
      WalkShowsOnlyMatching(t, n - 1, f, limit, NextCursor(pages[0], limit), pages[1..], id);
    }
  }

  /**
   * On a table that stands still, following the cursors lists exactly the filtered table in order, in floor(n / L) + 1
   * pages.
   */
  lemma StillTableIsListed(t: Table, n: nat, f: Filter, limit: nat, pages: seq<seq<Id>>)
    requires limit >= 1 && Followed(Still(t, n), f, limit, None, pages)
    ensures Flat(pages) == Listed(TimesOf(t), Matching(t, f))
    ensures |pages| == |Matching(t, f)| / limit + 1
  {
    var times := TimesOf(t);
    WalkDescends(times, Still(t, n), f, limit, None, pages);
    ListedIsOrdered(times, Matching(t, f));
    forall id ensures id in Flat(pages) <==> id in Listed(times, Matching(t, f)) {
      if id in Matching(t, f) { NothingIsSkipped(times, Still(t, n), f, limit, None, pages, id); }
      if id in Flat(pages) { WalkShowsOnlyMatching(t, n, f, limit, None, pages, id); }
    }
    OrderIsUnique(times, Flat(pages), Listed(times, Matching(t, f)));
    WalkLength(Still(t, n), f, limit, None, pages);
    QuotientIs(|Matching(t, f)|, limit, |pages| - 1);
  }

  /** Such a walk always exists: no cursor it was handed is ever refused, and it ends. */
  lemma StillTableCanBeWalked(t: Table, f: Filter, limit: nat)
    requires limit >= 1
    ensures var pages := Walk(t, f, limit, None);
            && Followed(Still(t, |pages|), f, limit, None, pages)
            && Flat(pages) == Listed(TimesOf(t), Matching(t, f))
  {
    WalkIsFollowed(t, f, limit, None);
    StillTableIsListed(t, |Walk(t, f, limit, None)|, f, limit, Walk(t, f, limit, None));
  }
}
