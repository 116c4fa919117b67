/** Filtered, keyset-paged listing of units (MemoryStorage) and what a client that follows the
    cursors receives. */
module Listing {
  import opened Units

  datatype UnitFilter = UnitFilter(
    unitTypes: seq<UnitType>,
    author: Option<Did>,
    since: Option<nat>,
    after: Option<Id>,
    limit: nat,
    visibilities: seq<Visibility>,
    networkForAuthors: seq<Did>)

  datatype Page = Page(units: seq<Unit>, hasMore: bool)

  /** Everything a filter asks of a unit apart from the cursor. */
  predicate Matches(f: UnitFilter, u: Unit) {
    && (f.unitTypes == [] || u.unitType in f.unitTypes)
    && (f.author.Some? ==> u.author == f.author.value)
    && (f.since.Some? ==> f.since.value <= u.createdAt)
    && (f.visibilities == [] ||
        (&& u.Vis() in f.visibilities
         && (u.Vis() == Network && f.networkForAuthors != [] ==> u.author in f.networkForAuthors)))
  }

  function IdsOf(us: seq<Unit>): seq<Id> {
    seq(|us|, i requires 0 <= i < |us| => us[i].id)
  }

  function IdSet(us: seq<Unit>): set<Id> {
    set i | 0 <= i < |us| :: us[i].id
  }

  /** `us` are units of the store, listed in strictly ascending id order; their ids are `ids`. */
  ghost predicate Lists(units: UnitMap, us: seq<Unit>, ids: set<Id>) {
    && Enumerates(IdsOf(us), ids)
    && forall i :: 0 <= i < |us| ==> us[i].id in units && units[us[i].id] == us[i]
  }

  /** The units of a store under the given ids, in the iteration order of the store's BTreeMap. */
  function Range(units: UnitMap, ids: set<Id>): seq<Unit>
    requires ids <= units.Keys
  {
    if ids == {} then [] else [units[Least(ids)]] + Range(units, ids - {Least(ids)})
  }

  function Keep(f: UnitFilter, us: seq<Unit>): seq<Unit> {
    if us == [] then []
    else if Matches(f, us[0]) then [us[0]] + Keep(f, us[1..])
    else Keep(f, us[1..])
  }

  function Take<T>(s: seq<T>, n: nat): seq<T> {
    if n < |s| then s[..n] else s
  }

  /** The iterator chain: range after the cursor, filter, take limit + 1, truncate. */
  function ListUnits(units: UnitMap, f: UnitFilter): Page {
    var results := Take(Keep(f, Range(units, set id | id in units && Beyond(f.after, id))), f.limit + 1);
    var hasMore := |results| > f.limit;
    Page(if hasMore then results[..f.limit] else results, hasMore)
  }

  /** The query parameters of a listing. */
  datatype Params = Params(
    unitTypes: seq<UnitType>, author: Option<Did>, since: Option<nat>, after: Option<Id>, limit: Option<nat>)

  /** The page size: 50 when absent, otherwise clamped to 1..500. */
  function EffectiveLimit(limit: Option<nat>): (n: nat)
    ensures 1 <= n <= 500
    ensures limit == None ==> n == 50
    ensures limit.Some? && 1 <= limit.value <= 500 ==> n == limit.value
    ensures limit == Some(0) ==> n == 1
    ensures limit.Some? && limit.value > 500 ==> n == 500
  {
    if limit.None? then 50 else if limit.value < 1 then 1 else if limit.value > 500 then 500 else limit.value
  }

  function BuildFilter(p: Params, visibilities: seq<Visibility>): UnitFilter {
    UnitFilter(p.unitTypes, p.author, p.since, p.after, EffectiveLimit(p.limit), visibilities, [])
  }

  /** The filter of the sync endpoint: public units only. */
  function SyncFilter(p: Params): UnitFilter {
    BuildFilter(p, [Public])
  }

  function NoParams(after: Option<Id>, limit: Option<nat>): Params {
    Params([], None, None, after, limit)
  }

  /** What the caller of a listing is entitled to: the ids past the cursor that match. */
  function Matching(units: UnitMap, f: UnitFilter): set<Id> {
    set id | id in units && Beyond(f.after, id) && Matches(f, units[id])
  }

  // ---------------------------------------------------------------------------
  // One page
  // ---------------------------------------------------------------------------

  lemma ListsAppend(units: UnitMap, us: seq<Unit>, ids: set<Id>, us': seq<Unit>, ids': set<Id>)
    requires Lists(units, us, ids) && Lists(units, us', ids')
    requires forall x, y :: x in ids && y in ids' ==> x < y
    ensures Lists(units, us + us', ids + ids')
  {
    EnumeratesAppend(IdsOf(us), ids, IdsOf(us'), ids');
    assert IdsOf(us + us') == IdsOf(us) + IdsOf(us');
  }

  lemma {:induction false} ListsAreUnique(units: UnitMap, us: seq<Unit>, us': seq<Unit>, ids: set<Id>)
    requires Lists(units, us, ids) && Lists(units, us', ids)
    ensures us == us'
  {
    AscendingIsUnique(IdsOf(us), ids);
    AscendingIsUnique(IdsOf(us'), ids);
    assert |IdsOf(us)| == |us| && |IdsOf(us')| == |us'|;
    forall i | 0 <= i < |us| ensures us[i] == us'[i] {
      assert IdsOf(us)[i] == us[i].id && IdsOf(us')[i] == us'[i].id;
    }
  }

  lemma {:induction false} RangeLists(units: UnitMap, ids: set<Id>)
    requires Keyed(units) && ids <= units.Keys
    ensures Lists(units, Range(units, ids), ids)
  {
    if ids != {} {
      var m := Least(ids);
      RangeLists(units, ids - {m});
      EnumeratesOne(m);
      assert IdsOf([units[m]]) == [m];
      ListsAppend(units, [units[m]], {m}, Range(units, ids - {m}), ids - {m});
      assert {m} + (ids - {m}) == ids;
    }
  }

  lemma {:induction false} KeepLists(units: UnitMap, f: UnitFilter, us: seq<Unit>, ids: set<Id>)
    requires Lists(units, us, ids)
    ensures Lists(units, Keep(f, us), set id | id in ids && id in units && Matches(f, units[id]))
    decreases |us|
  {
    hide Matches;
    var hits := set id | id in ids && id in units && Matches(f, units[id]);
    if us == [] {
      assert forall x :: x in ids ==> x in IdsOf(us);
      assert hits == {};
    } else {
      var u, rest := us[0], us[1..];
      EnumeratesRest(IdsOf(us), ids);
      assert IdsOf(us)[1..] == IdsOf(rest) && IdsOf(us)[0] == u.id;
      KeepLists(units, f, rest, ids - {u.id});
      var restHits := set id | id in ids - {u.id} && id in units && Matches(f, units[id]);
      assert units[u.id] == u;
      assert Keep(f, us) == if Matches(f, u) then [u] + Keep(f, rest) else Keep(f, rest);
      if Matches(f, u) {
        EnumeratesOne(u.id);
        assert IdsOf([u]) == [u.id];
        ListsAppend(units, [u], {u.id}, Keep(f, rest), restHits);
        assert hits == {u.id} + restHits;
      } else {
        assert Keep(f, us) == Keep(f, rest);
        assert hits == restHits;
      }
    }
  }

  /** A reference definition of a page: the lowest ids past the cursor that match, at most `limit` of
      them and fewer only when there are no more, each with its stored unit, in id order. */
  ghost predicate IsPage(units: UnitMap, f: UnitFilter, p: Page) {
    var low := IdSet(p.units);
    && Lists(units, p.units, low)
    && low <= Matching(units, f)
    && (forall x, y :: x in low && y in Matching(units, f) - low ==> x < y)
    && (p.hasMore <==> low != Matching(units, f))
    && |p.units| <= f.limit
    && (p.hasMore ==> |p.units| == f.limit)
  }

  lemma ListsIdSet(units: UnitMap, us: seq<Unit>, ids: set<Id>)
    requires Lists(units, us, ids)
    ensures IdSet(us) == ids && |us| == |ids|
  {
    EnumeratesLength(IdsOf(us), ids);
    forall x | x in ids ensures x in IdSet(us) {
      assert x in IdsOf(us);
      var i :| 0 <= i < |us| && IdsOf(us)[i] == x;
    }
    forall x | x in IdSet(us) ensures x in ids {
      var i :| 0 <= i < |us| && us[i].id == x;
      assert IdsOf(us)[i] == x;
    }
  }

  lemma ListsPrefix(units: UnitMap, us: seq<Unit>, ids: set<Id>, n: nat)
    requires Lists(units, us, ids) && n <= |us|
    ensures Lists(units, us[..n], IdSet(us[..n]))
    ensures IdSet(us[..n]) <= ids
    ensures forall x, y :: x in IdSet(us[..n]) && y in ids - IdSet(us[..n]) ==> x < y
  {
    var low := IdSet(us[..n]);
    assert IdsOf(us[..n]) == IdsOf(us)[..n];
    forall x | x in low ensures x in ids && x in IdsOf(us[..n]) {
      var i :| 0 <= i < n && us[..n][i].id == x;
      assert IdsOf(us)[i] == x && IdsOf(us[..n])[i] == x;
    }
    forall x, y | x in low && y in ids - low ensures x < y {
      var i :| 0 <= i < n && us[..n][i].id == x;
      assert IdsOf(us)[i] == x;
      var j := BeyondPrefix(us, ids, n, y);
    }
  }

  lemma BeyondPrefix(us: seq<Unit>, ids: set<Id>, n: nat, y: Id) returns (j: nat)
    requires Enumerates(IdsOf(us), ids) && n <= |us|
    requires y in ids && y !in IdSet(us[..n])
    ensures n <= j < |us| && IdsOf(us)[j] == y
  {
    forall k | 0 <= k < n ensures us[k].id in IdSet(us[..n]) {
      assert us[..n][k] == us[k];
    }
    assert y in IdsOf(us);
    j :| 0 <= j < |us| && IdsOf(us)[j] == y;
  }

  /** The listing serves the reference page. */
  lemma ListUnitsIsPage(units: UnitMap, f: UnitFilter)
    requires Keyed(units)
    ensures IsPage(units, f, ListUnits(units, f))
  {
    var range := set id | id in units && Beyond(f.after, id);
    RangeLists(units, range);
    var hits := Keep(f, Range(units, range));
    KeepLists(units, f, Range(units, range), range);
    assert Matching(units, f) == set id | id in range && id in units && Matches(f, units[id]);
    ListsIdSet(units, hits, Matching(units, f));
    var p := ListUnits(units, f);
    var n := if |hits| > f.limit then f.limit else |hits|;
    assert p.units == hits[..n] by {
      assert |hits| > f.limit ==> Take(hits, f.limit + 1)[..f.limit] == hits[..f.limit];
    }
    assert p.hasMore <==> n < |hits|;
    ListsPrefix(units, hits, Matching(units, f), n);
    ListsIdSet(units, p.units, IdSet(p.units));
    assert n < |hits| <==> IdSet(p.units) != Matching(units, f) by {
      assert n == |hits| ==> hits[..n] == hits;
    }
  }

  lemma InitialSegmentsNest(m: set<Id>, low: set<Id>, low': set<Id>)
    requires low <= m && low' <= m
    requires forall x, y :: x in low && y in m - low ==> x < y
    requires forall x, y :: x in low' && y in m - low' ==> x < y
    requires |low| <= |low'|
    ensures low <= low'
  {
    if x :| x in low && x !in low' {
      assert x in m - low';
      forall y | y in low' ensures y in low {
        assert y in m - low ==> x < y;
      }
      SubsetSize(low', low);
    }
  }

  lemma {:induction false} SubsetSize(a: set<Id>, b: set<Id>)
    requires a <= b
    ensures |a| <= |b|
    ensures a != b ==> |a| < |b|
  {
    if a != {} {
      var x :| x in a;
      SubsetSize(a - {x}, b - {x});
    } else if b != {} {
      assert |b| > 0;
    }
  }

  /** The reference page is unique, so a listing that meets it is this listing. */
  lemma PageIsUnique(units: UnitMap, f: UnitFilter, p: Page)
    requires Keyed(units) && IsPage(units, f, p)
    ensures p == ListUnits(units, f)
  {
    var q := ListUnits(units, f);
    ListUnitsIsPage(units, f);
    var m, low, low' := Matching(units, f), IdSet(p.units), IdSet(q.units);
    ListsIdSet(units, p.units, low);
    ListsIdSet(units, q.units, low');
    SubsetSize(low, m);
    SubsetSize(low', m);
    assert |low| == |low'|;
    InitialSegmentsNest(m, low, low');
    InitialSegmentsNest(m, low', low);
    ListsAreUnique(units, p.units, q.units, low);
  }

  // ---------------------------------------------------------------------------
  // Following the cursors
  // ---------------------------------------------------------------------------

  /** The cursor a list response carries: the id of the last unit, absent on an empty page. */
  function PageCursor(p: Page): Option<Id> {
    if p.units == [] then None else Some(p.units[|p.units| - 1].id)
  }

  lemma OneUnitPage(u: Unit, f: UnitFilter)
    requires f.limit >= 1 && Beyond(f.after, u.id) && Matches(f, u)
    ensures ListUnits(map[u.id := u], f) == Page([u], false)
  {
    hide ListUnits;
    var units := map[u.id := u];
    EnumeratesOne(u.id);
    assert IdsOf([u]) == [u.id] && IdSet([u]) == {u.id};
    assert Matching(units, f) == {u.id};
    PageIsUnique(units, f, Page([u], false));
  }

  /** A page's cursor is its highest id; the next request's matches are those this page left off. */
  lemma CursorSplitsMatches(units: UnitMap, f: UnitFilter)
    requires Keyed(units)
    ensures var p := ListUnits(units, f);
            p.units != [] ==>
              && PageCursor(p).value in IdSet(p.units)
              && (forall x :: x in IdSet(p.units) ==> x <= PageCursor(p).value)
              && Matching(units, f.(after := PageCursor(p))) == Matching(units, f) - IdSet(p.units)
    ensures f.limit >= 1 && ListUnits(units, f).hasMore ==> ListUnits(units, f).units != []
  {
    ListUnitsIsPage(units, f);
    var p := ListUnits(units, f);
    if p.units != [] {
      var ids := IdsOf(p.units);
      var last := ids[|ids| - 1];
      assert PageCursor(p) == Some(last);
      forall x | x in IdSet(p.units) ensures x <= last {
        var i :| 0 <= i < |p.units| && p.units[i].id == x;
        assert ids[i] == x;
      }
      assert p.units[|p.units| - 1].id in IdSet(p.units);
      NextMatches(units, f, last, IdSet(p.units));
    }
  }

  lemma NextMatches(units: UnitMap, f: UnitFilter, last: Id, low: set<Id>)
    requires last in low && low <= Matching(units, f)
    requires forall x :: x in low ==> x <= last
    requires forall x, y :: x in low && y in Matching(units, f) - low ==> x < y
    ensures Matching(units, f.(after := Some(last))) == Matching(units, f) - low
  {
  }

  /** A client's pages against a store that may grow between requests: page `i` is served from
      `stores[i]`, its cursor is the next request's `after`, and only the last page says that nothing
      is left. */
  ghost predicate FollowsCursors(stores: seq<UnitMap>, f: UnitFilter, pages: seq<Page>) {
    && |pages| == |stores| && |pages| >= 1
    && pages[0] == ListUnits(stores[0], f)
    && pages[0].hasMore == (|pages| > 1)
    && (|pages| > 1 ==> FollowsCursors(stores[1..], f.(after := PageCursor(pages[0])), pages[1..]))
  }

  ghost predicate Growing(stores: seq<UnitMap>) {
    && (forall i :: 0 <= i < |stores| ==> Keyed(stores[i]))
    && (forall i, j :: 0 <= i <= j < |stores| ==> Extends(stores[i], stores[j]))
  }

  function Received(pages: seq<Page>): seq<Unit> {
    if pages == [] then [] else pages[0].units + Received(pages[1..])
  }

  lemma LaterPagesFollow(units: UnitMap, us: seq<Unit>, ids: set<Id>, us': seq<Unit>, ids': set<Id>, c: Id)
    requires Lists(units, us, ids) && Lists(units, us', ids')
    requires forall x :: x in ids ==> x <= c
    requires forall y :: y in ids' ==> c < y
    ensures Lists(units, us + us', ids + ids')
  {
    ListsAppend(units, us, ids, us', ids');
  }

  /** Paging loses nothing and repeats nothing, whatever the page size and whatever is inserted
      between the requests: what arrives is listed in strictly ascending id order, everything that
      matched at the start is among it, and all of it matches and is held at the end. */
  lemma {:induction false} PagingIsLossless(stores: seq<UnitMap>, f: UnitFilter, pages: seq<Page>)
    requires f.limit >= 1
    requires Growing(stores) && FollowsCursors(stores, f, pages)
    ensures Lists(stores[|stores| - 1], Received(pages), IdSet(Received(pages)))
    ensures Matching(stores[0], f) <= IdSet(Received(pages)) <= Matching(stores[|stores| - 1], f)
    decreases |pages|
  {
    var store, final, p := stores[0], stores[|stores| - 1], pages[0];
    var now := IdSet(p.units);
    ListUnitsIsPage(store, f);
    assert Extends(store, final);
    if |pages| == 1 {
      assert Received(pages) == p.units + Received([]) == p.units;
    } else {
      CursorSplitsMatches(store, f);
      var next := f.(after := PageCursor(p));
      assert Growing(stores[1..]);
      PagingIsLossless(stores[1..], next, pages[1..]);
      var rest := Received(pages[1..]);
      assert stores[1..][|stores[1..]| - 1] == final;
      LaterPagesFollow(final, p.units, now, rest, IdSet(rest), PageCursor(p).value);
      assert Received(pages) == p.units + rest;
      ListsIdSet(final, p.units + rest, now + IdSet(rest));
      assert Matching(store, next) <= Matching(stores[1..][0], next) by {
        assert Extends(store, stores[1]);
      }
      assert Matching(final, next) <= Matching(final, f) by {
        NextMatchesFewer(final, f, PageCursor(p).value);
      }
    }
  }

  lemma NextMatchesFewer(units: UnitMap, f: UnitFilter, c: Id)
    requires Beyond(f.after, c)
    ensures Matching(units, f.(after := Some(c))) <= Matching(units, f)
  {
  }

  /** Over a store that does not change, the pages put together are exactly the matching units in
      id order, so the result does not depend on the page size. */
  lemma {:induction false} QuiescentPagingIsExact(store: UnitMap, f: UnitFilter, pages: seq<Page>)
    requires f.limit >= 1 && Keyed(store)
    requires FollowsCursors(seq(|pages|, _ => store), f, pages)
    ensures Received(pages) == Range(store, Matching(store, f))
  {
    var stores := seq(|pages|, _ => store);
    PagingIsLossless(stores, f, pages);
    RangeLists(store, Matching(store, f));
    ListsAreUnique(store, Received(pages), Range(store, Matching(store, f)), Matching(store, f));
  }

  /** With a limit of zero a listing never advances: the page is empty, carries no cursor and promises
      more whenever anything matches. This is why the handlers clamp the limit to at least one. */
  lemma ZeroLimitNeverAdvances(store: UnitMap, f: UnitFilter)
    requires f.limit == 0 && Keyed(store)
    ensures ListUnits(store, f).hasMore <==> Matching(store, f) != {}
    ensures PageCursor(ListUnits(store, f)) == None
  {
    ListUnitsIsPage(store, f);
  }

  // ---------------------------------------------------------------------------
  // Inbox
  // ---------------------------------------------------------------------------

  function GetInbox(inbox: map<Did, UnitMap>, agent: Did, after: Option<Id>, limit: nat): Page {
    if agent !in inbox then Page([], false) else
      var box := inbox[agent];
      var items := Take(Range(box, set id | id in box && Beyond(after, id)), limit + 1);
      var hasMore := |items| > limit;
      Page(if hasMore then items[..limit] else items, hasMore)
  }

  /** The inbox response names a cursor only when there is more to come. */
  function InboxCursor(p: Page): Option<Id> {
    if p.hasMore && p.units != [] then Some(p.units[|p.units| - 1].id) else None
  }

  function NoFilter(after: Option<Id>, limit: nat): UnitFilter {
    UnitFilter([], None, None, after, limit, [], [])
  }

  function BoxOf(inbox: map<Did, UnitMap>, agent: Did): UnitMap {
    if agent in inbox then inbox[agent] else map[]
  }

  /** An inbox page is the listing of the agent's box under the filter that asks for nothing; it names a
      cursor, the listing's, exactly when there is more. */
  lemma InboxIsUnfilteredListing(inbox: map<Did, UnitMap>, agent: Did, after: Option<Id>, limit: nat)
    requires Keyed(BoxOf(inbox, agent)) && limit >= 1
    ensures var p := GetInbox(inbox, agent, after, limit);
            && p == ListUnits(BoxOf(inbox, agent), NoFilter(after, limit))
            && (p.hasMore <==> InboxCursor(p).Some?)
            && (p.hasMore ==> InboxCursor(p) == PageCursor(p))
  {
    var f, box := NoFilter(after, limit), BoxOf(inbox, agent);
    KeepAll(f, Range(box, set id | id in box && Beyond(after, id)));
    ListUnitsIsPage(box, f);
  }

  /** A client's pages of an inbox that may change between the requests: it goes on while a page names a
      cursor. */
  ghost predicate FollowsInbox(
    inboxes: seq<map<Did, UnitMap>>, agent: Did, after: Option<Id>, limit: nat, pages: seq<Page>)
  {
    && |pages| == |inboxes| && |pages| >= 1
    && pages[0] == GetInbox(inboxes[0], agent, after, limit)
    && InboxCursor(pages[0]).Some? == (|pages| > 1)
    && (|pages| > 1 ==> FollowsInbox(inboxes[1..], agent, InboxCursor(pages[0]), limit, pages[1..]))
  }

  function Boxes(inboxes: seq<map<Did, UnitMap>>, agent: Did): seq<UnitMap> {
    seq(|inboxes|, i requires 0 <= i < |inboxes| => BoxOf(inboxes[i], agent))
  }

  lemma {:induction false} InboxFollowsCursors(
    inboxes: seq<map<Did, UnitMap>>, agent: Did, after: Option<Id>, limit: nat, pages: seq<Page>)
    requires limit >= 1 && Growing(Boxes(inboxes, agent)) && FollowsInbox(inboxes, agent, after, limit, pages)
    ensures FollowsCursors(Boxes(inboxes, agent), NoFilter(after, limit), pages)
    decreases |pages|
  {
    hide GetInbox, ListUnits;
    var boxes, f := Boxes(inboxes, agent), NoFilter(after, limit);
    assert boxes[0] == BoxOf(inboxes[0], agent);
    InboxIsUnfilteredListing(inboxes[0], agent, after, limit);
    if |pages| > 1 {
      assert Boxes(inboxes[1..], agent) == boxes[1..];
      assert Growing(boxes[1..]);
      InboxFollowsCursors(inboxes[1..], agent, InboxCursor(pages[0]), limit, pages[1..]);
    }
  }

  /** Following an inbox to its end while deliveries go on returns every unit that was in it at the start,
      past the cursor, nothing twice, in strictly ascending id order, and only units delivered to it. */
  lemma InboxIsLossless(
    inboxes: seq<map<Did, UnitMap>>, agent: Did, after: Option<Id>, limit: nat, pages: seq<Page>)
    requires limit >= 1 && Growing(Boxes(inboxes, agent)) && FollowsInbox(inboxes, agent, after, limit, pages)
    ensures var first, last := BoxOf(inboxes[0], agent), BoxOf(inboxes[|inboxes| - 1], agent);
            && Lists(last, Received(pages), IdSet(Received(pages)))
            && (forall id :: id in first && Beyond(after, id) ==> id in IdSet(Received(pages)))
            && (forall id :: id in IdSet(Received(pages)) ==> id in last && Beyond(after, id))
  {
    var boxes, f := Boxes(inboxes, agent), NoFilter(after, limit);
    InboxFollowsCursors(inboxes, agent, after, limit, pages);
    PagingIsLossless(boxes, f, pages);
    hide FollowsInbox, FollowsCursors, Received;
    assert boxes[0] == BoxOf(inboxes[0], agent) && boxes[|boxes| - 1] == BoxOf(inboxes[|inboxes| - 1], agent);
    forall id | id in boxes[0] && Beyond(after, id) ensures id in Matching(boxes[0], f) {
    }
  }

  lemma {:induction false} KeepAll(f: UnitFilter, us: seq<Unit>)
    requires forall u :: Matches(f, u)
    ensures Keep(f, us) == us
  {
    if us != [] {
      KeepAll(f, us[1..]);
    }
  }
}
