/** What a caller sees: listing, direct fetch and sync decide separately, and must agree. */
module Visibility {
  import opened Units
  import opened Listing

  type Follows = set<(Did, Did)>

  datatype GetError = BadRequest | NotFound

  /** What a caller may see: public units, network units of authors they follow, limited units for them. */
  predicate Visible(follows: Follows, caller: Option<Did>, u: Unit) {
    match u.Vis()
    case Public => true
    case Network => caller.Some? && (caller.value, u.author) in follows
    case Limited => caller.Some? && caller.value in u.Audience()
  }

  /** `GET /v1/units/{id}`. `isUuid` tells which ids are UUIDs; others are refused before the lookup. */
  function GetById(store: UnitMap, follows: Follows, caller: Option<Did>, isUuid: Id -> bool, id: Id)
    : Result<Unit, GetError>
  {
    if !isUuid(id) then Err(BadRequest)
    else if id !in store then Err(NotFound)
    else
      var u := store[id];
      match u.Vis()
      case Public => Ok(u)
      case Network =>
        if caller.None? then Err(NotFound)
        else if (caller.value, u.author) !in follows then Err(NotFound)
        else Ok(u)
      case Limited =>
        if caller.None? then Err(NotFound)
        else if caller.value !in u.Audience() then Err(NotFound)
        else Ok(u)
  }

  /** The filter of `GET /v1/units`; `following` is the caller's follow list. */
  function ListFilter(p: Params, caller: Option<Did>, following: seq<Did>): UnitFilter {
    if caller.None? || following == [] then BuildFilter(p, [Public])
    else BuildFilter(p, [Public, Network]).(networkForAuthors := following)
  }

  /** `following` is what the follow table says about the caller. */
  ghost predicate IsFollowList(follows: Follows, caller: Option<Did>, following: seq<Did>) {
    caller.Some? ==> forall d :: d in following <==> (caller.value, d) in follows
  }

  /** The ids a caller can fetch, apart from limited units. */
  function Fetchable(store: UnitMap, follows: Follows, caller: Option<Did>, isUuid: Id -> bool): set<Id> {
    set id | id in store && store[id].Vis() != Limited && GetById(store, follows, caller, isUuid, id).Ok?
  }

  /** The ids of the non-limited units a caller may see. */
  function VisibleIds(store: UnitMap, follows: Follows, caller: Option<Did>): set<Id> {
    set id | id in store && store[id].Vis() != Limited && Visible(follows, caller, store[id])
  }

  lemma ListMatchesVisible(
    store: UnitMap, follows: Follows, caller: Option<Did>, following: seq<Did>, limit: Option<nat>)
    requires IsFollowList(follows, caller, following)
    ensures Matching(store, ListFilter(NoParams(None, limit), caller, following)) == VisibleIds(store, follows, caller)
  {
  }

  /** For every caller, follow table and store, and whatever the page size, all unfiltered list pages
      together are exactly the non-limited units the caller may see, in id order. They are the units a
      direct fetch would return to that caller if and only if all of their ids are UUIDs. */
  lemma {:induction false} ListingAgreesWithFetch(
    store: UnitMap, follows: Follows, caller: Option<Did>, isUuid: Id -> bool,
    following: seq<Did>, limit: Option<nat>, pages: seq<Page>)
    requires Keyed(store) && IsFollowList(follows, caller, following)
    requires FollowsCursors(seq(|pages|, _ => store), ListFilter(NoParams(None, limit), caller, following), pages)
    ensures Received(pages) == Range(store, VisibleIds(store, follows, caller))
    ensures IdSet(Received(pages)) == Fetchable(store, follows, caller, isUuid) <==>
              forall id :: id in VisibleIds(store, follows, caller) ==> isUuid(id)
  {
    ListMatchesVisible(store, follows, caller, following, limit);
    QuiescentPagingIsExact(store, ListFilter(NoParams(None, limit), caller, following), pages);
    RangeLists(store, VisibleIds(store, follows, caller));
    ListsIdSet(store, Received(pages), VisibleIds(store, follows, caller));
    FetchableAreVisible(store, follows, caller, isUuid);
  }

  lemma FetchableAreVisible(store: UnitMap, follows: Follows, caller: Option<Did>, isUuid: Id -> bool)
    ensures Fetchable(store, follows, caller, isUuid) == set id | id in VisibleIds(store, follows, caller) && isUuid(id)
  {
  }

  /** Who is sent what by a direct fetch: the stored unit, if the id is a UUID and the unit is public, or
      a network unit whose author the caller follows, or a limited unit with the caller in its audience.
      A malformed id is a bad request, and everything else looks like an id that is not stored. */
  lemma FetchIff(store: UnitMap, follows: Follows, caller: Option<Did>, isUuid: Id -> bool, id: Id)
    ensures var r := GetById(store, follows, caller, isUuid, id);
            && (r.Ok? ==> id in store && r.value == store[id])
            && (r == Err(BadRequest) <==> !isUuid(id))
            && (id in store ==>
                  var u := store[id];
                  var open := u.visibility == None || u.visibility == Some(Public);
                  var followed := u.visibility == Some(Network) && caller.Some? && (caller.value, u.author) in follows;
                  var addressed := && u.visibility == Some(Limited) && u.audience.Some?
                                   && exists i :: 0 <= i < |u.audience.value| && caller == Some(u.audience.value[i]);
                  (r.Ok? <==> isUuid(id) && (open || followed || addressed)))
  {
  }

  /** `kept` is the store with units taken away that the caller may not see. */
  ghost predicate Censored(store: UnitMap, kept: UnitMap, follows: Follows, caller: Option<Did>) {
    && Extends(kept, store)
    && forall id :: id in store && Visible(follows, caller, store[id]) ==> id in kept
  }

  /** Existence is not leaked: direct fetch and every page of every listing, under any parameters, answer
      a caller as they would if any of the units that caller may not see were not stored at all. */
  lemma HiddenUnitsDoNotShow(
    store: UnitMap, kept: UnitMap, follows: Follows, caller: Option<Did>, isUuid: Id -> bool, id: Id,
    p: Params, following: seq<Did>)
    requires Keyed(store) && Censored(store, kept, follows, caller) && IsFollowList(follows, caller, following)
    ensures GetById(kept, follows, caller, isUuid, id) == GetById(store, follows, caller, isUuid, id)
    ensures ListUnits(kept, ListFilter(p, caller, following)) == ListUnits(store, ListFilter(p, caller, following))
    ensures ListUnits(kept, SyncFilter(p)) == ListUnits(store, SyncFilter(p))
  {
    hide ListUnits;
    var f := ListFilter(p, caller, following);
    assert forall x :: x in store && Matches(f, store[x]) ==> Visible(follows, caller, store[x]);
    SamePage(store, kept, f);
    assert forall x :: x in store && Matches(SyncFilter(p), store[x]) ==> Visible(follows, caller, store[x]);
    SamePage(store, kept, SyncFilter(p));
  }

  lemma SamePage(store: UnitMap, kept: UnitMap, f: UnitFilter)
    requires Keyed(store) && Extends(kept, store)
    requires forall x :: x in store && Matches(f, store[x]) ==> x in kept
    ensures ListUnits(kept, f) == ListUnits(store, f)
  {
    hide ListUnits, Matches;
    ListUnitsIsPage(kept, f);
    ListUnitsIsPage(store, f);
    assert Matching(kept, f) == Matching(store, f);
    var page := ListUnits(kept, f);
    assert Lists(store, page.units, IdSet(page.units));
    PageIsUnique(store, f, page);
  }

  /** A pulled unit is stored without a check of its id, so a unit can be listed to everybody and fetched
      by nobody. */
  lemma ListedUnitCanBeUnfetchable(u: Unit, follows: Follows, caller: Option<Did>)
    requires u.IsPublic()
    ensures u.id in VisibleIds(map[u.id := u], follows, caller)
    ensures GetById(map[u.id := u], follows, caller, id => id != u.id, u.id) == Err(BadRequest)
  {
  }

  /** All sync pages together are exactly the public units, for every caller alike. */
  lemma {:induction false} SyncIsPublic(store: UnitMap, limit: Option<nat>, pages: seq<Page>)
    requires Keyed(store)
    requires FollowsCursors(seq(|pages|, _ => store), SyncFilter(NoParams(None, limit)), pages)
    ensures Received(pages) == Range(store, PublicIds(store))
  {
    QuiescentPagingIsExact(store, SyncFilter(NoParams(None, limit)), pages);
    assert Matching(store, SyncFilter(NoParams(None, limit))) == PublicIds(store);
  }

  /** Why an empty follow list is a case of its own: to storage an empty author list means no
      restriction, so asking for network units with it would list those of every author. */
  lemma EmptyFollowListNeedsGuard(p: Params, u: Unit)
    requires u.Vis() == Network
    requires Matches(BuildFilter(p, []), u)
    ensures Matches(BuildFilter(p, [Public, Network]), u)
    ensures forall caller :: !Matches(ListFilter(p, caller, []), u)
  {
  }
}
