/** Pull federation: one page, and draining a peer, against the peer's keyset-paged sync endpoint. */
module Federation {
  import opened Units
  import opened Listing
  import opened MemoryStorage

  // ---------------------------------------------------------------------------
  // The serving side
  // ---------------------------------------------------------------------------

  const PAGE_LIMIT: nat := 500

  /** What a pull asks for: everything past the cursor, a full page at a time. */
  function PullFilter(after: Option<Id>): UnitFilter {
    SyncFilter(NoParams(after, Some(PAGE_LIMIT)))
  }

  datatype SyncPage = SyncPage(units: seq<Unit>, cursor: Option<Id>, hasMore: bool, authorReputations: map<Did, real>)

  /** The serving node: its units and the reputations of its registered agents. */
  datatype Provider = Provider(units: UnitMap, agents: map<Did, real>)

  /** The JSON reply of the sync endpoint. */
  function Serve(p: Provider, after: Option<Id>): SyncPage {
    var page := ListUnits(p.units, PullFilter(after));
    SyncPage(page.units, PageCursor(page), page.hasMore,
      map u | u in page.units && u.author in p.agents :: u.author := p.agents[u.author])
  }

  /** The provider's public units the puller has not paged past. */
  function Remaining(provider: UnitMap, cursor: Option<Id>): set<Id> {
    set id | id in PublicIds(provider) && Beyond(cursor, id)
  }

  /** What the sync endpoint has to offer under any parameters a client sends, and what it offers a pull. */
  lemma SyncServesPublic(provider: UnitMap, p: Params, cursor: Option<Id>)
    ensures Matching(provider, SyncFilter(p)) == PublicIds(provider) * Matching(provider, BuildFilter(p, []))
    ensures Matching(provider, PullFilter(cursor)) == Remaining(provider, cursor)
  {
  }

  // ---------------------------------------------------------------------------
  // The pulling side
  // ---------------------------------------------------------------------------

  datatype SyncError = Http | BadStatus(code: nat) | Storage

  /** What happens to a request: it never completes, it is answered with an error status, or the page
      arrives. */
  datatype Outcome = Unreachable | Status(code: nat) | Delivered

  /** Which storage calls fail during one pull: reading the cursor, storing particular units, writing
      particular credibilities, listing peers, writing the cursor. */
  datatype Faults = Faults(getCursor: bool, put: set<Id>, credibility: set<Id>, listPeers: bool, setCursor: bool)

  datatype Attempt = Attempt(outcome: Outcome, faults: Faults)

  predicate Clean(a: Attempt) {
    a.outcome == Delivered && !a.faults.getCursor && a.faults.put == {} && !a.faults.setCursor
  }

  /** What storing a page changes: the unit table and the credibility table. */
  datatype Tables = Tables(units: UnitMap, credibility: map<Id, real>)

  function PeerReputation(peers: seq<PeerInfo>, apiBase: string): real {
    if peers == [] then 0.5
    else if peers[0].apiBase == apiBase then peers[0].reputation
    else PeerReputation(peers[1..], apiBase)
  }

  function AuthorReputation(page: SyncPage, author: Did): real {
    if author in page.authorReputations then page.authorReputations[author] else 0.5
  }

  /** credibility = reputation of the sending node x reputation of the author as the sender reports it */
  function Credibility(page: SyncPage, peerRep: real, author: Did): (c: real) {
    peerRep * AuthorReputation(page, author)
  }

  /** Storing one unit: a known id is left alone, a new unit gets its credibility. */
  function StoreUnit(t: Tables, u: Unit, page: SyncPage, peerRep: real, faults: Faults): Tables {
    if u.id in t.units then t else
      Tables(t.units[u.id := u],
             if u.id in faults.credibility then t.credibility
             else t.credibility[u.id := Clamp(Credibility(page, peerRep, u.author))])
  }

  /** Storing the units of a page in order, up to the first failing insertion. */
  function StoreUnits(t: Tables, us: seq<Unit>, page: SyncPage, peerRep: real, faults: Faults): (Tables, bool)
    decreases |us|
  {
    if us == [] then (t, true)
    else if us[0].id in faults.put then (t, false)
    else StoreUnits(StoreUnit(t, us[0], page, peerRep, faults), us[1..], page, peerRep, faults)
  }

  /** One pull: the new tables, the new cursor for the peer, and the result. */
  function PullOnce(t: Tables, cursor: Option<Id>, provider: Provider, peerRep: real, a: Attempt)
    : (Tables, Option<Id>, Result<bool, SyncError>)
  {
    if a.faults.getCursor then (t, cursor, Err(Storage))
    else match a.outcome
      case Unreachable => (t, cursor, Err(Http))
      case Status(code) => (t, cursor, Err(BadStatus(code)))
      case Delivered =>
        var page := Serve(provider, cursor);
        var (t', stored) := StoreUnits(t, page.units, page, peerRep, a.faults);
        Conclude(t', stored, cursor, page, a.faults.setCursor)
  }

  /** The cursor moves to the end of the page once the whole page is stored. */
  function Conclude(t: Tables, stored: bool, cursor: Option<Id>, page: SyncPage, setCursorFails: bool)
    : (Tables, Option<Id>, Result<bool, SyncError>)
  {
    if !stored then (t, cursor, Err(Storage))
    else if page.cursor.None? then (t, cursor, Ok(page.hasMore))
    else if setCursorFails then (t, cursor, Err(Storage))
    else (t, page.cursor, Ok(page.hasMore))
  }

  /** The cursor is read and a page arrives. */
  predicate Arrives(a: Attempt) {
    !a.faults.getCursor && a.outcome == Delivered
  }

  /** What becomes of a page that arrives. Its units are stored in order up to the first one whose
      insertion fails. If none fails, the cursor moves to the last unit of a page that has any, unless
      writing it fails, and the result says whether there is more. Every failure is a storage error and
      leaves the cursor. */
  ghost predicate StoresPage(t: Tables, t': Tables, cursor: Option<Id>, cursor': Option<Id>, page: Page, faults: Faults,
                             r: Result<bool, SyncError>)
  {
    exists n: nat ::
      && n <= |page.units|
      && (forall i :: 0 <= i < n ==> page.units[i].id !in faults.put)
      && (n < |page.units| ==> page.units[n].id in faults.put)
      && Extends(t.units, t'.units)
      && t'.units.Keys == t.units.Keys + IdSet(page.units[..n])
      && (forall id :: id in t'.units && id !in t.units ==> exists i :: 0 <= i < n && page.units[i] == t'.units[id])
      && var moves := n == |page.units| && page.units != [] && !faults.setCursor;
      && cursor' == (if moves then Some(page.units[|page.units| - 1].id) else cursor)
      && r == (if moves || page.units == [] then Ok(page.hasMore) else Err(Storage))
  }

  class FederationSync {
    const storage: MemoryStorage

    constructor (storage: MemoryStorage)
      ensures this.storage == storage
    {
      this.storage := storage;
    }

    function Held(): Tables
      reads storage
    {
      Tables(storage.units, storage.unitCredibility)
    }

    function PeerReputationFor(apiBase: string, listFails: bool): real
      requires PeersKeyed(storage.peers)
      reads storage
    {
      if listFails then 0.5 else PeerReputation(RankedPeers(storage.peers), apiBase)
    }

    method StoreOne(u: Unit, page: SyncPage, peerRep: real, faults: Faults) returns (ok: bool)
      requires storage.Valid()
      modifies storage`units, storage`unitCredibility
      ensures storage.Valid()
      ensures ok <==> u.id !in faults.put
      ensures Held() == if ok then StoreUnit(old(Held()), u, page, peerRep, faults) else old(Held())
    {
      var put := storage.PutUnit(u, u.id in faults.put);
      if put.Err? && put.error != Conflict {
        return false;
      }
      if put.Ok? {
        var s := storage.SetUnitCredibility(u.id, Credibility(page, peerRep, u.author), u.id in faults.credibility);
        assert s.Ok? <==> u.id !in faults.credibility;
        assert storage.unitCredibility == StoreUnit(old(Held()), u, page, peerRep, faults).credibility;
      }
      ok := true;
    }

    method StorePage(page: SyncPage, peerRep: real, faults: Faults) returns (ok: bool)
      requires storage.Valid()
      modifies storage`units, storage`unitCredibility
      ensures storage.Valid()
      ensures (Held(), ok) == StoreUnits(old(Held()), page.units, page, peerRep, faults)
    {
      var i := 0;
      while i < |page.units|
        invariant 0 <= i <= |page.units| && storage.Valid()
        invariant StoreUnits(old(Held()), page.units, page, peerRep, faults)
               == StoreUnits(Held(), page.units[i..], page, peerRep, faults)
      {
        assert page.units[i..][1..] == page.units[i + 1..];
        ok := StoreOne(page.units[i], page, peerRep, faults);
        if !ok {
          return;
        }
        i := i + 1;
      }
      ok := true;
    }

    method SyncPeerOnce(apiBase: string, provider: Provider, a: Attempt) returns (r: Result<bool, SyncError>)
      requires storage.Valid()
      modifies storage`units, storage`unitCredibility, storage`cursors
      ensures storage.Valid()
      ensures (Held(), storage.GetCursor(apiBase), r)
           == PullOnce(old(Held()), old(storage.GetCursor(apiBase)), provider,
                       old(PeerReputationFor(apiBase, a.faults.listPeers)), a)
      ensures forall url :: url != apiBase ==> storage.GetCursor(url) == old(storage.GetCursor(url))
      ensures !Arrives(a) ==>
                && Held() == old(Held()) && storage.GetCursor(apiBase) == old(storage.GetCursor(apiBase))
                && r == Err(if a.faults.getCursor then Storage else if a.outcome == Unreachable then Http
                            else BadStatus(a.outcome.code))
      ensures Arrives(a) ==>
                StoresPage(old(Held()), Held(), old(storage.GetCursor(apiBase)), storage.GetCursor(apiBase),
                           ListUnits(provider.units, SyncFilter(NoParams(old(storage.GetCursor(apiBase)), Some(500)))),
                           a.faults, r)
      ensures CreditsKept(old(Held()), Held())
      ensures forall s :: IsStanding(old(storage.peers), apiBase, s) ==>
                Credited(old(Held()), Held(), provider.agents, if a.faults.listPeers then 0.5 else s, a.faults.credibility)
    {
      hide Credited, CreditsKept, StoresPage, IsStanding, StoreUnits, Serve, PeerReputation, ListUnits;
      ghost var sender := PeerReputationFor(apiBase, a.faults.listPeers);
      PullOnceCredits(Held(), storage.GetCursor(apiBase), provider, sender, a);
      if Arrives(a) {
        PullOnceStores(Held(), storage.GetCursor(apiBase), provider, sender, a);
      }
      SenderStanding(storage.peers, apiBase);
      if a.faults.getCursor {
        return Err(Storage);
      }
      var cursor := storage.GetCursor(apiBase);
      match a.outcome {
        case Unreachable => return Err(Http);
        case Status(code) => return Err(BadStatus(code));
        case Delivered =>
      }
      var page := Serve(provider, cursor);
      var peerRep := PeerReputationFor(apiBase, a.faults.listPeers);
      var stored := StorePage(page, peerRep, a.faults);
      if !stored {
        return Err(Storage);
      }
      if page.cursor.Some? {
        var saved := storage.SetCursor(apiBase, page.cursor.value, a.faults.setCursor);
        if saved.Err? {
          return Err(Storage);
        }
      }
      r := Ok(page.hasMore);
    }

    /** The drain loop against a provider that does not change meanwhile: `attempts(k)` is what happens to
        request `k`. It always ends, overwrites nothing, adds only units past the cursor it started with,
        and keeps the cover at every exit. When nothing fails it succeeds, after exactly as many requests
        as the outstanding units need pages, with everything past that cursor held; the store is then
        fully up to date if and only if it had everything at or below the cursor to begin with. */
    method SyncPeer(apiBase: string, provider: Provider, attempts: nat -> Attempt)
      returns (r: Result<(), SyncError>, requests: nat)
      requires storage.Valid() && Keyed(provider.units)
      modifies storage`units, storage`unitCredibility, storage`cursors
      ensures storage.Valid()
      ensures GrowsFrom(old(storage.units), storage.units, provider.units)
      ensures AddedPast(old(storage.units), storage.units, old(storage.GetCursor(apiBase)))
      ensures forall url :: url != apiBase ==> storage.GetCursor(url) == old(storage.GetCursor(url))
      ensures var covered := old(Covers(storage.units, provider.units, storage.GetCursor(apiBase)));
              && (covered ==> Covers(storage.units, provider.units, storage.GetCursor(apiBase)))
              && (r.Ok? ==>
                    && old(Remaining(provider.units, storage.GetCursor(apiBase))) <= storage.units.Keys
                    && (PublicIds(provider.units) <= storage.units.Keys <==> covered))
      ensures var pages := PagesFor(|old(Remaining(provider.units, storage.GetCursor(apiBase)))|);
              && 1 <= requests <= pages
              && (r.Ok? ==> requests == pages)
              && (r.Err? ==> !Clean(attempts(requests - 1)))
      ensures forall s, senders :: IsStanding(old(storage.peers), apiBase, s) && MaySend(attempts, requests, s, senders) ==>
                CreditedBySome(old(Held()), Held(), provider.agents, senders)
    {
      hide Credited, CreditedBySome, CreditsKept, IsStanding, MaySend;
      hide Drained, GrowsFrom, AddedPast, CoversSince, Covers, PullOnce, Grows;
      ghost var from, before := storage.GetCursor(apiBase), storage.units;
      DrainStarts(before, provider.units, from);
      ghost var start, first := Remaining(provider.units, from), Held();
      ghost var standing := PeerReputation(RankedPeers(storage.peers), apiBase);
      SenderStanding(storage.peers, apiBase);
      CreditsStart(first, provider.agents);
      requests := 0;
      while true
        invariant storage.Valid()
        invariant Drained(before, storage.units, provider.units, from, storage.GetCursor(apiBase))
        invariant forall url :: url != apiBase ==> storage.GetCursor(url) == old(storage.GetCursor(url))
        invariant |Remaining(provider.units, storage.GetCursor(apiBase))| + PAGE_LIMIT * requests == |start|
        invariant requests > 0 ==> Remaining(provider.units, storage.GetCursor(apiBase)) != {}
        invariant CreditsKept(first, Held())
        invariant forall senders :: MaySend(attempts, requests, standing, senders) ==>
                    CreditedBySome(first, Held(), provider.agents, senders)
        decreases |Remaining(provider.units, storage.GetCursor(apiBase))|
      {
        ghost var t, cursor := Held(), storage.GetCursor(apiBase);
        DrainMeans(before, storage.units, provider.units, from, cursor);
        ghost var peerRep := PeerReputationFor(apiBase, attempts(requests).faults.listPeers);
        PullOnceKeeps(t, cursor, provider, peerRep, attempts(requests), from);
        PullOnceCounts(t, cursor, provider, peerRep, attempts(requests));
        var once := SyncPeerOnce(apiBase, provider, attempts(requests));
        GrowsMeans(t, Held(), provider.units);
        assert IsStanding(storage.peers, apiBase, standing);
        CreditsGoOn(first, t, Held(), provider.agents, attempts, requests, standing);
        DrainGoesOn(before, t.units, storage.units, provider.units, from, cursor, storage.GetCursor(apiBase));
        DrainMeans(before, storage.units, provider.units, from, storage.GetCursor(apiBase));
        requests := requests + 1;
        match once {
          case Err(e) =>
            return Err(e), requests;
          case Ok(more) =>
            if !more {
              return Ok(()), requests;
            }
        }
      }
    }
  }

  // ---------------------------------------------------------------------------
  // What one pull keeps
  // ---------------------------------------------------------------------------

  /** Everything public the provider has at or below the cursor is held locally. */
  ghost predicate Covers(units: UnitMap, provider: UnitMap, cursor: Option<Id>) {
    CoversSince(units, provider, None, cursor)
  }

  /** The same for what lies past an earlier cursor. */
  ghost predicate CoversSince(units: UnitMap, provider: UnitMap, from: Option<Id>, cursor: Option<Id>) {
    forall id :: id in PublicIds(provider) && Beyond(from, id) && !Beyond(cursor, id) ==> id in units
  }

  /** What was added lies past the cursor. */
  ghost predicate AddedPast(small: UnitMap, big: UnitMap, cursor: Option<Id>) {
    forall id :: id in big && id !in small ==> Beyond(cursor, id)
  }

  ghost predicate NotBefore(from: Option<Id>, cursor: Option<Id>) {
    from.Some? ==> cursor.Some? && from.value <= cursor.value
  }

  /** `big` is `small` with some of the provider's public units added and nothing changed. */
  ghost predicate GrowsFrom(small: UnitMap, big: UnitMap, provider: UnitMap) {
    && Extends(small, big)
    && forall id :: id in big && id !in small ==> id in PublicIds(provider) && big[id] == provider[id]
  }

  /** Credibilities are written for new units only, and lie in [0, 1]. */
  ghost predicate CredibilityGrows(t: Tables, t': Tables) {
    && (forall id :: id in t.credibility ==> id in t'.credibility && t'.credibility[id] == t.credibility[id])
    && (forall id :: id in t'.credibility && id !in t.credibility ==>
          id in t'.units && id !in t.units && 0.0 <= t'.credibility[id] <= 1.0)
  }

  ghost predicate FromProvider(us: seq<Unit>, provider: UnitMap) {
    forall i :: 0 <= i < |us| ==> us[i].id in PublicIds(provider) && provider[us[i].id] == us[i]
  }

  /** Nothing overwritten; public units of the provider added, with their credibilities. */
  ghost predicate Grows(t: Tables, t': Tables, provider: UnitMap) {
    && GrowsFrom(t.units, t'.units, provider)
    && CredibilityGrows(t, t')
    && t'.credibility.Keys <= t'.units.Keys
  }

  lemma StoreUnitKeeps(t: Tables, u: Unit, page: SyncPage, peerRep: real, faults: Faults, provider: UnitMap)
    requires u.id in PublicIds(provider) && provider[u.id] == u && t.credibility.Keys <= t.units.Keys
    ensures Grows(t, StoreUnit(t, u, page, peerRep, faults), provider)
    ensures u.id in StoreUnit(t, u, page, peerRep, faults).units
  {
  }

  lemma GrowsComposes(t: Tables, t': Tables, t'': Tables, provider: UnitMap)
    requires Grows(t, t', provider) && Grows(t', t'', provider)
    ensures Grows(t, t'', provider)
  {
  }

  lemma {:induction false} StoreUnitsKeeps(
    t: Tables, us: seq<Unit>, page: SyncPage, peerRep: real, faults: Faults, provider: UnitMap)
    requires FromProvider(us, provider) && t.credibility.Keys <= t.units.Keys
    ensures Grows(t, StoreUnits(t, us, page, peerRep, faults).0, provider)
    ensures StoreUnits(t, us, page, peerRep, faults).1 ==> IdSet(us) <= StoreUnits(t, us, page, peerRep, faults).0.units.Keys
    ensures StoreUnits(t, us, page, peerRep, faults).1 <==> IdSet(us) !! faults.put
    ensures StoreUnits(t, us, page, peerRep, faults).0.units.Keys <= t.units.Keys + IdSet(us)
    decreases |us|
  {
    if us == [] {
      assert IdSet(us) == {};
    } else {
      IdSetCons(us);
      if us[0].id !in faults.put {
        var t' := StoreUnit(t, us[0], page, peerRep, faults);
        StoreUnitKeeps(t, us[0], page, peerRep, faults, provider);
        StoreUnitsKeeps(t', us[1..], page, peerRep, faults, provider);
        GrowsComposes(t, t', StoreUnits(t', us[1..], page, peerRep, faults).0, provider);
      }
    }
  }

  lemma IdSetCons(us: seq<Unit>)
    requires us != []
    ensures IdSet(us) == {us[0].id} + IdSet(us[1..])
  {
  }

  lemma ServedPage(provider: Provider, cursor: Option<Id>)
    requires Keyed(provider.units)
    ensures FromProvider(Serve(provider, cursor).units, provider.units)
    ensures IdSet(Serve(provider, cursor).units) <= Remaining(provider.units, cursor)
    ensures var p := Serve(provider, cursor);
            p.hasMore ==> |p.units| == PAGE_LIMIT && p.cursor.Some?
    ensures !Serve(provider, cursor).hasMore ==> IdSet(Serve(provider, cursor).units) == Remaining(provider.units, cursor)
    ensures Serve(provider, cursor).cursor == None <==> Serve(provider, cursor).units == []
    ensures var p := Serve(provider, cursor);
            p.cursor.Some? ==>
              && Remaining(provider.units, p.cursor) == Remaining(provider.units, cursor) - IdSet(p.units)
              && Beyond(cursor, p.cursor.value)
  {
    var f := PullFilter(cursor);
    ListUnitsIsPage(provider.units, f);
    CursorSplitsMatches(provider.units, f);
    SyncServesPublic(provider.units, NoParams(cursor, None), cursor);
    var p := Serve(provider, cursor);
    SyncServesPublic(provider.units, NoParams(cursor, None), p.cursor);
    forall i | 0 <= i < |p.units| ensures p.units[i].id in IdSet(p.units) {
    }
    if p.cursor.Some? {
      assert f.(after := p.cursor) == PullFilter(p.cursor);
      assert p.cursor.value in IdSet(p.units);
    }
  }

  /** Whatever fails and wherever, one pull overwrites nothing, adds only public units of the provider
      past the cursor, never moves the cursor back, and keeps everything public the cursor has passed,
      counting from any earlier cursor, held; after a last page everything public past that is held. */
  lemma PullOnceKeeps(t: Tables, cursor: Option<Id>, provider: Provider, peerRep: real, a: Attempt, from: Option<Id>)
    requires Keyed(provider.units) && t.credibility.Keys <= t.units.Keys
    requires CoversSince(t.units, provider.units, from, cursor)
    ensures Grows(t, PullOnce(t, cursor, provider, peerRep, a).0, provider.units)
    ensures AddedPast(t.units, PullOnce(t, cursor, provider, peerRep, a).0.units, cursor)
    ensures var (t', cursor', r) := PullOnce(t, cursor, provider, peerRep, a);
            && CoversSince(t'.units, provider.units, from, cursor')
            && (cursor' == cursor || (cursor'.Some? && Beyond(cursor, cursor'.value)))
            && (r == Ok(false) ==> Remaining(provider.units, from) <= t'.units.Keys)
  {
    hide Serve, StoreUnits, FromProvider;
    var page := Serve(provider, cursor);
    ServedPage(provider, cursor);
    StoreUnitsKeeps(t, page.units, page, peerRep, a.faults, provider.units);
    var (t', stored) := StoreUnits(t, page.units, page, peerRep, a.faults);
    if stored {
      CoverAdvances(t'.units, provider.units, from, cursor, page);
    }
    hide Remaining, CoversSince;
    PullOnceCases(t, cursor, provider, peerRep, a, t', stored);
  }

  /** The outcomes of a pull, given what storing the page does. */
  lemma PullOnceCases(
    t: Tables, cursor: Option<Id>, provider: Provider, peerRep: real, a: Attempt, t': Tables, stored: bool)
    requires (a.outcome == Delivered && !a.faults.getCursor) ==>
      PullOnce(t, cursor, provider, peerRep, a) == Conclude(t', stored, cursor, Serve(provider, cursor), a.faults.setCursor)
    ensures var (u, cursor', r) := PullOnce(t, cursor, provider, peerRep, a);
            var page := Serve(provider, cursor);
            && (u == t || u == t')
            && (cursor' == cursor || (stored && u == t' && page.cursor.Some? && cursor' == page.cursor))
            && (r.Ok? ==> r.value == page.hasMore && stored && u == t' && (page.cursor.Some? ==> cursor' == page.cursor))
            && (r.Err? ==> !Clean(a) || !stored)
  {
  }

  lemma CoverAdvances(units: UnitMap, provider: UnitMap, from: Option<Id>, cursor: Option<Id>, page: SyncPage)
    requires CoversSince(units, provider, from, cursor)
    requires IdSet(page.units) <= units.Keys
    ensures page.cursor.Some? && Remaining(provider, page.cursor) == Remaining(provider, cursor) - IdSet(page.units)
        ==> CoversSince(units, provider, from, page.cursor)
    ensures IdSet(page.units) == Remaining(provider, cursor) ==> Remaining(provider, from) <= units.Keys
  {
    forall id | id in Remaining(provider, from) && (id !in Remaining(provider, cursor) || id in IdSet(page.units))
      ensures id in units
    {
      assert id !in Remaining(provider, cursor) ==> !Beyond(cursor, id);
    }
    if page.cursor.Some? && Remaining(provider, page.cursor) == Remaining(provider, cursor) - IdSet(page.units) {
      forall id | id in PublicIds(provider) && Beyond(from, id) && !Beyond(page.cursor, id) ensures id in units {
        assert id !in Remaining(provider, page.cursor);
      }
    }
  }

  /** The units of a list are stored up to the first failing insertion, and nothing else is. */
  ghost predicate StoredUpTo(t: Tables, t': Tables, us: seq<Unit>, faults: Faults, n: nat) {
    && n <= |us|
    && (forall i :: 0 <= i < n ==> us[i].id !in faults.put)
    && (n < |us| ==> us[n].id in faults.put)
    && Extends(t.units, t'.units)
    && t'.units.Keys == t.units.Keys + IdSet(us[..n])
    && forall id :: id in t'.units && id !in t.units ==> exists i :: 0 <= i < n && us[i] == t'.units[id]
  }

  lemma {:induction false} StoreUnitsStores(t: Tables, us: seq<Unit>, page: SyncPage, sender: real, faults: Faults)
    returns (n: nat)
    ensures StoredUpTo(t, StoreUnits(t, us, page, sender, faults).0, us, faults, n)
    ensures StoreUnits(t, us, page, sender, faults).1 <==> n == |us|
    decreases |us|
  {
    if us == [] || us[0].id in faults.put {
      n := 0;
      assert IdSet(us[..0]) == {};
    } else {
      var t' := StoreUnit(t, us[0], page, sender, faults);
      var m := StoreUnitsStores(t', us[1..], page, sender, faults);
      n := m + 1;
      OneMoreStored(t, t', StoreUnits(t', us[1..], page, sender, faults).0, us, faults, m);
    }
  }

  lemma OneMoreStored(t: Tables, t': Tables, t'': Tables, us: seq<Unit>, faults: Faults, m: nat)
    requires us != [] && us[0].id !in faults.put
    requires t'.units == (if us[0].id in t.units then t.units else t.units[us[0].id := us[0]])
    requires StoredUpTo(t', t'', us[1..], faults, m)
    ensures StoredUpTo(t, t'', us, faults, m + 1)
  {
    assert us[..m + 1][1..] == us[1..][..m];
    IdSetCons(us[..m + 1]);
    forall id | id in t''.units && id !in t.units ensures exists i :: 0 <= i < m + 1 && us[i] == t''.units[id] {
      if id in t'.units {
        assert us[0] == t''.units[id];
      } else {
        var i :| 0 <= i < m && us[1..][i] == t''.units[id];
        assert us[i + 1] == t''.units[id];
      }
    }
    forall i | 0 <= i < m + 1 ensures us[i].id !in faults.put {
      assert i > 0 ==> us[i] == us[1..][i - 1];
    }
  }

  lemma PullOnceStores(t: Tables, cursor: Option<Id>, provider: Provider, sender: real, a: Attempt)
    requires Arrives(a)
    ensures var (t', cursor', r) := PullOnce(t, cursor, provider, sender, a);
            StoresPage(t, t', cursor, cursor', ListUnits(provider.units, SyncFilter(NoParams(cursor, Some(500)))), a.faults, r)
  {
    var page := Serve(provider, cursor);
    var listed := ListUnits(provider.units, SyncFilter(NoParams(cursor, Some(500))));
    assert page.units == listed.units && page.hasMore == listed.hasMore && page.cursor == PageCursor(listed);
    hide Serve, ListUnits, StoreUnits;
    var n := StoreUnitsStores(t, page.units, page, sender, a.faults);
  }

  // ---------------------------------------------------------------------------
  // The credibility of what is pulled
  // ---------------------------------------------------------------------------

  /** `s` is the local standing of the peer at an address: the highest reputation of a known peer there,
      0.5 if there is none. */
  ghost predicate IsStanding(peers: PeerMap, apiBase: string, s: real) {
    if exists id :: id in peers && peers[id].apiBase == apiBase then
      && (exists id :: id in peers && peers[id].apiBase == apiBase && peers[id].reputation == s)
      && (forall id :: id in peers && peers[id].apiBase == apiBase ==> peers[id].reputation <= s)
    else s == 0.5
  }

  /** The first peer of the listing at an address is the one with the highest reputation there. */
  lemma {:induction false} FirstIsHighest(list: seq<PeerInfo>, apiBase: string)
    requires Ordered(list)
    ensures var s := PeerReputation(list, apiBase);
            && (forall i :: 0 <= i < |list| && list[i].apiBase == apiBase ==> list[i].reputation <= s)
            && (if exists i :: 0 <= i < |list| && list[i].apiBase == apiBase
                then exists i :: 0 <= i < |list| && list[i].apiBase == apiBase && list[i].reputation == s
                else s == 0.5)
  {
    if list != [] {
      if list[0].apiBase != apiBase {
        FirstIsHighest(list[1..], apiBase);
        assert forall i :: 1 <= i < |list| ==> list[i] == list[1..][i - 1];
      }
    }
  }

  lemma SenderStanding(peers: PeerMap, apiBase: string)
    requires PeersKeyed(peers)
    ensures forall s :: IsStanding(peers, apiBase, s) <==> s == PeerReputation(RankedPeers(peers), apiBase)
  {
    var list := RankedPeers(peers);
    RankedPeersIsRanking(peers);
    FirstIsHighest(list, apiBase);
    ListedStanding(peers, list, apiBase, PeerReputation(list, apiBase));
    StandingIsUnique(peers, apiBase, PeerReputation(list, apiBase));
  }

  lemma ListedStanding(peers: PeerMap, list: seq<PeerInfo>, apiBase: string, s: real)
    requires forall i :: 0 <= i < |list| ==> list[i].nodeId in peers && peers[list[i].nodeId] == list[i]
    requires forall id :: id in peers ==> peers[id] in list
    requires forall i :: 0 <= i < |list| && list[i].apiBase == apiBase ==> list[i].reputation <= s
    requires if exists i :: 0 <= i < |list| && list[i].apiBase == apiBase
             then exists i :: 0 <= i < |list| && list[i].apiBase == apiBase && list[i].reputation == s
             else s == 0.5
    ensures IsStanding(peers, apiBase, s)
  {
    if i :| 0 <= i < |list| && list[i].apiBase == apiBase && list[i].reputation == s {
      assert list[i].nodeId in peers && peers[list[i].nodeId].apiBase == apiBase;
    }
  }

  lemma StandingIsUnique(peers: PeerMap, apiBase: string, s: real)
    requires IsStanding(peers, apiBase, s)
    ensures forall s' :: IsStanding(peers, apiBase, s') ==> s' == s
  {
  }

  /** Every unit that came in got, unless writing it failed, the sender's standing times the author's
      reputation as the sender reports it. */
  ghost predicate Credited(t: Tables, t': Tables, agents: map<Did, real>, sender: real, failed: set<Id>) {
    forall id :: id in t'.units && id !in t.units ==>
      var author := t'.units[id].author;
      && (id in t'.credibility <==> id !in failed)
      && (id in t'.credibility ==>
            t'.credibility[id] == Clamp(sender * if author in agents then agents[author] else 0.5))
  }

  /** What was there keeps the credibility it has, or goes on having none. */
  ghost predicate CreditsKept(t: Tables, t': Tables) {
    && Extends(t.units, t'.units)
    && forall id :: id in t.units ==>
         (if id in t.credibility then id in t'.credibility && t'.credibility[id] == t.credibility[id]
          else id !in t'.credibility)
  }

  /** The page reports the authors' reputations as the provider has them. */
  ghost predicate Reports(page: SyncPage, us: seq<Unit>, agents: map<Did, real>) {
    forall u :: u in us ==> AuthorReputation(page, u.author) == if u.author in agents then agents[u.author] else 0.5
  }

  lemma StoreUnitCredits(t: Tables, u: Unit, page: SyncPage, sender: real, faults: Faults, agents: map<Did, real>)
    requires t.credibility.Keys <= t.units.Keys && Reports(page, [u], agents)
    ensures var t' := StoreUnit(t, u, page, sender, faults);
            && Credited(t, t', agents, sender, faults.credibility) && CreditsKept(t, t')
            && t'.credibility.Keys <= t'.units.Keys
  {
    var rep := if u.author in agents then agents[u.author] else 0.5;
    assert AuthorReputation(page, u.author) == rep by { assert u in [u]; }
    CreditOne(t, u, sender, rep, Credibility(page, sender, u.author), faults.credibility, agents);
    NothingNew(t, agents, sender, faults.credibility);
    hide Credited, CreditsKept, AuthorReputation, Clamp, Credibility, Reports;
  }

  lemma CreditOne(t: Tables, u: Unit, sender: real, rep: real, c: real, failed: set<Id>, agents: map<Did, real>)
    requires u.id !in t.units ==> t.credibility.Keys <= t.units.Keys
    requires rep == (if u.author in agents then agents[u.author] else 0.5) && c == sender * rep
    ensures var t' := Tables(t.units[u.id := u], if u.id in failed then t.credibility else t.credibility[u.id := Clamp(c)]);
            u.id !in t.units ==> Credited(t, t', agents, sender, failed) && CreditsKept(t, t')
  {
    hide Clamp;
  }

  lemma CreditsCompose(t: Tables, t': Tables, t'': Tables, agents: map<Did, real>, sender: real, failed: set<Id>)
    requires Credited(t, t', agents, sender, failed) && CreditsKept(t, t')
    requires Credited(t', t'', agents, sender, failed) && CreditsKept(t', t'')
    ensures Credited(t, t'', agents, sender, failed) && CreditsKept(t, t'')
  {
  }

  lemma {:induction false} StoreUnitsCredits(
    t: Tables, us: seq<Unit>, page: SyncPage, sender: real, faults: Faults, agents: map<Did, real>)
    requires t.credibility.Keys <= t.units.Keys && Reports(page, us, agents)
    ensures Credited(t, StoreUnits(t, us, page, sender, faults).0, agents, sender, faults.credibility)
    ensures CreditsKept(t, StoreUnits(t, us, page, sender, faults).0)
    decreases |us|
  {
    if us == [] || us[0].id in faults.put {
      NothingNew(t, agents, sender, faults.credibility);
    } else {
      hide Credited, CreditsKept, StoreUnit;
      var t' := StoreUnit(t, us[0], page, sender, faults);
      assert Reports(page, [us[0]], agents) && Reports(page, us[1..], agents);
      StoreUnitCredits(t, us[0], page, sender, faults, agents);
      StoreUnitsCredits(t', us[1..], page, sender, faults, agents);
      CreditsCompose(t, t', StoreUnits(t', us[1..], page, sender, faults).0, agents, sender, faults.credibility);
    }
  }

  lemma NothingNew(t: Tables, agents: map<Did, real>, sender: real, failed: set<Id>)
    ensures t.credibility.Keys <= t.units.Keys ==> Credited(t, t, agents, sender, failed) && CreditsKept(t, t)
  {
  }

  lemma PullOnceCredits(t: Tables, cursor: Option<Id>, provider: Provider, sender: real, a: Attempt)
    requires t.credibility.Keys <= t.units.Keys
    ensures Credited(t, PullOnce(t, cursor, provider, sender, a).0, provider.agents, sender, a.faults.credibility)
    ensures CreditsKept(t, PullOnce(t, cursor, provider, sender, a).0)
  {
    var page := Serve(provider, cursor);
    ServesReports(provider, cursor);
    hide Serve, Credited, Reports, StoreUnits, CreditsKept;
    NothingNew(t, provider.agents, sender, a.faults.credibility);
    StoreUnitsCredits(t, page.units, page, sender, a.faults, provider.agents);
    var (t', stored) := StoreUnits(t, page.units, page, sender, a.faults);
    PullOnceCases(t, cursor, provider, sender, a, t', stored);
  }

  lemma ServesReports(provider: Provider, cursor: Option<Id>)
    ensures Reports(Serve(provider, cursor), Serve(provider, cursor).units, provider.agents)
  {
    hide ListUnits, PageCursor, PullFilter;
  }

  /** With all scores in [0, 1], no credibility that comes with a pull exceeds the sender's standing. */
  lemma NoneAboveStanding(t: Tables, t': Tables, agents: map<Did, real>, sender: real, failed: set<Id>)
    requires Credited(t, t', agents, sender, failed) && 0.0 <= sender <= 1.0
    requires forall did :: did in agents ==> 0.0 <= agents[did] <= 1.0
    ensures forall id :: id in t'.units && id !in t.units && id in t'.credibility ==> t'.credibility[id] <= sender
  {
    forall id | id in t'.units && id !in t.units && id in t'.credibility ensures t'.credibility[id] <= sender {
      var author := t'.units[id].author;
      var reported := if author in agents then agents[author] else 0.5;
      ShareAtMost(sender, reported);
      assert t'.credibility[id] == Clamp(sender * reported);
    }
  }

  /** The factors the sender may have counted for in the first `n` requests of a drain: its standing, and
      0.5 if listing the peers failed in one of them. */
  ghost predicate MaySend(attempts: nat -> Attempt, n: nat, standing: real, senders: set<real>) {
    standing in senders && ((exists k: nat :: k < n && attempts(k).faults.listPeers) ==> 0.5 in senders)
  }

  /** Every credibility that came in is a product of one of the factors and the author's reputation. */
  ghost predicate CreditedBySome(t: Tables, t': Tables, agents: map<Did, real>, senders: set<real>) {
    forall id :: id in t'.units && id !in t.units && id in t'.credibility ==>
      exists s :: s in senders &&
        t'.credibility[id] == Clamp(s * if t'.units[id].author in agents then agents[t'.units[id].author] else 0.5)
  }

  lemma CreditsStart(t: Tables, agents: map<Did, real>)
    ensures CreditsKept(t, t) && forall senders :: CreditedBySome(t, t, agents, senders)
  {
  }

  lemma CreditsGoOn(first: Tables, t: Tables, t': Tables, agents: map<Did, real>,
                    attempts: nat -> Attempt, n: nat, standing: real)
    requires CreditsKept(first, t) && CreditsKept(t, t')
    requires forall senders :: MaySend(attempts, n, standing, senders) ==> CreditedBySome(first, t, agents, senders)
    requires Credited(t, t', agents, if attempts(n).faults.listPeers then 0.5 else standing, attempts(n).faults.credibility)
    ensures CreditsKept(first, t')
    ensures forall senders :: MaySend(attempts, n + 1, standing, senders) ==> CreditedBySome(first, t', agents, senders)
  {
    forall senders | MaySend(attempts, n + 1, standing, senders) ensures CreditedBySome(first, t', agents, senders) {
      assert MaySend(attempts, n, standing, senders);
      var sender := if attempts(n).faults.listPeers then 0.5 else standing;
      assert sender in senders;
      OneMorePull(first, t, t', agents, sender, attempts(n).faults.credibility, senders);
    }
  }

  lemma OneMorePull(first: Tables, t: Tables, t': Tables, agents: map<Did, real>, sender: real, failed: set<Id>,
                    senders: set<real>)
    requires CreditsKept(first, t) && CreditsKept(t, t') && sender in senders
    requires CreditedBySome(first, t, agents, senders) && Credited(t, t', agents, sender, failed)
    ensures CreditedBySome(first, t', agents, senders)
  {
    hide Clamp;
  }

  // ---------------------------------------------------------------------------
  // Draining a peer
  // ---------------------------------------------------------------------------

  function PagesFor(n: nat): nat {
    if n == 0 then 1 else (n + PAGE_LIMIT - 1) / PAGE_LIMIT
  }

  /** What holds throughout a drain that began with the units `before` and the cursor `from`. */
  ghost predicate Drained(before: UnitMap, units: UnitMap, provider: UnitMap, from: Option<Id>, cursor: Option<Id>) {
    && GrowsFrom(before, units, provider)
    && AddedPast(before, units, from)
    && CoversSince(units, provider, from, cursor)
    && NotBefore(from, cursor)
  }

  lemma GrowsMeans(t: Tables, t': Tables, provider: UnitMap)
    requires Grows(t, t', provider)
    ensures GrowsFrom(t.units, t'.units, provider)
  {
  }

  lemma DrainStarts(units: UnitMap, provider: UnitMap, from: Option<Id>)
    ensures Drained(units, units, provider, from, from)
  {
  }

  lemma DrainGoesOn(before: UnitMap, units: UnitMap, units': UnitMap, provider: UnitMap,
                    from: Option<Id>, cursor: Option<Id>, cursor': Option<Id>)
    requires Drained(before, units, provider, from, cursor)
    requires GrowsFrom(units, units', provider) && AddedPast(units, units', cursor)
    requires CoversSince(units', provider, from, cursor')
    requires cursor' == cursor || (cursor'.Some? && Beyond(cursor, cursor'.value))
    ensures Drained(before, units', provider, from, cursor')
  {
  }

  /** A drain leaves what lies at or below its first cursor as it was. */
  lemma DrainMeans(before: UnitMap, units: UnitMap, provider: UnitMap, from: Option<Id>, cursor: Option<Id>)
    requires Drained(before, units, provider, from, cursor)
    ensures GrowsFrom(before, units, provider) && AddedPast(before, units, from)
    ensures CoversSince(units, provider, from, cursor)
    ensures Covers(before, provider, from) ==> Covers(units, provider, cursor)
    ensures Remaining(provider, from) <= units.Keys ==>
              (PublicIds(provider) <= units.Keys <==> Covers(before, provider, from))
  {
  }

  /** How a page moves the amount outstanding: a full page with something left, or the last page. */
  lemma PageCounts(provider: Provider, cursor: Option<Id>)
    requires Keyed(provider.units)
    ensures var p := Serve(provider, cursor);
            p.hasMore ==>
              && |Remaining(provider.units, p.cursor)| == |Remaining(provider.units, cursor)| - PAGE_LIMIT
              && Remaining(provider.units, p.cursor) != {}
    ensures !Serve(provider, cursor).hasMore ==> |Remaining(provider.units, cursor)| <= PAGE_LIMIT
  {
    var page := Serve(provider, cursor);
    ServedPage(provider, cursor);
    ListUnitsIsPage(provider.units, PullFilter(cursor));
    SyncServesPublic(provider.units, NoParams(cursor, None), cursor);
    ListsIdSet(provider.units, page.units, IdSet(page.units));
  }

  lemma PullOnceCounts(t: Tables, cursor: Option<Id>, provider: Provider, peerRep: real, a: Attempt)
    requires Keyed(provider.units) && t.credibility.Keys <= t.units.Keys
    ensures var (t', cursor', r) := PullOnce(t, cursor, provider, peerRep, a);
            && (r == Ok(true) ==>
                  && |Remaining(provider.units, cursor')| == |Remaining(provider.units, cursor)| - PAGE_LIMIT
                  && Remaining(provider.units, cursor') != {})
            && (r == Ok(false) ==> |Remaining(provider.units, cursor)| <= PAGE_LIMIT)
            && (r.Err? ==> !Clean(a))
  {
    hide Serve, StoreUnits, FromProvider, Remaining, Grows;
    var page := Serve(provider, cursor);
    ServedPage(provider, cursor);
    PageCounts(provider, cursor);
    StoreUnitsKeeps(t, page.units, page, peerRep, a.faults, provider.units);
    var (t', stored) := StoreUnits(t, page.units, page, peerRep, a.faults);
    PullOnceCases(t, cursor, provider, peerRep, a, t', stored);
  }

  // ---------------------------------------------------------------------------
  // Where the promise ends
  // ---------------------------------------------------------------------------

  /** A public unit that reaches the provider later keeps the cover if and only if its id lies above
      the puller's cursor or the puller has the unit already. */
  lemma LateUnitKeepsCoverIff(units: UnitMap, provider: UnitMap, cursor: Option<Id>, u: Unit)
    requires Covers(units, provider, cursor) && u.id !in provider && u.IsPublic()
    ensures Covers(units, provider[u.id := u], cursor) <==> Beyond(cursor, u.id) || u.id in units
  {
  }

  /** A drain can succeed and leave the store short: the cursor is at 5, the peer's only unit is 3, and
      one clean pull reports that there is no more. */
  lemma DrainCanMissUnit(u: Unit, peerRep: real)
    requires u.id == 3 && u.IsPublic()
    ensures var t, provider := Tables(map[], map[]), Provider(map[3 := u], map[]);
            PullOnce(t, Some(5), provider, peerRep, Attempt(Delivered, Faults(false, {}, {}, false, false)))
            == (t, Some(5), Ok(false))
  {
  }

  /** Whatever the provider stores later, a pull never fetches an id at or below its cursor. */
  lemma NeverFetchedBelowCursor(provider: Provider, cursor: Option<Id>, id: Id)
    requires Keyed(provider.units) && !Beyond(cursor, id)
    ensures id !in IdSet(Serve(provider, cursor).units)
  {
    ServedPage(provider, cursor);
  }
}
