/** The event-stream form of sync: subscribe to the live channel, replay the stored units, then follow
    the channel, while submissions store a unit and afterwards broadcast it. */
module EventStream {
  import opened Units
  import opened Listing

  /** One subscriber: not connected, subscribed from a position in the broadcast, or streaming with its
      historical batch fixed. */
  datatype Stage = Offline | Subscribed(from: nat) | Streaming(from: nat, history: Page)

  /** `pending` are the stored submissions not yet broadcast; `sent` is everything broadcast, in order;
      `submitted` are the ids that entered by submission rather than federation. */
  datatype Hub = Hub(units: UnitMap, submitted: set<Id>, pending: set<Id>, sent: seq<Unit>, stage: Stage)

  datatype Action =
    | Put(u: Unit)
    | Send(id: Id)
    | FederatedPut(u: Unit)
    | Subscribe
    | ListHistory

  predicate Enabled(h: Hub, a: Action) {
    match a
    case Put(_) => true
    case Send(id) => id in h.pending && id in h.units
    case FederatedPut(_) => true
    case Subscribe => h.stage.Offline?
    case ListHistory => h.stage.Subscribed?
  }

  /** A submission of a known id changes nothing; only public units are broadcast. */
  function Step(h: Hub, a: Action, f: UnitFilter): Hub
    requires Enabled(h, a)
  {
    match a
    case Put(u) =>
      if u.id in h.units then h
      else h.(units := h.units[u.id := u], submitted := h.submitted + {u.id},
              pending := h.pending + if u.IsPublic() then {u.id} else {})
    case Send(id) => h.(pending := h.pending - {id}, sent := h.sent + [h.units[id]])
    case FederatedPut(u) => if u.id in h.units then h else h.(units := h.units[u.id := u])
    case Subscribe => h.(stage := Subscribed(|h.sent|))
    case ListHistory => h.(stage := Streaming(h.stage.from, ListUnits(h.units, f)))
  }

  /** The filter comes from the sync endpoint, whatever the client's parameters. */
  ghost predicate IsSync(f: UnitFilter) {
    exists p: Params :: f == SyncFilter(p)
  }

  const Empty: Hub := Hub(map[], {}, {}, [], Offline)

  // ---------------------------------------------------------------------------
  // Invariant
  // ---------------------------------------------------------------------------

  /** Every public submission is stored, and is either waiting to be broadcast or has been, once. */
  ghost predicate Broadcast(h: Hub) {
    && Keyed(h.units)
    && h.submitted <= h.units.Keys
    && h.pending <= h.submitted && h.pending !! IdSet(h.sent)
    && (forall id :: id in h.submitted && h.units[id].IsPublic() ==> id in h.pending || id in IdSet(h.sent))
    && (forall i :: 0 <= i < |h.sent| ==> h.sent[i].id in h.submitted && h.units[h.sent[i].id] == h.sent[i])
    && DistinctIds(h.sent)
  }

  /** The ids the live part of the stream has carried. */
  function Live(h: Hub): set<Id>
    requires h.stage.Streaming? && h.stage.from <= |h.sent|
  {
    IdSet(h.sent[h.stage.from..])
  }

  /** The historical page stops short of this id. */
  predicate CutOff(p: Page, id: Id) {
    p.hasMore && p.units != [] && p.units[|p.units| - 1].id < id
  }

  /** A submission the subscriber asked for: public, matching the filter, above the cursor. */
  predicate Wanted(h: Hub, f: UnitFilter, id: Id) {
    id in h.submitted && id in h.units && Beyond(f.after, id) && Matches(f, h.units[id])
  }

  ghost predicate NoGap(h: Hub, f: UnitFilter) {
    match h.stage
    case Offline => true
    case Subscribed(from) => from <= |h.sent|
    case Streaming(from, history) =>
      && from <= |h.sent|
      && forall id :: Wanted(h, f, id) ==>
           id in IdSet(history.units) || id in Live(h) || id in h.pending || CutOff(history, id)
  }

  /** The historical batch lists stored units and repeats nothing. */
  ghost predicate HistoryListed(h: Hub) {
    h.stage.Streaming? ==> Lists(h.units, h.stage.history.units, IdSet(h.stage.history.units))
  }

  ghost predicate Inv(h: Hub, f: UnitFilter) {
    Broadcast(h) && NoGap(h, f) && HistoryListed(h)
  }

  lemma IdSetSnoc(us: seq<Unit>, u: Unit)
    ensures IdSet(us + [u]) == IdSet(us) + {u.id}
  {
    assert (us + [u])[|us|] == u;
    forall x | x in IdSet(us) ensures x in IdSet(us + [u]) {
      var i :| 0 <= i < |us| && us[i].id == x;
      assert (us + [u])[i].id == x;
    }
  }

  lemma SendKeepsBroadcast(h: Hub, id: Id, f: UnitFilter)
    requires Broadcast(h) && Enabled(h, Send(id))
    ensures Broadcast(Step(h, Send(id), f))
  {
    IdSetSnoc(h.sent, h.units[id]);
    assert forall i :: 0 <= i < |h.sent| ==> h.sent[i].id in IdSet(h.sent);
  }

  lemma SendKeeps(h: Hub, id: Id, f: UnitFilter)
    requires Inv(h, f) && Enabled(h, Send(id))
    ensures Inv(Step(h, Send(id), f), f)
  {
    SendKeepsBroadcast(h, id, f);
    if h.stage.Streaming? {
      IdSetSnoc(h.sent[h.stage.from..], h.units[id]);
      assert (h.sent + [h.units[id]])[h.stage.from..] == h.sent[h.stage.from..] + [h.units[id]];
    }
  }

  lemma PutKeeps(h: Hub, u: Unit, f: UnitFilter)
    requires Inv(h, f) && IsSync(f)
    ensures Inv(Step(h, Put(u), f), f)
    ensures Inv(Step(h, FederatedPut(u), f), f)
  {
    assert forall i :: 0 <= i < |h.sent| ==> h.sent[i].id in IdSet(h.sent);
  }

  /** Replaying after subscribing: what was broadcast before the subscription is in the store by then. */
  lemma ListKeeps(h: Hub, f: UnitFilter)
    requires Inv(h, f) && IsSync(f) && h.stage.Subscribed?
    ensures Inv(Step(h, ListHistory, f), f)
  {
    var h' := Step(h, ListHistory, f);
    var p := h'.stage.history;
    ListUnitsIsPage(h.units, f);
    forall id | Wanted(h', f, id) && id !in IdSet(p.units) ensures CutOff(p, id) {
      BeyondPage(h.units, f, id);
    }
  }

  lemma BeyondPage(units: UnitMap, f: UnitFilter, id: Id)
    requires Keyed(units) && f.limit >= 1
    requires id in Matching(units, f) && id !in IdSet(ListUnits(units, f).units)
    ensures CutOff(ListUnits(units, f), id)
  {
    ListUnitsIsPage(units, f);
    CursorSplitsMatches(units, f);
    var p := ListUnits(units, f);
    assert id in Matching(units, f) - IdSet(p.units);
    assert PageCursor(p).value in IdSet(p.units);
  }

  lemma StepKeepsInv(h: Hub, a: Action, f: UnitFilter)
    requires Inv(h, f) && IsSync(f) && Enabled(h, a)
    ensures Inv(Step(h, a, f), f)
  {
    match a {
      case Put(u) => PutKeeps(h, u, f);
      case Send(id) => SendKeeps(h, id, f);
      case FederatedPut(u) => PutKeeps(h, u, f);
      case Subscribe =>
      case ListHistory => ListKeeps(h, f);
    }
  }

  ghost predicate IsRun(h: Hub, acts: seq<Action>, f: UnitFilter)
    decreases |acts|
  {
    acts == [] || (Enabled(h, acts[0]) && IsRun(Step(h, acts[0], f), acts[1..], f))
  }

  ghost function End(h: Hub, acts: seq<Action>, f: UnitFilter): Hub
    requires IsRun(h, acts, f)
    decreases |acts|
  {
    if acts == [] then h else End(Step(h, acts[0], f), acts[1..], f)
  }

  lemma {:induction false} RunKeepsInv(h: Hub, acts: seq<Action>, f: UnitFilter)
    requires Inv(h, f) && IsSync(f) && IsRun(h, acts, f)
    ensures Inv(End(h, acts, f), f)
    decreases |acts|
  {
    if acts != [] {
      StepKeepsInv(h, acts[0], f);
      RunKeepsInv(Step(h, acts[0], f), acts[1..], f);
    }
  }

  // ---------------------------------------------------------------------------
  // What the stream does not carry
  // ---------------------------------------------------------------------------

  ghost predicate Missed(h: Hub, id: Id) {
    && h.stage.Streaming? && h.stage.from <= |h.sent|
    && id in h.units && id !in h.submitted
    && id !in IdSet(h.stage.history.units) && id !in Live(h)
  }

  /** A unit that arrives by federation after the replay is in neither part of the stream, and stays so
      whatever happens next: only submissions are broadcast. */
  lemma {:induction false} FederatedAfterReplayIsMissed(h: Hub, u: Unit, acts: seq<Action>, f: UnitFilter)
    requires Inv(h, f) && IsSync(f) && h.stage.Streaming? && u.id !in h.units
    requires IsRun(Step(h, FederatedPut(u), f), acts, f)
    ensures Missed(End(Step(h, FederatedPut(u), f), acts, f), u.id)
  {
    var h' := Step(h, FederatedPut(u), f);
    PutKeeps(h, u, f);
    forall i | 0 <= i < |h.sent| ensures h.sent[i].id != u.id {
    }
    StaysMissed(h', u.id, acts, f);
  }

  lemma {:induction false} StaysMissed(h: Hub, id: Id, acts: seq<Action>, f: UnitFilter)
    requires Inv(h, f) && IsSync(f) && Missed(h, id) && IsRun(h, acts, f)
    ensures Missed(End(h, acts, f), id)
    decreases |acts|
  {
    if acts != [] {
      StepKeepsInv(h, acts[0], f);
      if acts[0].Send? {
        var u := h.units[acts[0].id];
        IdSetSnoc(h.sent[h.stage.from..], u);
        assert (h.sent + [u])[h.stage.from..] == h.sent[h.stage.from..] + [u];
      }
      StaysMissed(Step(h, acts[0], f), id, acts[1..], f);
    }
  }

  // ---------------------------------------------------------------------------
  // Exactly what the stream carries
  // ---------------------------------------------------------------------------

  /** In the historical batch or in the live part. */
  ghost predicate Carried(h: Hub, id: Id)
    requires h.stage.Streaming? && h.stage.from <= |h.sent|
  {
    id in IdSet(h.stage.history.units) || id in Live(h)
  }

  /** The units a listing serves before this one. */
  function Ahead(units: UnitMap, f: UnitFilter, id: Id): set<Id> {
    set x | x in Matching(units, f) && x < id
  }

  /** A listing of `units` does not come to this id: it is not past the cursor, or a page is filled
      before it. */
  predicate OutOfReach(units: UnitMap, f: UnitFilter, id: Id) {
    !Beyond(f.after, id) || |Ahead(units, f, id)| >= f.limit
  }

  /** A page has exactly the matching ids that come before it is full. */
  lemma OnPageIff(units: UnitMap, f: UnitFilter, id: Id)
    requires Keyed(units) && f.limit >= 1
    ensures id in IdSet(ListUnits(units, f).units) <==> id in Matching(units, f) && !OutOfReach(units, f, id)
  {
    hide ListUnits, Matches, Matching, Lists;
    ListUnitsIsPage(units, f);
    var p := ListUnits(units, f);
    ListsIdSet(units, p.units, IdSet(p.units));
    LowestByRank(Matching(units, f), IdSet(p.units), id);
    assert Ahead(units, f, id) == set x | x in Matching(units, f) && x < id;
    InMatching(units, f, id);
  }

  lemma InMatching(units: UnitMap, f: UnitFilter, id: Id)
    ensures id in Matching(units, f) ==> Beyond(f.after, id)
  {
  }

  /** The members of an initial segment are those with fewer members before them than it has. */
  lemma LowestByRank(all: set<Id>, low: set<Id>, id: Id)
    requires low <= all && forall x, y :: x in low && y in all - low ==> x < y
    ensures var ahead := set x | x in all && x < id;
            id in all ==> (id in low <==> |ahead| < |low|)
  {
    var ahead := set x | x in all && x < id;
    if id in low {
      forall x | x in ahead ensures x in low - {id} {
        assert x in low || x in all - low;
      }
      SubsetSize(ahead, low - {id});
    } else if id in all {
      assert id in all - low;
      SubsetSize(low, ahead);
    }
  }

  /** What is kept of the state `m` in which the replay was made. */
  ghost predicate Since(m: Hub, h: Hub, f: UnitFilter) {
    && m.stage.Subscribed? && m.stage.from <= |m.sent|
    && h.stage == Streaming(m.stage.from, ListUnits(m.units, f))
    && Extends(m.units, h.units)
    && m.sent <= h.sent
  }

  lemma StepKeepsSince(m: Hub, h: Hub, a: Action, f: UnitFilter)
    requires Since(m, h, f) && Enabled(h, a)
    ensures Since(m, Step(h, a, f), f)
  {
  }

  lemma {:induction false} RunKeepsSince(m: Hub, h: Hub, acts: seq<Action>, f: UnitFilter)
    requires Since(m, h, f) && IsRun(h, acts, f)
    ensures Since(m, End(h, acts, f), f)
    decreases |acts|
  {
    hide Since;
    if acts != [] {
      StepKeepsSince(m, h, acts[0], f);
      RunKeepsSince(m, Step(h, acts[0], f), acts[1..], f);
    }
  }

  /** Every run that ends streaming made its replay at some point. */
  lemma {:induction false} ReplayPoint(h: Hub, acts: seq<Action>, f: UnitFilter) returns (k: nat)
    requires IsRun(h, acts, f) && !h.stage.Streaming? && End(h, acts, f).stage.Streaming?
    ensures k < |acts| && acts[k] == ListHistory && IsRun(h, acts[..k], f)
    ensures var m := End(h, acts[..k], f);
            && m.stage.Subscribed? && IsRun(Step(m, ListHistory, f), acts[k + 1..], f)
            && End(h, acts, f) == End(Step(m, ListHistory, f), acts[k + 1..], f)
    decreases |acts|
  {
    var h' := Step(h, acts[0], f);
    if h'.stage.Streaming? {
      k := 0;
    } else {
      var j := ReplayPoint(h', acts[1..], f);
      k := j + 1;
      assert acts[..k][0] == acts[0] && acts[..k][1..] == acts[1..][..j];
      assert acts[k + 1..] == acts[1..][j + 1..];
    }
  }

  /** The ids broadcast before the subscription. */
  function Early(h: Hub): set<Id>
    requires h.stage.Streaming? && h.stage.from <= |h.sent|
  {
    IdSet(h.sent[..h.stage.from])
  }

  lemma SentIsEarlyOrLive(h: Hub, id: Id)
    requires h.stage.Streaming? && h.stage.from <= |h.sent| && DistinctIds(h.sent)
    ensures id in IdSet(h.sent) <==> id in Early(h) || id in Live(h)
    ensures !(id in Early(h) && id in Live(h))
  {
    var from := h.stage.from;
    if id in IdSet(h.sent) {
      var i :| 0 <= i < |h.sent| && h.sent[i].id == id;
      if i < from {
        assert h.sent[..from][i].id == id;
      } else {
        assert h.sent[from..][i - from].id == id;
      }
    }
    if id in Early(h) {
      var i :| 0 <= i < from && h.sent[..from][i].id == id;
      assert h.sent[i].id == id;
    }
    if id in Live(h) {
      var j :| 0 <= j < |h.sent| - from && h.sent[from..][j].id == id;
      assert h.sent[from + j].id == id;
    }
  }

  /** What was broadcast before the subscription was stored by the time of the replay. */
  lemma EarlyWasStored(m: Hub, h: Hub, f: UnitFilter, id: Id)
    requires Since(m, h, f) && Broadcast(m) && id in Early(h)
    ensures id in m.units
  {
    var i :| 0 <= i < h.stage.from && h.sent[..h.stage.from][i].id == id;
    assert m.sent[i] == h.sent[i];
  }

  lemma CarriedIff(m: Hub, h: Hub, f: UnitFilter, id: Id)
    requires IsSync(f) && Inv(m, f) && Inv(h, f) && Since(m, h, f) && h.pending == {}
    requires id in h.units && Matches(f, h.units[id])
    ensures !Carried(h, id) <==>
              if id in h.submitted then id in Early(h) && OutOfReach(m.units, f, id)
              else id !in m.units || OutOfReach(m.units, f, id)
  {
    OnPageIff(m.units, f, id);
    SentIsEarlyOrLive(h, id);
    if id in Early(h) {
      EarlyWasStored(m, h, f, id);
    }
    if id in Live(h) {
      assert id in h.submitted;
    }
  }

  /** Exactly what a stream carries. Over every run of a connection, from any reachable state and ending
      with nothing left to broadcast, `k` being the step of the replay: a stored unit of the requested
      kind is missed if and only if it was submitted, broadcast before the subscription and out of reach
      of the replay, or came by federation and was stored after the replay or out of its reach. */
  lemma StreamMissesIff(start: Hub, acts: seq<Action>, f: UnitFilter, id: Id) returns (k: nat)
    requires IsSync(f) && Inv(start, f) && start.stage.Offline? && IsRun(start, acts, f)
    requires var h := End(start, acts, f);
             h.stage.Streaming? && h.pending == {} && id in h.units && Matches(f, h.units[id])
    ensures k < |acts| && acts[k] == ListHistory && IsRun(start, acts[..k], f)
    ensures var m, h := End(start, acts[..k], f), End(start, acts, f);
            && h.stage.from <= |h.sent| && h.stage.history == ListUnits(m.units, f)
            && (!Carried(h, id) <==>
                 if id in h.submitted then id in Early(h) && OutOfReach(m.units, f, id)
                 else id !in m.units || OutOfReach(m.units, f, id))
  {
    k := ReplayPoint(start, acts, f);
    var m, h := End(start, acts[..k], f), End(start, acts, f);
    RunKeepsInv(start, acts[..k], f);
    RunKeepsInv(start, acts, f);
    SinceReplay(m, f);
    RunKeepsSince(m, Step(m, ListHistory, f), acts[k + 1..], f);
    hide Inv, Since, OutOfReach, End, Carried, Step;
    CarriedIff(m, h, f, id);
    SinceMeans(m, h, f);
  }

  lemma SinceReplay(m: Hub, f: UnitFilter)
    requires Inv(m, f) && m.stage.Subscribed?
    ensures Since(m, Step(m, ListHistory, f), f)
  {
  }

  lemma SinceMeans(m: Hub, h: Hub, f: UnitFilter)
    requires Since(m, h, f)
    ensures h.stage.Streaming? && h.stage.from <= |h.sent| && h.stage.history == ListUnits(m.units, f)
  {
  }

  /** In every interleaving of submissions, broadcasts, federated insertions and the two steps of
      connecting, once nothing waits to be broadcast: a wanted submission is missed if and only if it was
      broadcast before the subscription and, when the stored units were replayed, a whole page of others
      came before it; every other one is in the historical batch or in the live part, and neither part
      repeats anything. */
  lemma StreamHasNoGap(acts: seq<Action>, f: UnitFilter, id: Id) returns (k: nat)
    requires IsSync(f) && IsRun(Empty, acts, f)
    requires var h := End(Empty, acts, f); h.stage.Streaming? && h.pending == {} && Wanted(h, f, id)
    ensures k < |acts| && acts[k] == ListHistory && IsRun(Empty, acts[..k], f)
    ensures var m, h := End(Empty, acts[..k], f), End(Empty, acts, f);
            && h.stage.from <= |h.sent|
            && (!Carried(h, id) <==> id in Early(h) && |Ahead(m.units, f, id)| >= f.limit)
            && StrictlyAscending(IdsOf(h.stage.history.units))
            && DistinctIds(h.sent[h.stage.from..])
  {
    RunKeepsInv(Empty, acts, f);
    k := StreamMissesIff(Empty, acts, f, id);
  }

  /** What is on its way to the subscriber, or has reached it, is public, and the replayed page has only
      what was asked for. */
  ghost predicate OnlyPublic(h: Hub, f: UnitFilter) {
    && (forall id :: id in h.pending && id in h.units ==> h.units[id].IsPublic())
    && (forall i :: 0 <= i < |h.sent| ==> h.sent[i].IsPublic())
    && (h.stage.Streaming? ==> PageIsWanted(h.stage.history, f))
  }

  ghost predicate PageIsWanted(p: Page, f: UnitFilter) {
    forall i :: 0 <= i < |p.units| ==> Matches(f, p.units[i]) && Beyond(f.after, p.units[i].id)
  }

  lemma ListedIsWanted(units: UnitMap, f: UnitFilter)
    requires Keyed(units)
    ensures PageIsWanted(ListUnits(units, f), f)
  {
    ListUnitsIsPage(units, f);
    var p := ListUnits(units, f);
    hide ListUnits, Matches;
    forall i | 0 <= i < |p.units| ensures Matches(f, p.units[i]) && Beyond(f.after, p.units[i].id) {
      assert p.units[i].id in IdSet(p.units);
    }
  }

  lemma StepKeepsPublic(h: Hub, a: Action, f: UnitFilter)
    requires Inv(h, f) && OnlyPublic(h, f) && Enabled(h, a)
    ensures OnlyPublic(Step(h, a, f), f)
  {
    hide ListUnits, Matches, PageIsWanted, NoGap, HistoryListed;
    if a.ListHistory? {
      ListedIsWanted(h.units, f);
    }
  }

  lemma {:induction false} RunKeepsPublic(h: Hub, acts: seq<Action>, f: UnitFilter)
    requires IsSync(f) && Inv(h, f) && OnlyPublic(h, f) && IsRun(h, acts, f)
    ensures OnlyPublic(End(h, acts, f), f)
    decreases |acts|
  {
    hide Inv, OnlyPublic;
    if acts != [] {
      StepKeepsInv(h, acts[0], f);
      StepKeepsPublic(h, acts[0], f);
      RunKeepsPublic(Step(h, acts[0], f), acts[1..], f);
    }
  }

  /** Nothing else comes through: in every interleaving each event of the stream is a stored public unit,
      unchanged; the replayed ones are of the requested kind and past the cursor, and the live ones were
      submitted, not federated. */
  lemma StreamIsPublic(acts: seq<Action>, f: UnitFilter)
    requires IsSync(f) && IsRun(Empty, acts, f) && End(Empty, acts, f).stage.Streaming?
    ensures var h := End(Empty, acts, f);
            && h.stage.from <= |h.sent|
            && (forall i :: 0 <= i < |h.stage.history.units| ==>
                  var u := h.stage.history.units[i];
                  u.IsPublic() && u.id in h.units && h.units[u.id] == u && Matches(f, u) && Beyond(f.after, u.id))
            && (forall i :: h.stage.from <= i < |h.sent| ==>
                  var u := h.sent[i];
                  u.IsPublic() && u.id in h.submitted && u.id in h.units && h.units[u.id] == u)
  {
    RunKeepsInv(Empty, acts, f);
    RunKeepsPublic(Empty, acts, f);
  }

  // ---------------------------------------------------------------------------
  // Reconnecting
  // ---------------------------------------------------------------------------

  /** The events of a stream, in order: the replayed page, then the live part. */
  function Events(h: Hub): seq<Unit>
    requires h.stage.Streaming? && h.stage.from <= |h.sent|
  {
    h.stage.history.units + h.sent[h.stage.from..]
  }

  /** The cursor of a connection whose request repeats the client's parameters and names the last event
      received: that event counts only if there is no `after` parameter. */
  function ResumeCursor(after: Option<Id>, received: seq<Unit>): Option<Id> {
    if after.Some? || received == [] then after else Some(received[|received| - 1].id)
  }

  function Disconnected(h: Hub): Hub {
    h.(stage := Offline)
  }

  lemma DisconnectedKeepsInv(h: Hub, f: UnitFilter, g: UnitFilter)
    requires Inv(h, f)
    ensures Inv(Disconnected(h), g)
  {
  }

  /** Two connections: from the start until the client breaks off, and a second one with the same
      parameters but the cursor `c`, which ends with nothing left to broadcast. */
  ghost predicate Reconnects(first: seq<Action>, second: seq<Action>, p: Params, c: Option<Id>) {
    && IsRun(Empty, first, SyncFilter(p))
    && var h := End(Empty, first, SyncFilter(p));
    && h.stage.Streaming? && h.stage.from <= |h.sent|
    && IsRun(Disconnected(h), second, SyncFilter(p.(after := c)))
    && var e := End(Disconnected(h), second, SyncFilter(p.(after := c)));
       e.stage.Streaming? && e.stage.from <= |e.sent| && e.pending == {}
  }

  ghost function FirstEnd(first: seq<Action>, p: Params): Hub
    requires IsRun(Empty, first, SyncFilter(p))
  {
    End(Empty, first, SyncFilter(p))
  }

  ghost function SecondEnd(first: seq<Action>, second: seq<Action>, p: Params, c: Option<Id>): Hub
    requires Reconnects(first, second, p, c)
  {
    End(Disconnected(FirstEnd(first, p)), second, SyncFilter(p.(after := c)))
  }

  /** What a second connection misses, whatever its cursor: a unit submitted and broadcast before the
      second subscription that is out of reach of the second replay, or a federated one that was not
      stored by then or is out of its reach. */
  lemma ReconnectMissesIff(first: seq<Action>, second: seq<Action>, p: Params, c: Option<Id>, id: Id) returns (k: nat)
    requires Reconnects(first, second, p, c)
    requires var e := SecondEnd(first, second, p, c); id in e.units && Matches(SyncFilter(p), e.units[id])
    ensures var h, g, e := FirstEnd(first, p), SyncFilter(p.(after := c)), SecondEnd(first, second, p, c);
            && k < |second| && second[k] == ListHistory && IsRun(Disconnected(h), second[..k], g)
            && var m := End(Disconnected(h), second[..k], g);
               (!Carried(e, id) <==>
                 if id in e.submitted then id in Early(e) && OutOfReach(m.units, g, id)
                 else id !in m.units || OutOfReach(m.units, g, id))
  {
    var f, h, g := SyncFilter(p), FirstEnd(first, p), SyncFilter(p.(after := c));
    assert IsSync(f) && IsSync(g);
    RunKeepsInv(Empty, first, f);
    DisconnectedKeepsInv(h, f, g);
    assert forall u :: Matches(f, u) ==> Matches(g, u);
    hide Inv, End, Carried, OutOfReach, SyncFilter, Early, Matches;
    k := StreamMissesIff(Disconnected(h), second, g, id);
  }

  /** Exactly when resuming leaves a gap. A client receives `n` events, breaks off at any moment, and
      connects again as event-stream clients do, repeating its request and naming the last event received,
      with anything happening in between. A unit of the requested kind that it had not received is missed
      for good if and only if it was submitted and broadcast before the second subscription and is out
      of reach of the second replay, or was federated and not stored by then or out of its reach. The
      replay starts from the last id received only if the request has no `after` parameter. */
  lemma ResumeLeavesGapIff(first: seq<Action>, n: nat, second: seq<Action>, p: Params, id: Id) returns (k: nat)
    requires IsRun(Empty, first, SyncFilter(p)) && FirstEnd(first, p).stage.Streaming?
    requires FirstEnd(first, p).stage.from <= |FirstEnd(first, p).sent| && n <= |Events(FirstEnd(first, p))|
    requires Reconnects(first, second, p, ResumeCursor(p.after, Events(FirstEnd(first, p))[..n]))
    requires id !in IdSet(Events(FirstEnd(first, p))[..n])
    requires var e := SecondEnd(first, second, p, ResumeCursor(p.after, Events(FirstEnd(first, p))[..n]));
             id in e.units && Matches(SyncFilter(p), e.units[id])
    ensures var h := FirstEnd(first, p);
            var c := ResumeCursor(p.after, Events(h)[..n]);
            var g, e := SyncFilter(p.(after := c)), SecondEnd(first, second, p, c);
            && k < |second| && second[k] == ListHistory && IsRun(Disconnected(h), second[..k], g)
            && var m := End(Disconnected(h), second[..k], g);
               (!Carried(e, id) <==>
                 if id in e.submitted then id in Early(e) && OutOfReach(m.units, g, id)
                 else id !in m.units || OutOfReach(m.units, g, id))
  {
    var c := ResumeCursor(p.after, Events(FirstEnd(first, p))[..n]);
    k := ReconnectMissesIff(first, second, p, c, id);
  }
}
