/** The subgraph endpoint: a depth-limited traversal of the store in both directions, and then the
    subgraph of what was loaded. */
module SubgraphHandler {
  import opened Units
  import opened Listing
  import opened Reachability
  import opened Graph

  /** One hop in either direction. */
  ghost function Around(store: UnitMap): Steps {
    (id: Id) => Neighbours(store, id, Outgoing) + Neighbours(store, id, Incoming)
  }

  /** The units of the store within `n` undirected hops of the root. */
  ghost function Loaded(store: UnitMap, root: Id, n: nat): UnitMap {
    map x | x in Ball(Around(store), root, n) && x in store :: store[x]
  }

  /** The edge lookups of the handler: the stored units a unit lists, and those that list an id. */
  function ReferencedUnits(store: UnitMap, u: Unit): seq<Unit> {
    Present(store, u.Refs())
  }

  function ReferencingUnits(store: UnitMap, id: Id): seq<Unit> {
    Range(store, set x | x in store && store[x].Mentions(id))
  }

  lemma EdgeLookups(store: UnitMap, id: Id)
    requires Keyed(store) && id in store
    ensures StoredIn(store, ReferencedUnits(store, store[id])) && StoredIn(store, ReferencingUnits(store, id))
    ensures IdSet(ReferencedUnits(store, store[id])) == Neighbours(store, id, Outgoing)
    ensures IdSet(ReferencingUnits(store, id)) == Neighbours(store, id, Incoming)
  {
    PresentIds(store, store[id].Refs());
    assert IdSet(ReferencedUnits(store, store[id])) == Neighbours(store, id, Outgoing);
    var ids := set x | x in store && store[x].Mentions(id);
    RangeLists(store, ids);
    ListsIdSet(store, Range(store, ids), ids);
    assert ids == Neighbours(store, id, Incoming);
  }

  /** Adding `us`, taken from the store, to the graph: the ids not there yet are the next frontier. */
  method AddNew(g: Graph, store: UnitMap, us: seq<Unit>, next: seq<Id>) returns (next': seq<Id>)
    requires g.Valid() && Extends(g.units, store) && StoredIn(store, us)
    modifies g
    ensures g.Valid() && Extends(g.units, store)
    ensures g.units.Keys == old(g.units.Keys) + IdSet(us)
    ensures Elems(next') == Elems(next) + (IdSet(us) - old(g.units.Keys))
  {
    next' := next;
    for i := 0 to |us|
      invariant g.Valid() && Extends(g.units, store)
      invariant g.units.Keys == old(g.units.Keys) + IdSet(us[..i])
      invariant Elems(next') == Elems(next) + (IdSet(us[..i]) - old(g.units.Keys))
    {
      var u := us[i];
      assert us[..i + 1] == us[..i] + [u];
      IdSetAppend(us[..i], [u]);
      assert IdSet([u]) == {u.id} by { assert [u][0].id == u.id; }
      if u.id !in g.units {
        ElemsAppend(next', u.id);
        next' := next' + [u.id];
        g.Add(u);
      }
    }
    assert us[..|us|] == us;
  }

  /** Expanding one id of the frontier: what it references, then what references it. */
  method ExpandNode(g: Graph, store: UnitMap, node: Id, next: seq<Id>) returns (next': seq<Id>)
    requires Keyed(store) && g.Valid() && Extends(g.units, store) && node in g.units
    modifies g
    ensures g.Valid() && Extends(g.units, store)
    ensures g.units.Keys == old(g.units.Keys) + Around(store)(node)
    ensures Elems(next') == Elems(next) + (Around(store)(node) - old(g.units.Keys))
  {
    var outgoing := ReferencedUnits(store, g.units[node]);
    EdgeLookups(store, node);
    next' := AddNew(g, store, outgoing, next);
    var incoming := ReferencingUnits(store, node);
    next' := AddNew(g, store, incoming, next');
  }

  method ExpandFrontier(g: Graph, store: UnitMap, frontier: seq<Id>) returns (next: seq<Id>)
    requires Keyed(store) && g.Valid() && Extends(g.units, store) && Elems(frontier) <= g.units.Keys
    modifies g
    ensures g.Valid() && Extends(g.units, store)
    ensures g.units.Keys == old(g.units.Keys) + Image(Around(store), Elems(frontier))
    ensures Elems(next) == g.units.Keys - old(g.units.Keys)
  {
    next := [];
    for i := 0 to |frontier|
      invariant g.Valid() && Extends(g.units, store) && old(g.units.Keys) <= g.units.Keys
      invariant g.units.Keys == old(g.units.Keys) + Image(Around(store), Elems(frontier[..i]))
      invariant Elems(next) == g.units.Keys - old(g.units.Keys)
    {
      assert frontier[i] in Elems(frontier);
      ImageGrows(Around(store), frontier, i);
      next := ExpandNode(g, store, frontier[i], next);
    }
    assert frontier[..|frontier|] == frontier;
  }

  lemma ImageGrows(nb: Steps, s: seq<Id>, i: nat)
    requires i < |s|
    ensures Image(nb, Elems(s[..i + 1])) == Image(nb, Elems(s[..i])) + nb(s[i])
  {
  }

  /** After `k` rounds the graph holds exactly the ball of radius `k`, and every loaded id either is on
      the frontier or has all its neighbours loaded. */
  ghost predicate Round(store: UnitMap, root: Id, k: nat, loaded: set<Id>, frontier: set<Id>) {
    && loaded == Ball(Around(store), root, k)
    && frontier <= loaded
    && forall x :: x in loaded && x !in frontier ==> Around(store)(x) <= loaded
  }

  lemma NextRound(store: UnitMap, root: Id, k: nat, loaded: set<Id>, frontier: set<Id>)
    requires Round(store, root, k, loaded, frontier)
    ensures var loaded' := loaded + Image(Around(store), frontier);
            Round(store, root, k + 1, loaded', loaded' - loaded)
  {
  }

  lemma {:induction false} EmptyFrontierIsFinal(store: UnitMap, root: Id, k: nat, n: nat, loaded: set<Id>)
    requires Round(store, root, k, loaded, {}) && k <= n
    ensures loaded == Ball(Around(store), root, n)
  {
    BallGrows(Around(store), root, 0, k);
    ClosedContainsBall(Around(store), root, loaded, n);
    BallGrows(Around(store), root, k, n);
  }

  /** The traversal loads exactly the stored units within `maxDepth` undirected hops of the root. */
  method LoadAround(store: UnitMap, root: Unit, maxDepth: nat) returns (g: Graph)
    requires Keyed(store) && root.id in store && store[root.id] == root
    ensures fresh(g) && g.Valid()
    ensures g.units == Loaded(store, root.id, maxDepth)
  {
    g := new Graph();
    g.Add(root);
    var frontier := [root.id];
    assert Elems(frontier) == {root.id};
    var k := 0;
    while k < maxDepth && frontier != []
      invariant 0 <= k <= maxDepth && fresh(g) && g.Valid() && Extends(g.units, store)
      invariant Round(store, root.id, k, g.units.Keys, Elems(frontier))
    {
      NextRound(store, root.id, k, g.units.Keys, Elems(frontier));
      frontier := ExpandFrontier(g, store, frontier);
      k := k + 1;
    }
    if k < maxDepth {
      assert Elems(frontier) == {};
      EmptyFrontierIsFinal(store, root.id, k, maxDepth, g.units.Keys);
    }
  }

  datatype HandlerError = NotFound

  /** The depth parameter: 10 when absent, at most 50. */
  function MaxDepth(depth: Option<nat>): nat {
    if depth.None? then 10 else if depth.value < 50 then depth.value else 50
  }

  /** What a reply at depth `d` is: stored units, none of them more than `d` hops from the root in whatever
      direction each hop goes, among them every ancestor and every descendant within `d` hops. All of it is
      public exactly when no non-public unit is at the end of a walk inside the loaded ball. */
  ghost predicate RepliesAt(store: UnitMap, id: Id, d: nat, reply: UnitMap) {
    && Extends(reply, store)
    && (forall x :: x in reply ==> exists p :: IsWalk(Around(store), id, x, p) && |p| - 1 <= d)
    && (forall dir, x, p :: IsWalk(Along(store, dir), id, x, p) && |p| - 1 <= d ==> x in reply)
    && reply == SubgraphOf(Loaded(store, id, d), id)
    && ((forall x :: x in reply ==> reply[x].IsPublic()) <==> !NonPublicNearby(store, id, d))
  }

  /** `GET /v1/units/{id}/subgraph`. Only the visibility of the root is checked. The depth is the one asked
      for up to 50, 50 beyond that, and 10 if none is asked for. */
  method HandleSubgraph(store: UnitMap, id: Id, depth: Option<nat>) returns (r: Result<UnitMap, HandlerError>)
    requires Keyed(store)
    ensures r.Ok? <==> id in store && store[id].IsPublic()
    ensures r.Ok? && depth == None ==> RepliesAt(store, id, 10, r.value)
    ensures r.Ok? && depth.Some? && depth.value <= 50 ==> RepliesAt(store, id, depth.value, r.value)
    ensures r.Ok? && depth.Some? && depth.value > 50 ==> RepliesAt(store, id, 50, r.value)
  {
    hide RepliesAt;
    if id !in store || !store[id].IsPublic() {
      return Err(NotFound);
    }
    var g := LoadAround(store, store[id], MaxDepth(depth));
    var sub := g.Subgraph(id);
    SubgraphReplies(store, id, MaxDepth(depth));
    r := Ok(sub.units);
  }

  // ---------------------------------------------------------------------------
  // What the reply contains
  // ---------------------------------------------------------------------------

  /** Every directed walk is a walk in the undirected sense, so each of its ids is that close. */
  lemma DirectedWalkInBall(store: UnitMap, dir: Direction, a: Id, b: Id, p: seq<Id>, i: nat)
    requires IsWalk(Along(store, dir), a, b, p) && i < |p|
    ensures p[i] in Ball(Around(store), a, |p| - 1)
  {
    WalkCarriesOver(Along(store, dir), Around(store), a, b, p);
    assert IsWalk(Around(store), a, p[i], p[..i + 1]);
    WalkEndsInBall(Around(store), a, p[i], p[..i + 1]);
    BallGrows(Around(store), a, i, |p| - 1);
  }

  ghost predicate WalkInside(store: UnitMap, inside: set<Id>, dir: Direction, a: Id, b: Id, p: seq<Id>) {
    IsWalk(Along(store, dir), a, b, p) && Elems(p) <= inside
  }

  lemma WalkInsideIsReached(store: UnitMap, part: UnitMap, dir: Direction, a: Id, b: Id, p: seq<Id>)
    requires Extends(part, store) && WalkInside(store, part.Keys, dir, a, b, p)
    ensures Reaches(Along(part, dir), a, b) && Reaches(Along(store, dir), a, b) && b in part
  {
    assert forall i :: 0 <= i < |p| ==> p[i] in Elems(p);
    WalkCarriesOver(Along(store, dir), Along(part, dir), a, b, p);
    ReachesByWalk(Along(part, dir), a, b);
    ReachesByWalk(Along(store, dir), a, b);
  }

  lemma ReachedHasWalkInside(store: UnitMap, part: UnitMap, dir: Direction, a: Id, b: Id) returns (p: seq<Id>)
    requires Extends(part, store) && a in part && Reaches(Along(part, dir), a, b)
    ensures WalkInside(store, part.Keys, dir, a, b, p)
  {
    ReachesByWalk(Along(part, dir), a, b);
    p :| IsWalk(Along(part, dir), a, b, p);
    WalkStaysInStore(part, dir, a, b, p);
    WalkCarriesOver(Along(part, dir), Along(store, dir), a, b, p);
  }

  lemma RootIsLoaded(store: UnitMap, id: Id, d: nat)
    requires id in store
    ensures id in Loaded(store, id, d) && Extends(Loaded(store, id, d), store)
    ensures Reaches(Along(store, Outgoing), id, id)
  {
    BallGrows(Around(store), id, 0, d);
    assert id in Ball(Along(store, Outgoing), id, 0);
  }

  /** The reply is exactly the ids reached from the root by a walk all along references, or all against
      them, that stays inside the loaded ball. */
  lemma ReplyIsWalksInsideBall(store: UnitMap, id: Id, d: nat, x: Id)
    requires id in store
    ensures x in SubgraphOf(Loaded(store, id, d), id) <==>
              exists dir, p :: WalkInside(store, Loaded(store, id, d).Keys, dir, id, x, p)
  {
    var part := Loaded(store, id, d);
    RootIsLoaded(store, id, d);
    if x in SubgraphOf(part, id) {
      if x == id {
        assert WalkInside(store, part.Keys, Outgoing, id, x, [id]);
      } else {
        var dir := if Reached(part, Outgoing, id, x) then Outgoing else Incoming;
        var p := ReachedHasWalkInside(store, part, dir, id, x);
      }
    }
    if dir, p :| WalkInside(store, part.Keys, dir, id, x, p) {
      WalkInsideIsReached(store, part, dir, id, x, p);
      assert dir == Outgoing || dir == Incoming;
    }
  }

  /** Nothing within `d` hops up or down is missing from the reply. */
  lemma ReplyHasNearRelatives(store: UnitMap, id: Id, d: nat, dir: Direction, x: Id)
    requires id in store && x in Ball(Along(store, dir), id, d)
    ensures x in SubgraphOf(Loaded(store, id, d), id)
  {
    BallIsWalks(Along(store, dir), id, x, d);
    var p :| IsWalk(Along(store, dir), id, x, p) && |p| <= d + 1;
    RootIsLoaded(store, id, d);
    WalkStaysInStore(store, dir, id, x, p);
    forall y | y in Elems(p) ensures y in Loaded(store, id, d) {
      var i :| 0 <= i < |p| && p[i] == y;
      DirectedWalkInBall(store, dir, id, x, p, i);
      BallGrows(Around(store), id, |p| - 1, d);
    }
    assert WalkInside(store, Loaded(store, id, d).Keys, dir, id, x, p);
    ReplyIsWalksInsideBall(store, id, d, x);
  }

  // ---------------------------------------------------------------------------
  // Non-public units in the reply
  // ---------------------------------------------------------------------------

  ghost predicate NonPublicNearby(store: UnitMap, id: Id, d: nat) {
    exists dir, x, p ::
      WalkInside(store, Loaded(store, id, d).Keys, dir, id, x, p) && x in store && !store[x].IsPublic()
  }

  lemma ReplyUnchanged(store: UnitMap, id: Id, d: nat, x: Id)
    requires id in store && x in SubgraphOf(Loaded(store, id, d), id)
    ensures x in store && SubgraphOf(Loaded(store, id, d), id)[x] == store[x]
  {
  }

  /** The reply leaves out non-public units, as documented, exactly when no stored non-public unit is at
      the end of a walk from the root, all along or all against references, inside the loaded ball. */
  lemma ReplyIsPublicIff(store: UnitMap, id: Id, d: nat)
    requires id in store
    ensures var reply := SubgraphOf(Loaded(store, id, d), id);
            (forall x :: x in reply ==> reply[x].IsPublic()) <==> !NonPublicNearby(store, id, d)
  {
    var reply := SubgraphOf(Loaded(store, id, d), id);
    forall x | x in reply ensures x in store && reply[x] == store[x] {
      ReplyUnchanged(store, id, d, x);
    }
    if x :| x in reply && !reply[x].IsPublic() {
      ReplyIsWalksInsideBall(store, id, d, x);
    }
    if dir, x, p :| && WalkInside(store, Loaded(store, id, d).Keys, dir, id, x, p)
                    && x in store && !store[x].IsPublic() {
      ReplyIsWalksInsideBall(store, id, d, x);
    }
  }

  lemma SubgraphReplies(store: UnitMap, id: Id, d: nat)
    requires id in store
    ensures RepliesAt(store, id, d, SubgraphOf(Loaded(store, id, d), id))
  {
    hide SubgraphOf;
    var reply := SubgraphOf(Loaded(store, id, d), id);
    forall x | x in reply
      ensures x in store && reply[x] == store[x] && exists p :: IsWalk(Around(store), id, x, p) && |p| - 1 <= d
    {
      ReplyUnchanged(store, id, d, x);
      ReplyIsLoaded(store, id, d, x);
      BallIsWalks(Around(store), id, x, d);
    }
    forall dir, x, p | IsWalk(Along(store, dir), id, x, p) && |p| - 1 <= d ensures x in reply {
      BallIsWalks(Along(store, dir), id, x, d);
      ReplyHasNearRelatives(store, id, d, dir, x);
    }
    ReplyIsPublicIff(store, id, d);
  }

  lemma ReplyIsLoaded(store: UnitMap, id: Id, d: nat, x: Id)
    requires id in store && x in SubgraphOf(Loaded(store, id, d), id)
    ensures x in Ball(Around(store), id, d)
  {
  }

  function PublicRoot(): Unit {
    Unit(1, Assertion, "did:key:a", 0, Some([Reference(2, "supports")]), None, None, "")
  }

  function LimitedLeaf(): Unit {
    Unit(2, Assertion, "did:key:a", 0, None, Some(Limited), Some(["did:key:b"]), "")
  }

  /** It happens with one public unit that refers to one limited unit: whoever asks for the subgraph of
      the first, at the default depth, is sent the second. */
  lemma LimitedUnitIsServed(store: UnitMap)
    requires store == map[1 := PublicRoot(), 2 := LimitedLeaf()]
    ensures Keyed(store) && store[1].IsPublic() && store[2].Vis() == Limited
    ensures var reply := SubgraphOf(Loaded(store, 1, MaxDepth(None)), 1);
            2 in reply && reply[2] == store[2]
  {
    hide SubgraphOf, Loaded, Ball;
    assert PublicRoot().Refs()[0].id == 2;
    assert 2 in Along(store, Outgoing)(1);
    BallIsWalks(Along(store, Outgoing), 1, 1, 0);
    assert IsWalk(Along(store, Outgoing), 1, 1, [1]);
    BallStep(Along(store, Outgoing), 1, 0, 1, 2);
    BallGrows(Along(store, Outgoing), 1, 1, 10);
    ReplyHasNearRelatives(store, 1, 10, Outgoing, 2);
    ReplyUnchanged(store, 1, 10, 2);
  }

  /** The root's component is exhausted: one more hop would load nothing new. */
  ghost predicate Exhausted(store: UnitMap, id: Id, d: nat) {
    forall x :: x in Ball(Around(store), id, d) ==> Around(store)(x) <= Ball(Around(store), id, d)
  }

  /** The reply holds nothing outside the subgraph of the whole store, each unit unchanged; once the
      root's component is exhausted the two are equal. */
  lemma ReplyWithinFullSubgraph(store: UnitMap, id: Id, d: nat)
    requires id in store
    ensures Extends(SubgraphOf(Loaded(store, id, d), id), SubgraphOf(store, id))
    ensures Exhausted(store, id, d) ==> SubgraphOf(Loaded(store, id, d), id) == SubgraphOf(store, id)
  {
    var part, full := SubgraphOf(Loaded(store, id, d), id), SubgraphOf(store, id);
    forall x | x in part ensures x in full {
      ReplyInFull(store, id, d, x);
    }
    if Exhausted(store, id, d) {
      forall x | x in full ensures x in part {
        ExhaustedHasAll(store, id, d, x);
      }
    }
  }

  lemma ReplyInFull(store: UnitMap, id: Id, d: nat, x: Id)
    requires id in store && x in SubgraphOf(Loaded(store, id, d), id)
    ensures x in SubgraphOf(store, id)
  {
    RootIsLoaded(store, id, d);
    ReplyIsWalksInsideBall(store, id, d, x);
    var dir, p :| WalkInside(store, Loaded(store, id, d).Keys, dir, id, x, p);
    WalkInsideIsReached(store, Loaded(store, id, d), dir, id, x, p);
    assert dir == Outgoing || dir == Incoming;
  }

  lemma ExhaustedHasAll(store: UnitMap, id: Id, d: nat, x: Id)
    requires id in store && x in SubgraphOf(store, id) && Exhausted(store, id, d)
    ensures x in SubgraphOf(Loaded(store, id, d), id)
  {
    var dir := if Reached(store, Outgoing, id, x) then Outgoing else Incoming;
    RootIsLoaded(store, id, d);
    assert x == id || Reaches(Along(store, dir), id, x);
    ReachesByWalk(Along(store, dir), id, x);
    var p := if x == id then [id] else (var q :| IsWalk(Along(store, dir), id, x, q); q);
    assert IsWalk(Along(store, dir), id, x, p);
    WalkStaysInStore(store, dir, id, x, p);
    ClosedContainsBall(Around(store), id, Ball(Around(store), id, d), |p| - 1);
    forall y | y in Elems(p) ensures y in Loaded(store, id, d) {
      var i :| 0 <= i < |p| && p[i] == y;
      DirectedWalkInBall(store, dir, id, x, p, i);
    }
    assert WalkInside(store, Loaded(store, id, d).Keys, dir, id, x, p);
    ReplyIsWalksInsideBall(store, id, d, x);
  }
}
