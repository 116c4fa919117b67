/** The in-memory graph of units: breadth-first traversal along or against references, and the
    subgraph of everything upstream and downstream of a unit. */
module Graph {
  import opened Units
  import opened Listing
  import opened Reachability

  datatype Direction = Outgoing | Incoming

  /** The stored units one reference away: those `id` references, or those that reference `id`. */
  function Neighbours(units: UnitMap, id: Id, dir: Direction): set<Id> {
    set x | x in units &&
      match dir
      case Outgoing => id in units && units[id].Mentions(x)
      case Incoming => units[x].Mentions(id)
  }

  ghost function Along(units: UnitMap, dir: Direction): Steps {
    (id: Id) => Neighbours(units, id, dir)
  }

  /** What a traversal from `start` must return: everything reachable but the start itself. */
  ghost predicate Reached(units: UnitMap, dir: Direction, start: Id, x: Id) {
    x != start && Reaches(Along(units, dir), start, x)
  }

  /** The references of a unit that are present, in order and as often as they are listed. */
  function Present(units: UnitMap, refs: seq<Reference>): seq<Unit> {
    if refs == [] then []
    else (if refs[0].id in units then [units[refs[0].id]] else []) + Present(units, refs[1..])
  }

  lemma {:induction false} PresentIds(units: UnitMap, refs: seq<Reference>)
    requires Keyed(units)
    ensures forall x :: x in IdSet(Present(units, refs)) <==> x in units && exists i :: 0 <= i < |refs| && refs[i].id == x
    ensures StoredIn(units, Present(units, refs))
  {
    if refs != [] {
      var rest := Present(units, refs[1..]);
      PresentIds(units, refs[1..]);
      assert forall i :: 1 <= i < |refs| ==> refs[i] == refs[1..][i - 1];
      var head := if refs[0].id in units then [units[refs[0].id]] else [];
      IdSetAppend(head, rest);
    }
  }

  lemma IdSetAppend(a: seq<Unit>, b: seq<Unit>)
    ensures IdSet(a + b) == IdSet(a) + IdSet(b)
  {
    forall x | x in IdSet(a) + IdSet(b) ensures x in IdSet(a + b) {
      if x in IdSet(a) {
        var i :| 0 <= i < |a| && a[i].id == x;
        assert (a + b)[i].id == x;
      } else {
        var i :| 0 <= i < |b| && b[i].id == x;
        assert (a + b)[|a| + i].id == x;
      }
    }
  }

  /** Units taken from the map, unchanged. */
  ghost predicate StoredIn(units: UnitMap, us: seq<Unit>) {
    forall i :: 0 <= i < |us| ==> us[i].id in units && units[us[i].id] == us[i]
  }

  /** The visiting order of a traversal: the start and then the results. */
  function Order(start: Id, result: seq<Unit>): seq<Id> {
    [start] + IdsOf(result)
  }

  lemma OrderSize(units: UnitMap, us: seq<Unit>, start: Id)
    requires StoredIn(units, us) && Distinct(Order(start, us))
    ensures |Order(start, us)| <= |units| + 1
  {
    var ids := IdsOf(us);
    forall i, j | 0 <= i < j < |ids| ensures ids[i] != ids[j] {
      assert Order(start, us)[i + 1] != Order(start, us)[j + 1];
    }
    DistinctSize(ids);
    forall x | x in Elems(ids) ensures x in units.Keys {
      var i :| 0 <= i < |ids| && ids[i] == x;
      assert us[i].id == x;
    }
    SubsetSize(Elems(ids), units.Keys);
    assert |ids| == |us|;
  }

  lemma OrderIds(start: Id, result: seq<Unit>, x: Id)
    requires Distinct(Order(start, result))
    ensures x in IdSet(result) <==> x != start && x in Order(start, result)
  {
    var order := Order(start, result);
    assert forall i :: 0 <= i < |result| ==> order[i + 1] == result[i].id;
    if x in IdSet(result) {
      var i :| 0 <= i < |result| && result[i].id == x;
      assert order[i + 1] == x && order[0] == start;
    }
    if x != start && x in order {
      var i :| 0 <= i < |order| && order[i] == x;
      assert result[i - 1].id == x;
    }
  }

  lemma OrderAppend(start: Id, result: seq<Unit>, added: seq<Unit>, h: nat)
    requires h < |Order(start, result)|
    ensures Order(start, result + added) == Order(start, result) + IdsOf(added)
    ensures Order(start, result + added)[h + 1..] == Order(start, result)[h..][1..] + IdsOf(added)
  {
  }

  /** One turn of the loop: the head of the queue is expanded. */
  lemma Turn(nb: Steps, start: Id, result: seq<Unit>, added: seq<Unit>, h: nat, m: nat, d: nat)
    requires Exploring(nb, start, Order(start, result), h, m, d) && h < m
    requires Distinct(IdsOf(added))
    requires Elems(IdsOf(added)) == nb(Order(start, result)[h]) - Elems(Order(start, result))
    ensures Exploring(nb, start, Order(start, result + added), h + 1, m, d)
    ensures Elems(Order(start, result + added)) == Elems(Order(start, result)) + nb(Order(start, result)[h])
  {
    OrderAppend(start, result, added, h);
    Expand(nb, start, Order(start, result), h, m, d, IdsOf(added));
    DistinctAppend(Order(start, result), IdsOf(added));
  }

  /** The state of a traversal: what has been visited, in order, and what is still queued. */
  ghost predicate Traversal(units: UnitMap, nb: Steps, start: Id, visited: set<Id>, queue: seq<Id>, result: seq<Unit>,
                            h: nat, m: nat, d: nat)
  {
    && StoredIn(units, result)
    && Exploring(nb, start, Order(start, result), h, m, d)
    && visited == Elems(Order(start, result))
    && queue == Order(start, result)[h..]
  }

  lemma TraversalTurn(units: UnitMap, nb: Steps, start: Id, visited: set<Id>, queue: seq<Id>, result: seq<Unit>,
                      h: nat, m: nat, d: nat, added: seq<Unit>)
    requires Traversal(units, nb, start, visited, queue, result, h, m, d) && queue != [] && h < m
    requires StoredIn(units, added) && Distinct(IdsOf(added))
    requires Elems(IdsOf(added)) == nb(queue[0]) - visited
    ensures Traversal(units, nb, start, visited + nb(queue[0]), queue[1..] + IdsOf(added), result + added, h + 1, m, d)
  {
    Turn(nb, start, result, added, h, m, d);
    OrderAppend(start, result, added, h);
  }

  /** While something is queued the current layer can be taken to have an id left to expand, and the
      number of turns is bounded by the number of units. */
  lemma TraversalGoesOn(units: UnitMap, nb: Steps, start: Id, visited: set<Id>, queue: seq<Id>, result: seq<Unit>,
                        h: nat, m: nat, d: nat) returns (m': nat, d': nat)
    requires Traversal(units, nb, start, visited, queue, result, h, m, d) && queue != []
    ensures Traversal(units, nb, start, visited, queue, result, h, m', d') && h < m'
    ensures h < |units| + 1
  {
    OrderSize(units, result, start);
    m', d' := m, d;
    if h == m {
      NextLayer(nb, start, Order(start, result), h, m, d);
      m', d' := |Order(start, result)|, d + 1;
    }
  }

  lemma TraversalEnds(units: UnitMap, dir: Direction, start: Id, visited: set<Id>, result: seq<Unit>, h: nat, m: nat, d: nat)
    requires Traversal(units, Along(units, dir), start, visited, [], result, h, m, d)
    ensures IsBfs(units, dir, start, result)
  {
    ExploredAll(Along(units, dir), start, Order(start, result), m, d);
    forall x { OrderIds(start, result, x); }
  }

  /** What breadth-first search promises: exactly the units reachable in the given direction, each
      once, without the start, in order of hop distance. */
  ghost predicate IsBfs(units: UnitMap, dir: Direction, start: Id, result: seq<Unit>) {
    && StoredIn(units, result)
    && Distinct(Order(start, result))
    && (forall x :: x in IdSet(result) <==> Reached(units, dir, start, x))
    && Layered(Along(units, dir), start, Order(start, result))
  }

  class Graph {
    var units: UnitMap

    ghost predicate Valid()
      reads this
    {
      Keyed(units)
    }

    constructor ()
      ensures Valid() && units == map[]
    {
      units := map[];
    }

    constructor FromUnits(us: seq<Unit>)
      ensures Valid()
      ensures units.Keys == IdSet(us)
      ensures forall id :: id in units ==> units[id] in us
    {
      units := map[];
      new;
      for i := 0 to |us|
        invariant Valid() && units.Keys == IdSet(us[..i])
        invariant forall id :: id in units ==> units[id] in us
      {
        assert us[..i + 1] == us[..i] + [us[i]];
        IdSetAppend(us[..i], [us[i]]);
        Add(us[i]);
      }
      assert us[..|us|] == us;
    }

    /** A unit with the same id replaces the earlier one. */
    method Add(u: Unit)
      requires Valid()
      modifies this
      ensures Valid() && units == old(units)[u.id := u]
    {
      units := units[u.id := u];
    }

    method NeighbourUnits(id: Id, dir: Direction) returns (us: seq<Unit>)
      requires Valid()
      ensures StoredIn(units, us) && IdSet(us) == Neighbours(units, id, dir)
    {
      match dir {
        case Outgoing =>
          if id !in units {
            us := [];
          } else {
            us := Present(units, units[id].Refs());
            PresentIds(units, units[id].Refs());
            forall x ensures x in IdSet(us) <==> x in Neighbours(units, id, dir) {
            }
          }
        case Incoming =>
          us := IncomingUnits(id);
      }
    }

    /** The map is scanned in no particular order. */
    method IncomingUnits(id: Id) returns (us: seq<Unit>)
      requires Valid()
      ensures StoredIn(units, us) && IdSet(us) == Neighbours(units, id, Incoming)
    {
      us := [];
      var rest := units.Keys;
      while rest != {}
        invariant rest <= units.Keys && StoredIn(units, us)
        invariant IdSet(us) == Neighbours(units, id, Incoming) - rest
        decreases rest
      {
        var x :| x in rest;
        if units[x].Mentions(id) {
          IdSetAppend(us, [units[x]]);
          assert IdSet([units[x]]) == {x} by { assert [units[x]][0].id == x; }
          us := us + [units[x]];
        }
        rest := rest - {x};
      }
    }

    /** The body of both traversal loops: the neighbours not seen before join the queue and the result. */
    method Visit(neighbours: seq<Unit>, visited: set<Id>, queue: seq<Id>, result: seq<Unit>)
      returns (visited': set<Id>, queue': seq<Id>, result': seq<Unit>, ghost added: seq<Unit>)
      requires StoredIn(units, neighbours)
      ensures visited' == visited + IdSet(neighbours)
      ensures queue' == queue + IdsOf(added) && result' == result + added
      ensures StoredIn(units, added) && Distinct(IdsOf(added))
      ensures Elems(IdsOf(added)) == IdSet(neighbours) - visited
    {
      visited', queue', result', added := visited, queue, result, [];
      assert IdsOf(added) == [];
      for i := 0 to |neighbours|
        invariant visited' == visited + IdSet(neighbours[..i])
        invariant queue' == queue + IdsOf(added) && result' == result + added
        invariant StoredIn(units, added) && Distinct(IdsOf(added))
        invariant Elems(IdsOf(added)) == IdSet(neighbours[..i]) - visited
      {
        var u := neighbours[i];
        assert neighbours[..i + 1] == neighbours[..i] + [u];
        IdSetAppend(neighbours[..i], [u]);
        assert IdSet([u]) == {u.id} by { assert [u][0].id == u.id; }
        if u.id !in visited' {
          DistinctAppend(IdsOf(added), [u.id]);
          assert IdsOf(added + [u]) == IdsOf(added) + [u.id];
          visited', queue', result', added := visited' + {u.id}, queue' + [u.id], result' + [u], added + [u];
        }
      }
      assert neighbours[..|neighbours|] == neighbours;
    }

    /** One turn of the loop: expand the id at the head of the queue. */
    method Expand(start: Id, dir: Direction, visited: set<Id>, queue: seq<Id>, result: seq<Unit>,
                  ghost h: nat, ghost m: nat, ghost d: nat)
      returns (visited': set<Id>, queue': seq<Id>, result': seq<Unit>)
      requires Valid() && queue != [] && h < m
      requires Traversal(units, Along(units, dir), start, visited, queue, result, h, m, d)
      ensures Traversal(units, Along(units, dir), start, visited', queue', result', h + 1, m, d)
    {
      var neighbours := NeighbourUnits(queue[0], dir);
      ghost var added;
      visited', queue', result', added := Visit(neighbours, visited, queue[1..], result);
      TraversalTurn(units, Along(units, dir), start, visited, queue, result, h, m, d, added);
    }

    /** Breadth-first search ends on every graph, cyclic or with repeated or dangling references. */
    method Bfs(start: Id, dir: Direction) returns (result: seq<Unit>)
      requires Valid()
      ensures IsBfs(units, dir, start, result)
    {
      ghost var nb := Along(units, dir);
      ghost var h: nat, m: nat, d: nat := 1, 1, 0;
      var visited, queue;
      visited, queue, result := Expand(start, dir, {start}, [start], [], 0, 1, 0);

      while queue != []
        invariant Traversal(units, nb, start, visited, queue, result, h, m, d)
        decreases |units| + 1 - h
      {
        m, d := TraversalGoesOn(units, nb, start, visited, queue, result, h, m, d);
        visited, queue, result := Expand(start, dir, visited, queue, result, h, m, d);
        h := h + 1;
      }
      TraversalEnds(units, dir, start, visited, result, h, m, d);
    }

    /** The units reachable along references. */
    method Ancestors(id: Id) returns (result: seq<Unit>)
      requires Valid()
      ensures IsBfs(units, Outgoing, id, result)
    {
      result := Bfs(id, Outgoing);
    }

    /** The units that reach `id` along references. */
    method Descendants(id: Id) returns (result: seq<Unit>)
      requires Valid()
      ensures IsBfs(units, Incoming, id, result)
    {
      result := Bfs(id, Incoming);
    }

    method Subgraph(id: Id) returns (g: Graph)
      requires Valid()
      ensures fresh(g) && g.Valid() && g.units == SubgraphOf(units, id)
    {
      var up := Ancestors(id);
      var down := Descendants(id);
      var seen := {id} + IdSet(up) + IdSet(down);
      var rest := seen * units.Keys;
      var us: seq<Unit> := [];
      while rest != {}
        invariant rest <= seen * units.Keys
        invariant StoredIn(units, us) && IdSet(us) == seen * units.Keys - rest
        decreases rest
      {
        var x :| x in rest;
        IdSetAppend(us, [units[x]]);
        assert IdSet([units[x]]) == {x} by { assert [units[x]][0].id == x; }
        us := us + [units[x]];
        rest := rest - {x};
      }
      g := new Graph.FromUnits(us);
      assert g.units == SubgraphOf(units, id);
    }
  }

  // ---------------------------------------------------------------------------
  // Upstream, downstream and the subgraph
  // ---------------------------------------------------------------------------

  /** The part of the store upstream or downstream of `id`, and `id` itself. */
  ghost function SubgraphOf(units: UnitMap, id: Id): UnitMap {
    map x | x in units && (x == id || Reached(units, Outgoing, id, x) || Reached(units, Incoming, id, x)) :: units[x]
  }

  lemma WalkStaysInStore(units: UnitMap, dir: Direction, a: Id, b: Id, p: seq<Id>)
    requires IsWalk(Along(units, dir), a, b, p)
    ensures forall i :: 1 <= i < |p| ==> p[i] in units
  {
    forall i | 1 <= i < |p| ensures p[i] in units {
      assert p[i - 1 + 1] in Along(units, dir)(p[i - 1]);
    }
  }

  lemma WalkPrefix(nb: Steps, a: Id, b: Id, p: seq<Id>, i: nat)
    requires IsWalk(nb, a, b, p) && i < |p|
    ensures Reaches(nb, a, p[i])
  {
    assert IsWalk(nb, a, p[i], p[..i + 1]);
    ReachesByWalk(nb, a, p[i]);
  }

  lemma ReversedReach(units: UnitMap, dir: Direction, back: Direction, a: Id, b: Id)
    requires Keyed(units) && a in units && dir != back
    requires Reaches(Along(units, dir), a, b)
    ensures Reaches(Along(units, back), b, a)
  {
    ReachesByWalk(Along(units, dir), a, b);
    var p :| IsWalk(Along(units, dir), a, b, p);
    WalkStaysInStore(units, dir, a, b, p);
    assert forall x :: x in p ==> x in units;
    ReverseWalk(Along(units, dir), Along(units, back), a, b, p);
    ReachesByWalk(Along(units, back), b, a);
  }

  /** For units that are present, being an ancestor and being a descendant are converse. */
  lemma AncestorsAndDescendantsAreConverse(units: UnitMap, a: Id, b: Id)
    requires Keyed(units) && a in units && b in units
    ensures Reached(units, Outgoing, a, b) <==> Reached(units, Incoming, b, a)
  {
    if Reached(units, Outgoing, a, b) {
      ReversedReach(units, Outgoing, Incoming, a, b);
    }
    if Reached(units, Incoming, b, a) {
      ReversedReach(units, Incoming, Outgoing, b, a);
    }
  }

  /** A store that agrees with `units` on part of the ids, and holds at least what is reachable in one
      direction from `start`, reaches the same ids in that direction. */
  lemma ReachedInPart(units: UnitMap, part: UnitMap, dir: Direction, start: Id, x: Id)
    requires Extends(part, units)
    requires start in units ==> start in part
    requires forall y :: Reached(units, dir, start, y) ==> y in part
    ensures Reached(part, dir, start, x) <==> Reached(units, dir, start, x)
  {
    var whole, within := Along(units, dir), Along(part, dir);
    ReachesByWalk(whole, start, x);
    ReachesByWalk(within, start, x);
    if Reached(part, dir, start, x) {
      var p :| IsWalk(within, start, x, p);
      WalkCarriesOver(within, whole, start, x, p);
    }
    if Reached(units, dir, start, x) {
      var p :| IsWalk(whole, start, x, p);
      WalkStaysInStore(units, dir, start, x, p);
      forall i | 0 <= i < |p| && p[i] in units ensures p[i] in part {
        WalkPrefix(whole, start, x, p, i);
        assert p[i] == start || Reached(units, dir, start, p[i]);
      }
      WalkCarriesOver(whole, within, start, x, p);
    }
  }

  /** The subgraph has the root's ancestors and descendants, all of them and no others. */
  lemma SubgraphKeepsReach(units: UnitMap, id: Id, dir: Direction, x: Id)
    ensures Reached(SubgraphOf(units, id), dir, id, x) <==> Reached(units, dir, id, x)
  {
    forall y | Reached(units, dir, id, y) ensures y in SubgraphOf(units, id) {
      ReachesByWalk(Along(units, dir), id, y);
      var p :| IsWalk(Along(units, dir), id, y, p);
      WalkStaysInStore(units, dir, id, y, p);
    }
    ReachedInPart(units, SubgraphOf(units, id), dir, id, x);
  }

  lemma SubgraphIsIdempotent(units: UnitMap, id: Id)
    ensures SubgraphOf(SubgraphOf(units, id), id) == SubgraphOf(units, id)
  {
    var s := SubgraphOf(units, id);
    forall x | x in s ensures x in SubgraphOf(s, id) {
      SubgraphKeepsReach(units, id, Outgoing, x);
      SubgraphKeepsReach(units, id, Incoming, x);
    }
  }
}
