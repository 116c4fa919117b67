/** Any number of nodes that pull from each other, each in its own order and with its own cursor for every
    other node, while clients submit units to all of them. */
module ManyNodes {
  import opened Units
  import opened Listing
  import opened Federation

  datatype Pull = Idle | Storing(from: NodeId, rest: seq<Unit>, cursor: Option<Id>)

  /** `own` are the public ids that entered at this node by submission; `served` is the last id this node
      has sent to any other. */
  datatype Node = Node(units: UnitMap, cursors: map<NodeId, Id>, pull: Pull, own: set<Id>, served: Option<Id>) {
    function CursorFor(m: NodeId): Option<Id> {
      if m in cursors then Some(cursors[m]) else None
    }
  }

  type System = map<NodeId, Node>

  datatype Action =
    | Submit(n: NodeId, u: Unit)
    | ServePage(n: NodeId, from: NodeId)
    | StoreNext(n: NodeId)
    | StoreFails(n: NodeId)
    | AdvanceCursor(n: NodeId)
    | CursorFails(n: NodeId)

  function Latest(a: Option<Id>, b: Option<Id>): Option<Id> {
    if a.None? || (b.Some? && a.value < b.value) then b else a
  }

  /** An id determines its unit, and a public unit submitted to a node for the first time has an id above
      the last one that node has served. */
  ghost predicate Enabled(s: System, a: Action) {
    && a.n in s
    && match a
       case Submit(n, u) =>
         && (forall m: NodeId :: m in s && u.id in s[m].units ==> s[m].units[u.id] == u)
         && (u.id !in s[n].units && u.IsPublic() ==> Beyond(s[n].served, u.id))
       case ServePage(n, from) => from in s && from != n && s[n].pull.Idle?
       case StoreNext(n) => s[n].pull.Storing? && s[n].pull.rest != []
       case StoreFails(n) => s[n].pull.Storing? && s[n].pull.rest != []
       case AdvanceCursor(n) => s[n].pull.Storing? && s[n].pull.rest == []
       case CursorFails(n) => s[n].pull.Storing? && s[n].pull.rest == []
  }

  function Submitted(x: Node, u: Unit): Node {
    x.(units := PutIfAbsent(x.units, u),
       own := if u.id !in x.units && u.IsPublic() then x.own + {u.id} else x.own)
  }

  function Served(y: Node, cursor: Option<Id>): Page {
    ListUnits(y.units, PullFilter(cursor))
  }

  function Stored(x: Node): Node
    requires x.pull.Storing? && x.pull.rest != []
  {
    x.(units := PutIfAbsent(x.units, x.pull.rest[0]), pull := x.pull.(rest := x.pull.rest[1..]))
  }

  function Advanced(x: Node): Node
    requires x.pull.Storing?
  {
    x.(pull := Idle, cursors := if x.pull.cursor.Some? then x.cursors[x.pull.from := x.pull.cursor.value] else x.cursors)
  }

  ghost function Step(s: System, a: Action): System
    requires Enabled(s, a)
  {
    match a
    case Submit(n, u) => s[n := Submitted(s[n], u)]
    case ServePage(n, from) =>
      var page := Served(s[from], s[n].CursorFor(from));
      s[n := s[n].(pull := Storing(from, page.units, PageCursor(page)))]
       [from := s[from].(served := Latest(s[from].served, PageCursor(page)))]
    case StoreNext(n) => s[n := Stored(s[n])]
    case StoreFails(n) => s[n := s[n].(pull := Idle)]
    case AdvanceCursor(n) => s[n := Advanced(s[n])]
    case CursorFails(n) => s[n := s[n].(pull := Idle)]
  }

  // ---------------------------------------------------------------------------
  // The invariant
  // ---------------------------------------------------------------------------

  ghost predicate NotAfter(c: Option<Id>, bound: Option<Id>) {
    c.Some? ==> bound.Some? && c.value <= bound.value
  }

  /** What holds of `p` pulling from `q`, which is node `m`: everything submitted at `q` and passed by the
      cursor is held. */
  ghost predicate Linked(p: Node, m: NodeId, q: Node) {
    && (forall id: Id :: id in q.own && !Beyond(p.CursorFor(m), id) ==> id in p.units)
    && NotAfter(p.CursorFor(m), q.served)
    && (p.pull.Storing? && p.pull.from == m ==>
          && FromProvider(p.pull.rest, q.units)
          && (forall id: Id :: id in q.own && !Beyond(p.pull.cursor, id) ==> id in p.units || id in IdSet(p.pull.rest))
          && NotAfter(p.pull.cursor, q.served))
  }

  ghost predicate AllLinked(s: System) {
    forall n: NodeId, m: NodeId :: n in s && m in s && n != m ==> Linked(s[n], m, s[m])
  }

  ghost predicate Sound(names: set<NodeId>, n: NodeId, x: Node) {
    && Keyed(x.units) && x.own <= PublicIds(x.units)
    && (x.pull.Storing? ==> x.pull.from in names && x.pull.from != n)
  }

  ghost predicate WellFormed(s: System) {
    forall n: NodeId :: n in s ==> Sound(s.Keys, n, s[n])
  }

  ghost predicate Agree(s: System) {
    forall n: NodeId, m: NodeId, id: Id ::
      n in s && m in s && id in s[n].units && id in s[m].units ==> s[n].units[id] == s[m].units[id]
  }

  ghost predicate IsOwn(s: System, id: Id) {
    exists m: NodeId :: m in s && id in s[m].own
  }

  /** Every public unit was submitted somewhere. */
  ghost predicate Traced(s: System) {
    forall n: NodeId, id: Id :: n in s && id in PublicIds(s[n].units) ==> IsOwn(s, id)
  }

  ghost predicate Inv(s: System) {
    WellFormed(s) && AllLinked(s) && Agree(s) && Traced(s)
  }

  ghost predicate Fresh(s: System) {
    forall n: NodeId :: n in s ==> s[n] == Node(map[], map[], Idle, {}, None)
  }

  lemma FreshIsInv(s: System)
    requires Fresh(s)
    ensures Inv(s)
  {
  }

  lemma SubmitKeepsLinks(p: Node, m: NodeId, q: Node, u: Unit)
    requires Linked(p, m, q)
    ensures Linked(Submitted(p, u), m, q)
    ensures (u.id !in q.units && u.IsPublic() ==> Beyond(q.served, u.id)) ==> Linked(p, m, Submitted(q, u))
  {
  }

  lemma ServeKeepsLinks(p: Node, m: NodeId, q: Node)
    requires Linked(p, m, q) && Keyed(q.units) && q.own <= PublicIds(q.units)
    ensures var page := Served(q, p.CursorFor(m));
            Linked(p.(pull := Storing(m, page.units, PageCursor(page))), m,
                   q.(served := Latest(q.served, PageCursor(page))))
  {
    ServedFacts(q, p.CursorFor(m));
    hide Served, ListUnits, FromProvider;
    var page := Served(q, p.CursorFor(m));
    assert NotAfter(p.CursorFor(m), Latest(q.served, PageCursor(page)));
    assert NotAfter(PageCursor(page), Latest(q.served, PageCursor(page)));
  }

  lemma ServedFacts(q: Node, c: Option<Id>)
    requires Keyed(q.units)
    ensures FromProvider(Served(q, c).units, q.units)
    ensures forall id: Id :: id in PublicIds(q.units) && !Beyond(PageCursor(Served(q, c)), id) ==>
              !Beyond(c, id) || id in IdSet(Served(q, c).units)
    ensures !Served(q, c).hasMore ==> forall id: Id :: id in PublicIds(q.units) ==>
              !Beyond(c, id) || id in IdSet(Served(q, c).units)
  {
    var provider := Provider(q.units, map[]);
    ServedPage(provider, c);
    assert Serve(provider, c).units == Served(q, c).units && Serve(provider, c).cursor == PageCursor(Served(q, c));
    assert Serve(provider, c).hasMore == Served(q, c).hasMore;
    hide Serve, Served, ListUnits;
    forall id: Id | id in PublicIds(q.units) && Beyond(c, id) ensures id in Remaining(q.units, c) {
    }
    forall id: Id | id in PublicIds(q.units) && !Beyond(PageCursor(Served(q, c)), id)
      ensures id !in Remaining(q.units, PageCursor(Served(q, c)))
    {
    }
  }

  /** A pull from elsewhere, or none, and a later served position do not matter. */
  lemma OtherPullKeepsLinks(p: Node, m: NodeId, q: Node, pull: Pull, c: Option<Id>)
    requires Linked(p, m, q) && (pull.Storing? ==> pull.from != m)
    ensures Linked(p.(pull := pull), m, q)
    ensures Linked(p, m, q.(served := Latest(q.served, c)))
    ensures Linked(p.(served := Latest(p.served, c)), m, q)
    ensures Linked(p, m, q.(pull := pull))
  {
  }

  lemma QPullIgnored(p: Node, m: NodeId, q: Node, pull: Pull)
    requires Linked(p, m, q)
    ensures Linked(p, m, q.(pull := pull))
  {
  }

  lemma StoreKeepsLinks(p: Node, m: NodeId, q: Node)
    requires Linked(p, m, q)
    ensures p.pull.Storing? && p.pull.rest != [] ==> Linked(Stored(p), m, q)
    ensures q.pull.Storing? && q.pull.rest != [] ==> Linked(p, m, Stored(q))
  {
  }

  lemma AdvanceKeepsLinks(p: Node, m: NodeId, q: Node)
    requires Linked(p, m, q)
    ensures p.pull.Storing? && p.pull.rest == [] ==> Linked(Advanced(p), m, q)
    ensures q.pull.Storing? && q.pull.rest == [] ==> Linked(p, m, Advanced(q))
  {
  }

  lemma StepKeepsLinks(s: System, a: Action)
    requires WellFormed(s) && AllLinked(s) && Enabled(s, a)
    ensures AllLinked(Step(s, a))
  {
    hide Linked, Served, Stored, Advanced, Submitted;
    forall n: NodeId, m: NodeId | n in s && m in s && n != m ensures Linked(Step(s, a)[n], m, Step(s, a)[m]) {
      var p, q := s[n], s[m];
      assert Linked(p, m, q);
      match a {
        case Submit(_, u) => SubmitKeepsLinks(p, m, q, u);
        case ServePage(k, from) => ServeKeepsLink(s, a, n, m);
        case StoreNext(_) => StoreKeepsLinks(p, m, q);
        case StoreFails(_) =>
          OtherPullKeepsLinks(p, m, q, Idle, None);
        case AdvanceCursor(_) => AdvanceKeepsLinks(p, m, q);
        case CursorFails(_) =>
          OtherPullKeepsLinks(p, m, q, Idle, None);
      }
    }
  }

  lemma ServeKeepsLink(s: System, a: Action, n: NodeId, m: NodeId)
    requires WellFormed(s) && AllLinked(s) && Enabled(s, a) && a.ServePage?
    requires n in s && m in s && n != m
    ensures Linked(Step(s, a)[n], m, Step(s, a)[m])
  {
    hide Linked, Served;
    var p, q, page := s[n], s[m], Served(s[a.from], s[a.n].CursorFor(a.from));
    var pull := Storing(a.from, page.units, PageCursor(page));
    assert Linked(p, m, q);
    if n == a.n && m == a.from {
      ServeKeepsLinks(p, m, q);
    } else if n == a.n {
      OtherPullKeepsLinks(p, m, q, pull, None);
    } else if n == a.from {
      QPullIgnored(p, m, q, pull);
      OtherPullKeepsLinks(p, m, if m == a.n then q.(pull := pull) else q, Idle, PageCursor(page));
    } else if m == a.n {
      QPullIgnored(p, m, q, pull);
    } else if m == a.from {
      OtherPullKeepsLinks(p, m, q, Idle, PageCursor(page));
    }
  }

  lemma SubmittedIsSound(names: set<NodeId>, n: NodeId, x: Node, u: Unit)
    requires Sound(names, n, x)
    ensures Sound(names, n, Submitted(x, u))
  {
  }

  lemma StoredIsSound(names: set<NodeId>, n: NodeId, x: Node)
    requires Sound(names, n, x) && x.pull.Storing? && x.pull.rest != []
    ensures Sound(names, n, Stored(x))
  {
  }

  lemma StepKeepsWellFormed(s: System, a: Action)
    requires WellFormed(s) && Enabled(s, a)
    ensures WellFormed(Step(s, a))
  {
    hide Served, Submitted, Stored;
    var names := s.Keys;
    assert Step(s, a).Keys == names;
    forall n: NodeId | n in s ensures Sound(names, n, Step(s, a)[n]) {
      if a.Submit? {
        SubmittedIsSound(names, a.n, s[a.n], a.u);
      } else if a.StoreNext? {
        StoredIsSound(names, a.n, s[a.n]);
      }
    }
  }

  /** The next unit of a pull is the provider's own record of a public unit. */
  lemma NextIsHeld(s: System, a: Action)
    requires WellFormed(s) && AllLinked(s) && Enabled(s, a) && a.StoreNext?
    ensures var u, from := s[a.n].pull.rest[0], s[a.n].pull.from;
            from in s && u.id in PublicIds(s[from].units) && s[from].units[u.id] == u
  {
    assert Linked(s[a.n], s[a.n].pull.from, s[s[a.n].pull.from]);
  }

  lemma AddingAgrees(s: System, k: NodeId, x: Node, u: Unit)
    requires Agree(s) && k in s && x.units == PutIfAbsent(s[k].units, u)
    requires forall m: NodeId :: m in s && u.id in s[m].units ==> s[m].units[u.id] == u
    ensures Agree(s[k := x])
  {
  }

  lemma SameUnitsAgree(s: System, s': System)
    requires Agree(s) && s'.Keys == s.Keys && forall n: NodeId :: n in s ==> s'[n].units == s[n].units
    ensures Agree(s')
  {
  }

  lemma NextAgrees(s: System, a: Action, m: NodeId)
    requires WellFormed(s) && AllLinked(s) && Agree(s) && Enabled(s, a) && a.StoreNext? && m in s
    ensures var u := s[a.n].pull.rest[0];
            u.id in s[m].units ==> s[m].units[u.id] == u
  {
  }

  lemma StepKeepsAgree(s: System, a: Action)
    requires WellFormed(s) && AllLinked(s) && Agree(s) && Enabled(s, a)
    ensures Agree(Step(s, a))
  {
    hide Served, AllLinked, WellFormed, Agree;
    if a.Submit? {
      AddingAgrees(s, a.n, Submitted(s[a.n], a.u), a.u);
    } else if a.StoreNext? {
      forall m: NodeId | m in s
        ensures s[a.n].pull.rest[0].id in s[m].units ==> s[m].units[s[a.n].pull.rest[0].id] == s[a.n].pull.rest[0]
      {
        NextAgrees(s, a, m);
      }
      AddingAgrees(s, a.n, Stored(s[a.n]), s[a.n].pull.rest[0]);
    } else {
      SameUnitsAgree(s, Step(s, a));
    }
  }

  /** What a step does to a node's units and own ids. */
  lemma StepGrows(s: System, a: Action, n: NodeId)
    requires Enabled(s, a) && n in s
    ensures n in Step(s, a) && Step(s, a).Keys == s.Keys
    ensures Extends(s[n].units, Step(s, a)[n].units) && s[n].own <= Step(s, a)[n].own
    ensures !a.Submit? ==> Step(s, a)[n].own == s[n].own
  {
  }

  lemma NewPublicId(s: System, a: Action, n: NodeId, id: Id)
    requires WellFormed(s) && AllLinked(s) && Enabled(s, a) && n in s
    requires id in PublicIds(Step(s, a)[n].units) && id !in PublicIds(s[n].units)
    ensures id in Step(s, a)[n].own || exists m: NodeId :: m in s && id in PublicIds(s[m].units)
  {
    hide Served, AllLinked, WellFormed;
    if a.StoreNext? {
      NextIsHeld(s, a);
    } else if !a.Submit? {
      hide Step;
    }
  }

  lemma StepKeepsTraced(s: System, a: Action)
    requires WellFormed(s) && AllLinked(s) && Traced(s) && Enabled(s, a)
    ensures Traced(Step(s, a))
  {
    var s' := Step(s, a);
    hide Step, WellFormed, AllLinked;
    forall n: NodeId, id: Id | n in s' && id in PublicIds(s'[n].units) ensures IsOwn(s', id) {
      StepGrows(s, a, a.n);
      if id !in PublicIds(s[n].units) {
        NewPublicId(s, a, n, id);
      }
      if id !in s'[n].own {
        var m: NodeId :| m in s && id in PublicIds(s[m].units);
        assert IsOwn(s, id);
        var k: NodeId :| k in s && id in s[k].own;
        StepGrows(s, a, k);
      }
    }
  }

  /** Every step of every node keeps the invariant for every pair of nodes. */
  lemma StepKeepsInv(s: System, a: Action)
    requires Inv(s) && Enabled(s, a)
    ensures Inv(Step(s, a))
  {
    hide WellFormed, AllLinked, Agree, Traced, Step;
    StepKeepsWellFormed(s, a);
    StepKeepsLinks(s, a);
    StepKeepsAgree(s, a);
    StepKeepsTraced(s, a);
  }

  // ---------------------------------------------------------------------------
  // Whole runs
  // ---------------------------------------------------------------------------

  ghost predicate IsRun(s: System, acts: seq<Action>)
    decreases |acts|
  {
    acts == [] || (Enabled(s, acts[0]) && IsRun(Step(s, acts[0]), acts[1..]))
  }

  ghost function End(s: System, acts: seq<Action>): System
    requires IsRun(s, acts)
    decreases |acts|
  {
    if acts == [] then s else End(Step(s, acts[0]), acts[1..])
  }

  lemma {:induction false} RunKeepsInv(s: System, acts: seq<Action>)
    requires Inv(s) && IsRun(s, acts)
    ensures Inv(End(s, acts))
    decreases |acts|
  {
    hide Inv, Enabled, Step;
    if acts != [] {
      StepKeepsInv(s, acts[0]);
      RunKeepsInv(Step(s, acts[0]), acts[1..]);
    }
  }

  lemma {:induction false} RunGrows(s: System, acts: seq<Action>, n: NodeId)
    requires IsRun(s, acts) && n in s
    ensures n in End(s, acts) && End(s, acts).Keys == s.Keys && Extends(s[n].units, End(s, acts)[n].units)
    ensures NoSubmissions(acts) ==> End(s, acts)[n].own == s[n].own
    decreases |acts|
  {
    hide Enabled, Step;
    if acts != [] {
      StepGrows(s, acts[0], n);
      RunGrows(Step(s, acts[0]), acts[1..], n);
    }
  }

  // ---------------------------------------------------------------------------
  // Convergence
  // ---------------------------------------------------------------------------

  ghost predicate NoSubmissions(acts: seq<Action>) {
    forall i :: 0 <= i < |acts| ==> !acts[i].Submit?
  }

  /** The insertions of the pull that node `n` is making all succeed. */
  ghost predicate StoresAll(s: System, acts: seq<Action>, n: NodeId)
    requires IsRun(s, acts) && n in s
    decreases |acts|
  {
    && s[n].pull.Storing?
    && (s[n].pull.rest == []
        || (acts != [] && acts[0] != StoreFails(n) && n in Step(s, acts[0])
            && StoresAll(Step(s, acts[0]), acts[1..], n)))
  }

  /** `acts` contains a pull by `n` from `m` that is answered with a last page and stores all of it. What
      happens to any other pull does not matter. */
  ghost predicate Drains(s: System, acts: seq<Action>, n: NodeId, m: NodeId)
    requires IsRun(s, acts) && n in s && m in s
    decreases |acts|
  {
    && acts != [] && n in Step(s, acts[0]) && m in Step(s, acts[0])
    && ((acts[0] == ServePage(n, m) && !Served(s[m], s[n].CursorFor(m)).hasMore
           && StoresAll(Step(s, acts[0]), acts[1..], n))
        || Drains(Step(s, acts[0]), acts[1..], n, m))
  }

  /** `n` has the ids or has fetched them. */
  ghost predicate Fetched(x: Node, ids: set<Id>) {
    forall id: Id :: id in ids ==> id in x.units || (x.pull.Storing? && id in IdSet(x.pull.rest))
  }

  lemma LastPageFetches(s: System, n: NodeId, m: NodeId)
    requires Inv(s) && Enabled(s, ServePage(n, m)) && m in s && !Served(s[m], s[n].CursorFor(m)).hasMore
    ensures Fetched(Step(s, ServePage(n, m))[n], s[m].own)
  {
    assert Linked(s[n], m, s[m]);
    ServedFacts(s[m], s[n].CursorFor(m));
    hide Served;
  }

  lemma StepKeepsFetched(s: System, a: Action, n: NodeId, ids: set<Id>)
    requires Enabled(s, a) && n in s && s[n].pull.Storing? && s[n].pull.rest != []
    requires Fetched(s[n], ids) && a != StoreFails(n)
    ensures Fetched(Step(s, a)[n], ids)
  {
  }

  lemma {:induction false} StoringAllHolds(s: System, acts: seq<Action>, n: NodeId, ids: set<Id>)
    requires IsRun(s, acts) && n in s && StoresAll(s, acts, n) && Fetched(s[n], ids)
    ensures n in End(s, acts) && ids <= End(s, acts)[n].units.Keys
    decreases |acts|
  {
    hide Step, Enabled;
    if s[n].pull.rest == [] {
      assert IdSet(s[n].pull.rest) == {};
      RunGrows(s, acts, n);
    } else {
      StepKeepsFetched(s, acts[0], n, ids);
      StoringAllHolds(Step(s, acts[0]), acts[1..], n, ids);
    }
  }

  lemma {:induction false} DrainingHolds(s: System, acts: seq<Action>, n: NodeId, m: NodeId)
    requires Inv(s) && IsRun(s, acts) && NoSubmissions(acts) && n in s && m in s && Drains(s, acts, n, m)
    ensures n in End(s, acts) && s[m].own <= End(s, acts)[n].units.Keys
    decreases |acts|
  {
    hide Inv, Enabled, Step, Served, Fetched;
    var s', rest := Step(s, acts[0]), acts[1..];
    StepKeepsInv(s, acts[0]);
    StepGrows(s, acts[0], m);
    if Drains(s', rest, n, m) {
      DrainingHolds(s', rest, n, m);
    } else {
      LastPageFetches(s, n, m);
      StoringAllHolds(s', rest, n, s[m].own);
    }
  }

  /** Convergence of any number of nodes: from any reachable state, in any interleaving without submissions
      in which every node completes one drain of every other, all nodes end up holding the same public
      units, and these are exactly what was ever submitted to any of them. */
  lemma DrainedNodesAgree(s: System, acts: seq<Action>, n: NodeId, m: NodeId)
    requires Inv(s) && IsRun(s, acts) && NoSubmissions(acts)
    requires forall x: NodeId, y: NodeId :: x in s && y in s && x != y ==> Drains(s, acts, x, y)
    requires n in s && m in s
    ensures var e := End(s, acts);
            && n in e && m in e
            && PublicIds(e[n].units) == PublicIds(e[m].units)
            && (forall id: Id :: id in PublicIds(e[n].units) <==> IsOwn(s, id))
            && (forall id: Id :: id in PublicIds(e[n].units) ==> e[n].units[id] == e[m].units[id])
  {
    var e := End(s, acts);
    hide Enabled, Step, End, Drains, Inv, IsRun, IsOwn;
    HoldsAllOwn(s, acts, n);
    HoldsAllOwn(s, acts, m);
    RunKeepsInv(s, acts);
    InvMeans(e);
  }

  lemma HoldsAllOwn(s: System, acts: seq<Action>, n: NodeId)
    requires Inv(s) && IsRun(s, acts) && NoSubmissions(acts) && n in s
    requires forall m: NodeId :: m in s && m != n ==> Drains(s, acts, n, m)
    ensures n in End(s, acts) && forall id: Id :: id in PublicIds(End(s, acts)[n].units) <==> IsOwn(s, id)
  {
    hide Enabled, Step, End, Drains, Inv, IsOwn;
    RunGrows(s, acts, n);
    forall id: Id ensures id in PublicIds(End(s, acts)[n].units) <==> IsOwn(s, id) {
      if IsOwn(s, id) {
        OwnReaches(s, acts, n, id);
      }
      if id in PublicIds(End(s, acts)[n].units) {
        PublicIsOwn(s, acts, n, id);
      }
    }
  }

  lemma InvMeans(s: System)
    requires Inv(s)
    ensures WellFormed(s) && Agree(s) && Traced(s)
  {
  }

  lemma OwnReaches(s: System, acts: seq<Action>, x: NodeId, id: Id)
    requires Inv(s) && IsRun(s, acts) && NoSubmissions(acts) && x in s && IsOwn(s, id)
    requires forall y: NodeId :: y in s && x != y ==> Drains(s, acts, x, y)
    ensures x in End(s, acts) && id in PublicIds(End(s, acts)[x].units)
  {
    hide Enabled, Step, Inv, End, Drains, Traced;
    var e := End(s, acts);
    var k: NodeId :| k in s && id in s[k].own;
    RunGrows(s, acts, x);
    RunGrows(s, acts, k);
    RunKeepsInv(s, acts);
    InvMeans(e);
    if x != k {
      DrainingHolds(s, acts, x, k);
    }
    assert id in PublicIds(e[k].units) && id in e[x].units;
  }

  lemma PublicIsOwn(s: System, acts: seq<Action>, x: NodeId, id: Id)
    requires Inv(s) && IsRun(s, acts) && NoSubmissions(acts) && x in s
    requires x in End(s, acts) && id in PublicIds(End(s, acts)[x].units)
    ensures IsOwn(s, id)
  {
    hide Enabled, Step, Inv, End;
    var e := End(s, acts);
    RunKeepsInv(s, acts);
    InvMeans(e);
    assert IsOwn(e, id);
    var k: NodeId :| k in e && id in e[k].own;
    RunGrows(s, acts, x);
    RunGrows(s, acts, k);
  }

  // ---------------------------------------------------------------------------
  // Why every node has to be asked directly
  // ---------------------------------------------------------------------------

  lemma {:induction false} Then(s: System, acts: seq<Action>, a: Action) returns (more: seq<Action>)
    requires IsRun(s, acts) && Enabled(End(s, acts), a)
    ensures more == acts + [a] && IsRun(s, more) && End(s, more) == Step(End(s, acts), a)
    decreases |acts|
  {
    hide Step, Enabled;
    more := acts + [a];
    if acts == [] {
      assert more == [a] && more[1..] == [];
    } else {
      var rest := Then(Step(s, acts[0]), acts[1..], a);
      assert more[0] == acts[0] && more[1..] == rest;
    }
  }

  const Empty: Node := Node(map[], map[], Idle, {}, None)

  /** A whole pull of a provider's only unit by an idle node that has not asked it before. */
  lemma PullOne(s: System, acts: seq<Action>, n: NodeId, m: NodeId, u: Unit) returns (more: seq<Action>)
    requires IsRun(s, acts)
    requires var e := End(s, acts);
             && n in e && m in e && n != m && e[n].pull.Idle? && e[n].CursorFor(m) == None
             && e[m].units == map[u.id := u] && u.IsPublic() && u.id !in e[n].units
    ensures IsRun(s, more)
    ensures var e := End(s, acts);
            End(s, more) == e[n := Node(e[n].units[u.id := u], e[n].cursors[m := u.id], Idle, e[n].own, e[n].served)]
                             [m := e[m].(served := Latest(e[m].served, Some(u.id)))]
  {
    hide ListUnits;
    var e := End(s, acts);
    OneUnitPage(u, PullFilter(None));
    var y := e[m].(served := Latest(e[m].served, Some(u.id)));
    more := Then(s, acts, ServePage(n, m));
    assert End(s, more) == e[n := e[n].(pull := Storing(m, [u], Some(u.id)))][m := y];
    more := Then(s, more, StoreNext(n));
    assert [u][1..] == [];
    var x := e[n].(units := e[n].units[u.id := u], pull := Storing(m, [], Some(u.id)));
    assert End(s, more) == e[n := x][m := y];
    more := Then(s, more, AdvanceCursor(n));
  }

  function Holder(u: Unit, served: Option<Id>): Node {
    Node(map[u.id := u], map[], Idle, {u.id}, served)
  }

  lemma SubmitFirst(s: System, acts: seq<Action>, n: NodeId, u: Unit) returns (more: seq<Action>)
    requires IsRun(s, acts) && u.IsPublic()
    requires var e := End(s, acts);
             n in e && e[n] == Empty && forall m: NodeId :: m in e ==> u.id !in e[m].units
    ensures IsRun(s, more) && End(s, more) == End(s, acts)[n := Holder(u, None)]
  {
    more := Then(s, acts, Submit(n, u));
    assert PutIfAbsent(Empty.units, u) == map[u.id := u] && {} + {u.id} == {u.id};
  }

  lemma SecondPulled(s: System, u: Unit) returns (acts: seq<Action>)
    requires s == map[1 := Empty, 2 := Empty, 3 := Empty] && u.IsPublic()
    ensures IsRun(s, acts)
    ensures End(s, acts) == map[1 := Empty, 2 := Holder(u, Some(u.id)),
                                3 := Node(map[u.id := u], map[2 := u.id], Idle, {}, None)]
  {
    acts := SubmitFirst(s, [], 2, u);
    hide IsRun, End, Served, ListUnits, Step, Enabled, PutIfAbsent, Beyond;
    assert End(s, acts) == map[1 := Empty, 2 := Holder(u, None), 3 := Empty];
    acts := PullOne(s, acts, 3, 2, u);
    assert Empty.units[u.id := u] == map[u.id := u] && Empty.cursors[2 := u.id] == map[2 := u.id];
  }

  /** Pulling from one node that pulls from the others is not enough, although every submission is timely:
      node 3 has pulled unit 5 from node 2; node 2 then pulls unit 3, just submitted to node 1; node 3 has
      passed it by and is never served it by node 2. */
  lemma RelayedUnitCanBeMissed(s: System, u: Unit, v: Unit) returns (acts: seq<Action>)
    requires s == map[1 := Empty, 2 := Empty, 3 := Empty]
    requires u.id == 5 && v.id == 3 && u.IsPublic() && v.IsPublic()
    ensures Fresh(s) && IsRun(s, acts)
    ensures var e := End(s, acts);
            && e.Keys == {1, 2, 3} && e[3].pull.Idle?
            && 3 in PublicIds(e[2].units) && 3 !in e[3].units
            && 3 !in IdSet(Served(e[2], e[3].CursorFor(2)).units)
  {
    hide IsRun, End, Served, ListUnits, Serve, Step, Enabled, PutIfAbsent;
    acts := SecondPulled(s, u);
    acts := SubmitFirst(s, acts, 1, v);
    acts := PullOne(s, acts, 2, 1, v);
    var e := End(s, acts);
    assert e[3].CursorFor(2) == Some(5) && e[2].units == map[5 := u, 3 := v];
    NeverFetchedBelowCursor(Provider(e[2].units, map[]), Some(5), 3);
    ServesAsProvider(e[2], Some(5));
  }

  lemma ServesAsProvider(q: Node, c: Option<Id>)
    ensures Serve(Provider(q.units, map[]), c).units == Served(q, c).units
  {
  }
}
