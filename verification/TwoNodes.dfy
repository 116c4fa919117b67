/** Two nodes that pull from each other while clients submit units to both, as a system of atomic
    steps taken in any order. */
module TwoNodes {
  import opened Units
  import opened Listing
  import opened Federation

  /** A pull in progress: the units of the served page still to store, the cursor it ends with, and
      whether the provider said there was more. */
  datatype Pull = Idle | Storing(rest: seq<Unit>, cursor: Option<Id>, hasMore: bool)

  /** `cursor` is this node's cursor for the other node; `served` is the last id this node has sent to
      the other node. */
  datatype Node = Node(units: UnitMap, cursor: Option<Id>, pull: Pull, served: Option<Id>)

  datatype System = System(left: Node, right: Node) {
    function Get(side: bool): Node {
      if side then left else right
    }

    function With(side: bool, n: Node): System {
      if side then this.(left := n) else this.(right := n)
    }
  }

  datatype Action =
    | Submit(side: bool, u: Unit)
    | ServePage(side: bool)
    | StoreNext(side: bool)
    | StoreFails(side: bool)
    | AdvanceCursor(side: bool)
    | CursorFails(side: bool)

  function Latest(a: Option<Id>, b: Option<Id>): Option<Id> {
    if a.None? || (b.Some? && a.value < b.value) then b else a
  }

  /** What the conditions for convergence are: an id determines its unit, and a public unit submitted to
      a node for the first time has an id above the last one that node has served. */
  ghost predicate Timely(s: System, a: Action) {
    var me, other := s.Get(a.side), s.Get(!a.side);
    a.Submit? ==>
      && (a.u.id in other.units ==> other.units[a.u.id] == a.u)
      && (a.u.id !in me.units && a.u.IsPublic() ==> Beyond(me.served, a.u.id))
  }

  ghost predicate Enabled(s: System, a: Action) {
    Possible(s, a) && Timely(s, a)
  }

  /** Which actions can happen at all. */
  predicate Possible(s: System, a: Action) {
    var me := s.Get(a.side);
    match a
    case Submit(_, _) => true
    case ServePage(_) => me.pull.Idle?
    case StoreNext(_) => me.pull.Storing? && me.pull.rest != []
    case StoreFails(_) => me.pull.Storing? && me.pull.rest != []
    case AdvanceCursor(_) => me.pull.Storing? && me.pull.rest == []
    case CursorFails(_) => me.pull.Storing? && me.pull.rest == []
  }

  ghost function Step(s: System, a: Action): System
    requires Possible(s, a)
  {
    var me, other := s.Get(a.side), s.Get(!a.side);
    match a
    case Submit(_, u) => s.With(a.side, me.(units := PutIfAbsent(me.units, u)))
    case ServePage(_) =>
      var page := ListUnits(other.units, PullFilter(me.cursor));
      s.With(a.side, me.(pull := Storing(page.units, PageCursor(page), page.hasMore)))
       .With(!a.side, other.(served := Latest(other.served, PageCursor(page))))
    case StoreNext(_) =>
      s.With(a.side, me.(units := PutIfAbsent(me.units, me.pull.rest[0]), pull := me.pull.(rest := me.pull.rest[1..])))
    case StoreFails(_) => s.With(a.side, me.(pull := Idle))
    case AdvanceCursor(_) =>
      s.With(a.side, me.(pull := Idle, cursor := if me.pull.cursor.Some? then me.pull.cursor else me.cursor))
    case CursorFails(_) => s.With(a.side, me.(pull := Idle))
  }

  // ---------------------------------------------------------------------------
  // The invariant
  // ---------------------------------------------------------------------------

  ghost predicate NotAfter(c: Option<Id>, bound: Option<Id>) {
    c.Some? ==> bound.Some? && c.value <= bound.value
  }

  ghost predicate Agree(a: UnitMap, b: UnitMap) {
    forall id :: id in a && id in b ==> a[id] == b[id]
  }

  /** The ids a pull in progress has fetched but not yet stored. */
  function InFlight(p: Pull): set<Id> {
    if p.Idle? then {} else IdSet(p.rest)
  }

  /** Every public unit of `q` at or below `cursor` is at `p` or on its way. */
  ghost predicate CoversWith(p: UnitMap, flying: set<Id>, q: UnitMap, cursor: Option<Id>) {
    forall id :: id in PublicIds(q) && !Beyond(cursor, id) ==> id in p || id in flying
  }

  /** What holds of `p` pulling from `q`. */
  ghost predicate Link(p: Node, q: Node) {
    && Keyed(p.units)
    && CoversWith(p.units, {}, q.units, p.cursor)
    && NotAfter(p.cursor, q.served)
    && (p.pull.Storing? ==>
          && FromProvider(p.pull.rest, q.units)
          && CoversWith(p.units, InFlight(p.pull), q.units, p.pull.cursor)
          && NotAfter(p.pull.cursor, q.served))
  }

  ghost predicate Inv(s: System) {
    && Agree(s.left.units, s.right.units)
    && Link(s.left, s.right)
    && Link(s.right, s.left)
  }

  const Fresh: System :=
    System(Node(map[], None, Idle, None), Node(map[], None, Idle, None))

  lemma ServeKeeps(p: Node, q: Node)
    requires Link(p, q) && Keyed(q.units)
    ensures var page := ListUnits(q.units, PullFilter(p.cursor));
            Link(p.(pull := Storing(page.units, PageCursor(page), page.hasMore)),
                 q.(served := Latest(q.served, PageCursor(page))))
  {
    var page := ListUnits(q.units, PullFilter(p.cursor));
    var provider := Provider(q.units, map[]);
    ServedPage(provider, p.cursor);
    assert Serve(provider, p.cursor).units == page.units && Serve(provider, p.cursor).cursor == PageCursor(page);
    forall id | id in PublicIds(q.units) && !Beyond(PageCursor(page), id)
      ensures id in p.units || id in IdSet(page.units)
    {
      assert id !in Remaining(q.units, PageCursor(page));
      assert id in Remaining(q.units, p.cursor) || !Beyond(p.cursor, id);
    }
  }

  /** The provider only gains units the puller has, or units above everything it has served. */
  lemma ProviderGrowsKeeps(p: Node, q: Node, u: Unit)
    requires Link(p, q)
    requires u.id !in q.units && u.IsPublic() ==> u.id in p.units || Beyond(q.served, u.id)
    ensures Link(p, q.(units := PutIfAbsent(q.units, u)))
  {
  }

  /** Every step of either node keeps the invariant in both directions. */
  lemma StepKeepsInv(s: System, a: Action)
    requires Inv(s) && Enabled(s, a)
    ensures Inv(Step(s, a))
  {
    var me, other := s.Get(a.side), s.Get(!a.side);
    assert Link(me, other) && Link(other, me) && Agree(me.units, other.units);
    match a {
      case Submit(_, u) =>
        ProviderGrowsKeeps(other, me, u);
      case ServePage(_) =>
        ServeKeeps(me, other);
      case StoreNext(_) =>
        ProviderGrowsKeeps(other, me, me.pull.rest[0]);
      case StoreFails(_) =>
      case AdvanceCursor(_) =>
      case CursorFails(_) =>
    }
  }

  // ---------------------------------------------------------------------------
  // Whole runs
  // ---------------------------------------------------------------------------

  ghost predicate IsRun(s: System, acts: seq<Action>)
    decreases |acts|
  {
    acts == [] || (Enabled(s, acts[0]) && IsRun(Step(s, acts[0]), acts[1..]))
  }

  ghost function End(s: System, acts: seq<Action>): System
    requires IsRun(s, acts)
    decreases |acts|
  {
    if acts == [] then s else End(Step(s, acts[0]), acts[1..])
  }

  lemma StepKeepsUnits(s: System, a: Action)
    requires Possible(s, a)
    ensures Extends(s.left.units, Step(s, a).left.units) && Extends(s.right.units, Step(s, a).right.units)
  {
  }

  /** In every run from an invariant state, in particular from two nodes that start empty, the
      invariant holds at the end and neither node has ever changed or dropped a unit. */
  lemma {:induction false} RunKeepsInv(s: System, acts: seq<Action>)
    requires Inv(s) && IsRun(s, acts)
    ensures Inv(End(s, acts)) && Inv(Fresh)
    ensures Extends(s.left.units, End(s, acts).left.units) && Extends(s.right.units, End(s, acts).right.units)
    decreases |acts|
  {
    if acts != [] {
      StepKeepsInv(s, acts[0]);
      StepKeepsUnits(s, acts[0]);
      RunKeepsInv(Step(s, acts[0]), acts[1..]);
    }
  }

  // ---------------------------------------------------------------------------
  // Convergence
  // ---------------------------------------------------------------------------

  /** `p` has everything public that `q` has, or has fetched it. */
  ghost predicate CaughtUp(s: System, side: bool) {
    var p, q := s.Get(side), s.Get(!side);
    forall id :: id in PublicIds(q.units) ==> id in p.units || id in InFlight(p.pull)
  }

  /** The request by `side` that is answered with a last page. */
  ghost predicate ServesLastPage(s: System, a: Action, side: bool) {
    a == ServePage(side) && !ListUnits(s.Get(!side).units, PullFilter(s.Get(side).cursor)).hasMore
  }

  lemma LastPageCatchesUp(s: System, side: bool)
    requires Inv(s) && Enabled(s, ServePage(side)) && ServesLastPage(s, ServePage(side), side)
    ensures CaughtUp(Step(s, ServePage(side)), side)
  {
    var p, q := s.Get(side), s.Get(!side);
    var provider := Provider(q.units, map[]);
    assert Link(p, q) && Keyed(q.units);
    ServedPage(provider, p.cursor);
    assert Serve(provider, p.cursor).units == ListUnits(q.units, PullFilter(p.cursor)).units;
    forall id | id in PublicIds(q.units) ensures id in p.units || id in Remaining(q.units, p.cursor) {
    }
  }

  /** Without submissions, and as long as its own insertions do not fail, a node stays caught up. */
  lemma StepKeepsCaughtUp(s: System, a: Action, side: bool)
    requires Inv(s) && Enabled(s, a) && CaughtUp(s, side)
    requires !a.Submit? && a != StoreFails(side)
    ensures CaughtUp(Step(s, a), side)
  {
    var p, q := s.Get(side), s.Get(!side);
    assert Link(p, q) && Link(q, p);
    match a {
      case ServePage(_) =>
      case StoreNext(_) =>
        var me := s.Get(a.side);
        IdSetCons(me.pull.rest);
        assert me.pull.rest[0].id in s.Get(!a.side).units;
      case StoreFails(_) =>
      case AdvanceCursor(_) =>
      case CursorFails(_) =>
    }
  }

  /** `acts` contains a pull by `side` that was answered with a last page and whose insertions, and
      those of any later pull by that side, all succeeded. */
  ghost predicate Drains(s: System, acts: seq<Action>, side: bool)
    requires IsRun(s, acts)
    decreases |acts|
  {
    && acts != []
    && ((ServesLastPage(s, acts[0], side) && StoreFails(side) !in acts)
        || Drains(Step(s, acts[0]), acts[1..], side))
  }

  ghost predicate NoSubmissions(acts: seq<Action>) {
    forall i :: 0 <= i < |acts| ==> !acts[i].Submit?
  }

  lemma {:induction false} StaysCaughtUp(s: System, acts: seq<Action>, side: bool)
    requires Inv(s) && IsRun(s, acts) && NoSubmissions(acts) && StoreFails(side) !in acts
    requires CaughtUp(s, side)
    ensures CaughtUp(End(s, acts), side)
    decreases |acts|
  {
    if acts != [] {
      StepKeepsInv(s, acts[0]);
      StepKeepsCaughtUp(s, acts[0], side);
      StaysCaughtUp(Step(s, acts[0]), acts[1..], side);
    }
  }

  lemma {:induction false} DrainingCatchesUp(s: System, acts: seq<Action>, side: bool)
    requires Inv(s) && IsRun(s, acts) && NoSubmissions(acts) && Drains(s, acts, side)
    ensures CaughtUp(End(s, acts), side)
    decreases |acts|
  {
    StepKeepsInv(s, acts[0]);
    var next, rest := Step(s, acts[0]), acts[1..];
    if ServesLastPage(s, acts[0], side) && StoreFails(side) !in acts {
      LastPageCatchesUp(s, side);
      StaysCaughtUp(next, rest, side);
    } else {
      DrainingCatchesUp(next, rest, side);
    }
  }

  /** Convergence: from any reachable state, in any interleaving without submissions in which each node
      completes one drain of the other, the two nodes end up holding the same public units. */
  lemma DrainedNodesAgree(s: System, acts: seq<Action>)
    requires Inv(s) && IsRun(s, acts) && NoSubmissions(acts)
    requires Drains(s, acts, true) && Drains(s, acts, false)
    requires End(s, acts).left.pull.Idle? && End(s, acts).right.pull.Idle?
    ensures var e := End(s, acts);
            && PublicIds(e.left.units) == PublicIds(e.right.units)
            && forall id :: id in PublicIds(e.left.units) ==> e.left.units[id] == e.right.units[id]
  {
    RunKeepsInv(s, acts);
    DrainingCatchesUp(s, acts, true);
    DrainingCatchesUp(s, acts, false);
    var e := End(s, acts);
    assert CaughtUp(e, true) && CaughtUp(e, false);
    forall id ensures id in PublicIds(e.left.units) <==> id in PublicIds(e.right.units) {
      assert e.Get(true) == e.left && e.Get(false) == e.right;
    }
  }

  // ---------------------------------------------------------------------------
  // Draining is always possible
  // ---------------------------------------------------------------------------

  lemma {:induction false} RunsCompose(s: System, a: seq<Action>, b: seq<Action>, side: bool)
    requires IsRun(s, a) && IsRun(End(s, a), b)
    ensures IsRun(s, a + b) && End(s, a + b) == End(End(s, a), b)
    ensures Drains(End(s, a), b, side) ==> Drains(s, a + b, side)
    ensures Drains(s, a, side) && StoreFails(side) !in b ==> Drains(s, a + b, side)
    decreases |a|
  {
    if a == [] {
      assert a + b == b;
    } else {
      assert (a + b)[0] == a[0] && (a + b)[1..] == a[1..] + b;
      RunsCompose(Step(s, a[0]), a[1..], b, side);
    }
  }

  /** A run of `side` alone in which nothing fails. */
  ghost predicate Undisturbed(acts: seq<Action>, side: bool) {
    forall i :: 0 <= i < |acts| ==>
      acts[i] == ServePage(side) || acts[i] == StoreNext(side) || acts[i] == AdvanceCursor(side)
  }

  lemma {:induction false} FinishPull(s: System, side: bool) returns (acts: seq<Action>)
    requires s.Get(side).pull.Storing?
    ensures IsRun(s, acts) && Undisturbed(acts, side)
    ensures var p, q := s.Get(side), End(s, acts).Get(side);
            q.pull.Idle? && q.cursor == if p.pull.cursor.Some? then p.pull.cursor else p.cursor
    ensures End(s, acts).Get(!side) == s.Get(!side)
    decreases |s.Get(side).pull.rest|
  {
    var a := if s.Get(side).pull.rest == [] then AdvanceCursor(side) else StoreNext(side);
    var rest: seq<Action> := [];
    if s.Get(side).pull.rest != [] {
      rest := FinishPull(Step(s, a), side);
    }
    acts := [a] + rest;
    assert acts[1..] == rest;
  }

  /** A whole pull: the page is served, stored and the cursor moved. */
  lemma OnePull(s: System, side: bool) returns (acts: seq<Action>)
    requires s.Get(side).pull.Idle?
    ensures IsRun(s, acts) && Undisturbed(acts, side)
    ensures var page := ListUnits(s.Get(!side).units, PullFilter(s.Get(side).cursor));
            var p, p' := s.Get(side), End(s, acts).Get(side);
            && p'.pull.Idle? && p'.cursor == (if page.units == [] then p.cursor else PageCursor(page))
            && (!page.hasMore ==> Drains(s, acts, side))
    ensures End(s, acts).Get(!side) == s.Get(!side).(served := End(s, acts).Get(!side).served)
  {
    var first := [ServePage(side)];
    var s1 := Step(s, ServePage(side));
    assert IsRun(s1, []) && End(s1, []) == s1;
    assert first[1..] == [] && IsRun(s, first) && End(s, first) == s1;
    var finish := FinishPull(s1, side);
    RunsCompose(s, first, finish, side);
    acts := first + finish;
  }

  lemma {:induction false} DrainRun(s: System, side: bool) returns (acts: seq<Action>)
    requires Inv(s) && s.Get(side).pull.Idle?
    ensures IsRun(s, acts) && Undisturbed(acts, side) && Drains(s, acts, side)
    ensures End(s, acts).Get(side).pull.Idle?
    ensures End(s, acts).Get(!side).pull == s.Get(!side).pull
    decreases |Remaining(s.Get(!side).units, s.Get(side).cursor)|
  {
    var p, q := s.Get(side), s.Get(!side);
    assert Link(p, q) && Link(q, p);
    acts := OnePull(s, side);
    if ListUnits(q.units, PullFilter(p.cursor)).hasMore {
      PageCounts(Provider(q.units, map[]), p.cursor);
      ServedPage(Provider(q.units, map[]), p.cursor);
      RunKeepsInv(s, acts);
      var more := DrainRun(End(s, acts), side);
      RunsCompose(s, acts, more, side);
      acts := acts + more;
    }
  }

  /** From every reachable state with no pull in progress, letting one node drain the other and then
      the other way round brings the public units into agreement. */
  lemma TwoDrainsConverge(s: System) returns (acts: seq<Action>)
    requires Inv(s) && s.left.pull.Idle? && s.right.pull.Idle?
    ensures IsRun(s, acts) && NoSubmissions(acts)
    ensures PublicIds(End(s, acts).left.units) == PublicIds(End(s, acts).right.units)
  {
    assert s.Get(true) == s.left && s.Get(false) == s.right;
    var a := DrainRun(s, true);
    RunKeepsInv(s, a);
    var b := DrainRun(End(s, a), false);
    RunsCompose(s, a, b, true);
    RunsCompose(s, a, b, false);
    acts := a + b;
    DrainedNodesAgree(s, acts);
  }

  // ---------------------------------------------------------------------------
  // Ids that come too late
  // ---------------------------------------------------------------------------

  /** Any run at all, with no condition on the ids submitted. */
  ghost predicate IsAnyRun(s: System, acts: seq<Action>)
    decreases |acts|
  {
    acts == [] || (Possible(s, acts[0]) && IsAnyRun(Step(s, acts[0]), acts[1..]))
  }

  ghost function EndOfAny(s: System, acts: seq<Action>): System
    requires IsAnyRun(s, acts)
    decreases |acts|
  {
    if acts == [] then s else EndOfAny(Step(s, acts[0]), acts[1..])
  }

  /** A pull in progress holds ids past the cursor only, and will not move it back. */
  ghost predicate PullsForward(n: Node) {
    && Keyed(n.units)
    && (n.pull.Storing? ==>
          && (forall i :: 0 <= i < |n.pull.rest| ==> Beyond(n.cursor, n.pull.rest[i].id))
          && (n.pull.cursor.Some? ==> Beyond(n.cursor, n.pull.cursor.value)))
  }

  ghost predicate Forward(s: System) {
    PullsForward(s.left) && PullsForward(s.right)
  }

  lemma ServedIsForward(p: Node, q: Node)
    requires Keyed(p.units) && Keyed(q.units)
    ensures var page := ListUnits(q.units, PullFilter(p.cursor));
            PullsForward(p.(pull := Storing(page.units, PageCursor(page), page.hasMore)))
  {
    var page, provider := ListUnits(q.units, PullFilter(p.cursor)), Provider(q.units, map[]);
    ServedPage(provider, p.cursor);
    assert Serve(provider, p.cursor).units == page.units && Serve(provider, p.cursor).cursor == PageCursor(page);
    forall i | 0 <= i < |page.units| ensures Beyond(p.cursor, page.units[i].id) {
      assert page.units[i].id in IdSet(page.units);
    }
  }

  lemma StepKeepsForward(s: System, a: Action)
    requires Forward(s) && Possible(s, a)
    ensures Forward(Step(s, a))
  {
    if a.ServePage? {
      ServedIsForward(s.Get(a.side), s.Get(!a.side));
    }
  }

  /** The id lies at or below the node's cursor, and the node does not have it. */
  ghost predicate PassedBy(n: Node, id: Id) {
    !Beyond(n.cursor, id) && id !in n.units
  }

  /** A public unit that reaches a node when its id is already at or below the other node's cursor, and
      the other does not have it, never gets there by pulling: in every run, whatever else happens, the
      other node holds it only if it is submitted there. */
  lemma {:induction false} LateUnitNeverArrives(s: System, acts: seq<Action>, side: bool, id: Id)
    requires Forward(s) && IsAnyRun(s, acts) && PassedBy(s.Get(side), id)
    requires forall i :: 0 <= i < |acts| && acts[i].Submit? && acts[i].side == side ==> acts[i].u.id != id
    ensures id !in EndOfAny(s, acts).Get(side).units
    decreases |acts|
  {
    if acts != [] {
      hide Forward, PassedBy, Step;
      StepKeepsForward(s, acts[0]);
      LateUnitNeverArrives(Step(s, acts[0]), acts[1..], side, id);
    }
  }

  /** The states this speaks of are all those reached from two empty nodes. */
  lemma {:induction false} AnyRunIsForward(s: System, acts: seq<Action>)
    requires Forward(s) && IsAnyRun(s, acts)
    ensures Forward(EndOfAny(s, acts)) && Forward(Fresh)
    decreases |acts|
  {
    if acts != [] {
      StepKeepsForward(s, acts[0]);
      AnyRunIsForward(Step(s, acts[0]), acts[1..]);
    }
  }

  /** So a late unit keeps two nodes apart for good: from any state reached from two empty nodes, if a
      public unit is submitted to one node at or below the other's cursor and the other does not have
      it, no run without a submission of that id to the other makes their public units agree. */
  lemma {:induction false} LateUnitPreventsAgreement(before: seq<Action>, u: Unit, after: seq<Action>, side: bool)
    requires IsAnyRun(Fresh, before)
    requires var s := EndOfAny(Fresh, before);
             && PassedBy(s.Get(side), u.id) && u.IsPublic() && u.id !in s.Get(!side).units
             && IsAnyRun(Step(s, Submit(!side, u)), after)
    requires forall i :: 0 <= i < |after| && after[i].Submit? && after[i].side == side ==> after[i].u.id != u.id
    ensures var e := EndOfAny(Step(EndOfAny(Fresh, before), Submit(!side, u)), after);
            && u.id in PublicIds(e.Get(!side).units) && u.id !in PublicIds(e.Get(side).units)
  {
    var s := EndOfAny(Fresh, before);
    AnyRunIsForward(Fresh, before);
    var s' := Step(s, Submit(!side, u));
    StepKeepsForward(s, Submit(!side, u));
    assert PassedBy(s'.Get(side), u.id) && u.id in s'.Get(!side).units && s'.Get(!side).units[u.id] == u;
    LateUnitNeverArrives(s', after, side, u.id);
    hide Forward, PassedBy, Step;
    AnyRunKeepsUnits(s', after);
  }

  lemma {:induction false} AnyRunKeepsUnits(s: System, acts: seq<Action>)
    requires IsAnyRun(s, acts)
    ensures Extends(s.left.units, EndOfAny(s, acts).left.units)
    ensures Extends(s.right.units, EndOfAny(s, acts).right.units)
    decreases |acts|
  {
    if acts != [] {
      StepKeepsUnits(s, acts[0]);
      AnyRunKeepsUnits(Step(s, acts[0]), acts[1..]);
    }
  }

  lemma RunCons(s: System, a: Action, rest: seq<Action>)
    requires Possible(s, a) && IsAnyRun(Step(s, a), rest)
    ensures IsAnyRun(s, [a] + rest) && EndOfAny(s, [a] + rest) == EndOfAny(Step(s, a), rest)
  {
  }

  /** It can happen: once one unit has been pulled, every smaller id has been passed by. */
  lemma SmallIdsArePassedBy(u: Unit, late: Id) returns (before: seq<Action>)
    requires u.IsPublic() && late < u.id
    ensures IsAnyRun(Fresh, before)
    ensures var s := EndOfAny(Fresh, before);
            PassedBy(s.left, late) && late !in s.right.units && s.left.units == s.right.units == map[u.id := u]
  {
    hide ListUnits;
    OneUnitPage(u, PullFilter(None));
    var none, one: UnitMap := map[], map[u.id := u];
    var right0, right1 := Node(one, None, Idle, None), Node(one, None, Idle, Some(u.id));
    var s1 := System(Node(none, None, Idle, None), right0);
    var s2 := System(Node(none, None, Storing([u], Some(u.id), false), None), right1);
    var s3 := System(Node(one, None, Storing([], Some(u.id), false), None), right1);
    var s4 := System(Node(one, Some(u.id), Idle, None), right1);
    assert none[u.id := u] == one && [u][1..] == [];
    assert Step(Fresh, Submit(false, u)) == s1;
    assert ListUnits(s1.right.units, PullFilter(s1.left.cursor)) == Page([u], false);
    assert Step(s1, ServePage(true)) == s2;
    assert Step(s2, StoreNext(true)) == s3;
    assert Step(s3, AdvanceCursor(true)) == s4;
    before := [Submit(false, u)] + ([ServePage(true)] + ([StoreNext(true)] + ([AdvanceCursor(true)] + [])));
    hide Step;
    RunCons(s3, AdvanceCursor(true), []);
    RunCons(s2, StoreNext(true), [AdvanceCursor(true)] + []);
    RunCons(s1, ServePage(true), [StoreNext(true)] + ([AdvanceCursor(true)] + []));
    RunCons(Fresh, Submit(false, u), [ServePage(true)] + ([StoreNext(true)] + ([AdvanceCursor(true)] + [])));
  }

  // ---------------------------------------------------------------------------
  // Exactly when two nodes converge
  // ---------------------------------------------------------------------------

  /** The public ids of `q` that `p` has passed by. */
  function Lost(p: Node, q: Node): set<Id> {
    set id | id in PublicIds(q.units) && !Beyond(p.cursor, id) && id !in p.units
  }

  /** The system without some units of the left and of the right node. */
  function Strip(s: System, left: set<Id>, right: set<Id>): System {
    System(s.left.(units := s.left.units - left), s.right.(units := s.right.units - right))
  }

  /** `p` never comes across the ids `lost`, and what it is storing is held by `q`. */
  ghost predicate Passing(p: Node, q: Node, lost: set<Id>) {
    && PullsForward(p)
    && (forall id: Id :: id in lost ==> PassedBy(p, id))
    && (p.pull.Storing? ==> forall i :: 0 <= i < |p.pull.rest| ==> p.pull.rest[i].id in q.units)
  }

  ghost predicate Shadows(s: System, left: set<Id>, right: set<Id>) {
    Passing(s.left, s.right, right) && Passing(s.right, s.left, left)
  }

  lemma {:induction false} RangeIgnores(units: UnitMap, gone: set<Id>, ids: set<Id>)
    requires ids <= units.Keys - gone
    ensures ids <= (units - gone).Keys && Range(units - gone, ids) == Range(units, ids)
  {
    if ids != {} {
      RangeIgnores(units, gone, ids - {Least(ids)});
    }
  }

  lemma ListIgnores(units: UnitMap, gone: set<Id>, f: UnitFilter)
    requires forall id: Id :: id in gone ==> !Beyond(f.after, id)
    ensures ListUnits(units - gone, f) == ListUnits(units, f)
  {
    var ids := set id | id in units && Beyond(f.after, id);
    assert ids == set id | id in units - gone && Beyond(f.after, id);
    RangeIgnores(units, gone, ids);
  }

  lemma ServeShadows(p: Node, q: Node, lost: set<Id>)
    requires Passing(p, q, lost) && Keyed(q.units)
    ensures var page := ListUnits(q.units, PullFilter(p.cursor));
            && ListUnits(q.units - lost, PullFilter(p.cursor)) == page
            && Passing(p.(pull := Storing(page.units, PageCursor(page), page.hasMore)), q, lost)
  {
    ListIgnores(q.units, lost, PullFilter(p.cursor));
    ServedIsForward(p, q);
    var page, provider := ListUnits(q.units, PullFilter(p.cursor)), Provider(q.units, map[]);
    ServedPage(provider, p.cursor);
    assert Serve(provider, p.cursor).units == page.units;
  }

  lemma StoreShadows(p: Node, q: Node, lost: set<Id>, mine: set<Id>)
    requires Passing(p, q, lost) && Passing(q, p, mine) && p.pull.Storing? && p.pull.rest != []
    ensures var units, pull := PutIfAbsent(p.units, p.pull.rest[0]), p.pull.(rest := p.pull.rest[1..]);
            && PutIfAbsent(p.units - mine, p.pull.rest[0]) == units - mine
            && Passing(p.(units := units, pull := pull), q, lost)
            && Passing(q, p.(units := units, pull := pull), mine)
  {
  }

  lemma FinishShadows(p: Node, q: Node, lost: set<Id>, mine: set<Id>, cursor: Option<Id>)
    requires Passing(p, q, lost) && Passing(q, p, mine)
    requires cursor == p.cursor || (cursor.Some? && Beyond(p.cursor, cursor.value))
    ensures Passing(p.(pull := Idle, cursor := cursor), q, lost)
    ensures Passing(q, p.(pull := Idle, cursor := cursor), mine)
  {
  }

  /** Without submissions the system and its stripped copy move alike. */
  lemma StepShadows(s: System, a: Action, left: set<Id>, right: set<Id>)
    requires Shadows(s, left, right) && Possible(s, a) && !a.Submit?
    ensures Shadows(Step(s, a), left, right)
    ensures Possible(Strip(s, left, right), a)
    ensures Step(Strip(s, left, right), a) == Strip(Step(s, a), left, right)
    ensures forall side :: ServesLastPage(Strip(s, left, right), a, side) <==> ServesLastPage(s, a, side)
  {
    hide ListUnits, Passing;
    var me, other := s.Get(a.side), s.Get(!a.side);
    var lost, mine := if a.side then right else left, if a.side then left else right;
    assert Passing(me, other, lost) && Passing(other, me, mine);
    PassingMeans(me, other, lost);
    PassingMeans(other, me, mine);
    match a {
      case ServePage(_) =>
        ServeShadows(me, other, lost);
        var me', other' := Step(s, a).Get(a.side), Step(s, a).Get(!a.side);
        PassingIgnores(me', other, lost, me', other');
        PassingIgnores(other, me, mine, other', me');
      case StoreNext(_) =>
        StoreShadows(me, other, lost, mine);
      case StoreFails(_) =>
        FinishShadows(me, other, lost, mine, me.cursor);
      case AdvanceCursor(_) =>
        FinishShadows(me, other, lost, mine, if me.pull.cursor.Some? then me.pull.cursor else me.cursor);
      case CursorFails(_) =>
        FinishShadows(me, other, lost, mine, me.cursor);
    }
  }

  lemma PassingMeans(p: Node, q: Node, lost: set<Id>)
    requires Passing(p, q, lost)
    ensures Keyed(p.units)
    ensures p.pull.Storing? && p.pull.cursor.Some? ==> Beyond(p.cursor, p.pull.cursor.value)
  {
  }

  lemma PassingIgnores(p: Node, q: Node, lost: set<Id>, p': Node, q': Node)
    requires Passing(p, q, lost) && q'.units == q.units
    requires p'.units == p.units && p'.cursor == p.cursor && p'.pull == p.pull
    ensures Passing(p', q', lost)
  {
  }

  lemma {:induction false} RunShadows(s: System, acts: seq<Action>, left: set<Id>, right: set<Id>)
    requires Shadows(s, left, right) && IsRun(s, acts) && NoSubmissions(acts)
    ensures Shadows(End(s, acts), left, right) && IsRun(Strip(s, left, right), acts)
    ensures End(Strip(s, left, right), acts) == Strip(End(s, acts), left, right)
    ensures forall side :: Drains(Strip(s, left, right), acts, side) <==> Drains(s, acts, side)
    decreases |acts|
  {
    if acts != [] {
      hide Shadows, Strip, Step, ServesLastPage;
      StepShadows(s, acts[0], left, right);
      assert NoSubmissions(acts[1..]);
      RunShadows(Step(s, acts[0]), acts[1..], left, right);
    }
  }

  /** A cursor never passes what its provider has served. */
  ghost predicate CursorsServed(p: Node, q: Node) {
    NotAfter(p.cursor, q.served) && (p.pull.Storing? ==> NotAfter(p.pull.cursor, q.served))
  }

  lemma {:induction false} AnyRunCursorsServed(s: System, acts: seq<Action>)
    requires IsAnyRun(s, acts) && CursorsServed(s.left, s.right) && CursorsServed(s.right, s.left)
    ensures var e := EndOfAny(s, acts);
            CursorsServed(e.left, e.right) && CursorsServed(e.right, e.left)
    decreases |acts|
  {
    if acts != [] {
      AnyRunCursorsServed(Step(s, acts[0]), acts[1..]);
    }
  }

  /** The two halves together. From any state reached from two empty nodes, with no condition on the ids
      submitted so far, with no pull in progress and shared ids meaning the same units: after any
      interleaving without submissions in which each node completes one drain of the other, the two nodes
      hold the same public units if and only if neither had passed by a public unit of the other. */
  lemma DrainedNodesAgreeIff(before: seq<Action>, acts: seq<Action>)
    requires IsAnyRun(Fresh, before)
    requires var s := EndOfAny(Fresh, before);
             && s.left.pull.Idle? && s.right.pull.Idle? && Agree(s.left.units, s.right.units)
             && IsRun(s, acts) && NoSubmissions(acts) && Drains(s, acts, true) && Drains(s, acts, false)
             && End(s, acts).left.pull.Idle? && End(s, acts).right.pull.Idle?
    ensures var s, e := EndOfAny(Fresh, before), End(EndOfAny(Fresh, before), acts);
            PublicIds(e.left.units) == PublicIds(e.right.units) <==>
              && (forall id: Id :: id in PublicIds(s.right.units) ==> !PassedBy(s.left, id))
              && (forall id: Id :: id in PublicIds(s.left.units) ==> !PassedBy(s.right, id))
  {
    var s := EndOfAny(Fresh, before);
    AnyRunIsForward(Fresh, before);
    AnyRunCursorsServed(Fresh, before);
    hide EndOfAny, IsAnyRun;
    var left, right := Lost(s.right, s.left), Lost(s.left, s.right);
    RunShadows(s, acts, left, right);
    var e := End(s, acts);
    hide Inv, Forward, CursorsServed, Drains, IsRun, End;
    DrainedNodesAgree(Strip(s, left, right), acts);
    RunKeepsLost(s, acts, left, right);
    LostAreMissing(e, left, right);
    NoneLost(s);
  }

  lemma {:induction false} RunKeepsLost(s: System, acts: seq<Action>, left: set<Id>, right: set<Id>)
    requires IsRun(s, acts) && left <= PublicIds(s.left.units) && right <= PublicIds(s.right.units)
    ensures left <= PublicIds(End(s, acts).left.units) && right <= PublicIds(End(s, acts).right.units)
    decreases |acts|
  {
    if acts != [] {
      StepKeepsUnits(s, acts[0]);
      RunKeepsLost(Step(s, acts[0]), acts[1..], left, right);
    }
  }

  /** Two nodes that agree without the lost ids agree with them only if there are none. */
  lemma LostAreMissing(e: System, left: set<Id>, right: set<Id>)
    requires Shadows(e, left, right)
    requires left <= PublicIds(e.left.units) && right <= PublicIds(e.right.units)
    requires PublicIds(e.left.units - left) == PublicIds(e.right.units - right)
    ensures PublicIds(e.left.units) == PublicIds(e.right.units) <==> left == {} && right == {}
  {
    assert PublicIds(e.left.units - left) == PublicIds(e.left.units) - left;
    assert PublicIds(e.right.units - right) == PublicIds(e.right.units) - right;
    forall id | id in left ensures id !in PublicIds(e.right.units) {
      assert PassedBy(e.right, id);
    }
    forall id | id in right ensures id !in PublicIds(e.left.units) {
      assert PassedBy(e.left, id);
    }
    EqualIffNoneExtra(PublicIds(e.left.units), PublicIds(e.right.units), left, right);
  }

  lemma EqualIffNoneExtra(a: set<Id>, b: set<Id>, x: set<Id>, y: set<Id>)
    requires x <= a && y <= b && x !! b && y !! a && a - x == b - y
    ensures a == b <==> x == {} && y == {}
  {
    if x == {} && y == {} {
      assert a == a - x && b == b - y;
    }
    if a == b {
      assert x <= b && y <= a;
      assert x == x * b && y == y * a;
    }
  }

  lemma NoneLost(s: System)
    ensures Lost(s.right, s.left) == {} <==> forall id: Id :: id in PublicIds(s.left.units) ==> !PassedBy(s.right, id)
    ensures Lost(s.left, s.right) == {} <==> forall id: Id :: id in PublicIds(s.right.units) ==> !PassedBy(s.left, id)
  {
    NoneLostBy(s.right, s.left);
    NoneLostBy(s.left, s.right);
  }

  lemma NoneLostBy(p: Node, q: Node)
    ensures Lost(p, q) == {} <==> forall id: Id :: id in PublicIds(q.units) ==> !PassedBy(p, id)
  {
    assert forall id: Id :: id in Lost(p, q) <==> id in PublicIds(q.units) && PassedBy(p, id);
  }
}
