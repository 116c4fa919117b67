/** Concrete runs in which an event stream leaves a submitted unit out. */
module StreamGaps {
  import opened Units
  import opened Listing
  import opened EventStream

  function PublicUnit(id: Id): Unit {
    Unit(id, Assertion, "did:key:a", 0, None, None, None, "")
  }

  const U1: Unit := PublicUnit(1)

  const U2: Unit := PublicUnit(2)

  const U3: Unit := PublicUnit(3)

  /** One more action at the end of a run. */
  lemma {:induction false} Then(h: Hub, acts: seq<Action>, a: Action, f: UnitFilter) returns (more: seq<Action>)
    requires IsRun(h, acts, f) && Enabled(End(h, acts, f), a)
    ensures more == acts + [a] && IsRun(h, more, f) && End(h, more, f) == Step(End(h, acts, f), a, f)
    decreases |acts|
  {
    hide Step, Enabled;
    more := acts + [a];
    if acts == [] {
      assert more == [a] && more[1..] == [];
    } else {
      var rest := Then(Step(h, acts[0], f), acts[1..], a, f);
      assert more[0] == acts[0] && more[1..] == rest;
    }
  }

  lemma BothSent(f: UnitFilter) returns (acts: seq<Action>)
    ensures IsRun(Empty, acts, f)
    ensures End(Empty, acts, f) == Hub(map[1 := U1, 2 := U2], {1, 2}, {}, [U1, U2], Offline)
  {
    hide ListUnits;
    var both := map[1 := U1, 2 := U2];
    acts := Then(Empty, [], Put(U1), f);
    assert End(Empty, acts, f) == Hub(map[1 := U1], {1}, {1}, [], Offline);
    acts := Then(Empty, acts, Put(U2), f);
    assert End(Empty, acts, f) == Hub(both, {1, 2}, {1, 2}, [], Offline);
    acts := Then(Empty, acts, Send(1), f);
    assert End(Empty, acts, f) == Hub(both, {1, 2}, {2}, [U1], Offline);
    acts := Then(Empty, acts, Send(2), f);
  }

  /** The replay is one page only: with a page size of one and two units broadcast before the client
      connects, the second one is in neither part of the stream. */
  lemma ReplayCanStopShort() returns (acts: seq<Action>, f: UnitFilter)
    ensures IsSync(f) && IsRun(Empty, acts, f)
    ensures var h := End(Empty, acts, f);
            && h.stage.Streaming? && h.pending == {} && h.stage.from <= |h.sent|
            && 2 in Matching(h.units, f) && 2 in h.submitted && !Carried(h, 2)
  {
    hide ListUnits;
    f := SyncFilter(NoParams(None, Some(1)));
    acts := BothSent(f);
    acts := Then(Empty, acts, Subscribe, f);
    acts := Then(Empty, acts, ListHistory, f);
    hide End, IsRun;
    var both := map[1 := U1, 2 := U2];
    assert Ahead(both, f, 2) == {1};
    OnPageIff(both, f, 2);
    assert [U1, U2][2..] == [];
  }

  /** Unit 1 is stored and waits to be broadcast, unit 2 has been. */
  lemma SecondFirst(f: UnitFilter) returns (acts: seq<Action>)
    requires IsSync(f)
    ensures IsRun(Empty, acts, f)
    ensures End(Empty, acts, f)
         == Hub(map[2 := U2, 1 := U1], {1, 2}, {1}, [U2], Streaming(0, ListUnits(map[], f)))
  {
    hide ListUnits;
    acts := Then(Empty, [], Subscribe, f);
    acts := Then(Empty, acts, ListHistory, f);
    var empty := Streaming(0, ListUnits(map[], f));
    acts := Then(Empty, acts, Put(U2), f);
    assert End(Empty, acts, f) == Hub(map[2 := U2], {2}, {2}, [], empty);
    acts := Then(Empty, acts, Put(U1), f);
    assert End(Empty, acts, f) == Hub(map[2 := U2, 1 := U1], {1, 2}, {1, 2}, [], empty);
    acts := Then(Empty, acts, Send(2), f);
  }

  /** One broadcast, and then a new connection. */
  lemma SendAndReconnect(h: Hub, id: Id, g: UnitFilter) returns (acts: seq<Action>)
    requires h.stage.Offline? && id in h.pending && id in h.units
    ensures acts == [Send(id), Subscribe, ListHistory] && IsRun(h, acts, g)
    ensures var sent := h.sent + [h.units[id]];
            End(h, acts, g) == Hub(h.units, h.submitted, h.pending - {id}, sent, Streaming(|sent|, ListUnits(h.units, g)))
  {
    hide ListUnits;
    acts := Then(h, [], Send(id), g);
    acts := Then(h, acts, Subscribe, g);
    acts := Then(h, acts, ListHistory, g);
    assert acts == [Send(id), Subscribe, ListHistory];
  }

  lemma NothingListed(f: UnitFilter)
    ensures ListUnits(map[], f).units == []
  {
  }

  /** Resuming from the last id can leave a gap, because broadcasts need not come in id order: the client
      receives unit 2, breaks off, unit 1 is broadcast, and the replay after 2 does not have it. */
  lemma ResumeCanLeaveGap() returns (first: seq<Action>, second: seq<Action>, p: Params)
    ensures IsRun(Empty, first, SyncFilter(p)) && FirstEnd(first, p).stage.Streaming?
    ensures FirstEnd(first, p).stage.from <= |FirstEnd(first, p).sent| && Events(FirstEnd(first, p)) == [U2]
    ensures var c := ResumeCursor(p.after, [U2]);
            && Reconnects(first, second, p, c)
            && var e := SecondEnd(first, second, p, c);
               1 in Matching(e.units, SyncFilter(p)) && 1 in e.submitted && !Carried(e, 1)
  {
    p := NoParams(None, None);
    var f, g := SyncFilter(p), SyncFilter(p.(after := Some(2)));
    NothingListed(f);
    first := SecondFirst(f);
    var h := FirstEnd(first, p);
    assert [U2][0..] == [U2] && [] + [U2] == [U2];
    second := SendAndReconnect(Disconnected(h), 1, g);
    hide End, IsRun, ListUnits;
    OnPageIff(h.units, g, 1);
    assert [U2, U1][2..] == [];
  }

  /** Unit 1 was replayed, unit 2 followed, and unit 3 waits to be broadcast. */
  lemma ThirdWaits(f: UnitFilter) returns (acts: seq<Action>)
    requires f == SyncFilter(NoParams(Some(0), Some(1)))
    ensures IsRun(Empty, acts, f)
    ensures End(Empty, acts, f)
         == Hub(map[1 := U1, 2 := U2, 3 := U3], {1, 2, 3}, {3}, [U1, U2], Streaming(1, Page([U1], false)))
  {
    OneUnitPage(U1, f);
    hide ListUnits, SyncFilter;
    acts := Then(Empty, [], Put(U1), f);
    assert End(Empty, acts, f) == Hub(map[1 := U1], {1}, {1}, [], Offline);
    acts := Then(Empty, acts, Send(1), f);
    assert End(Empty, acts, f) == Hub(map[1 := U1], {1}, {}, [U1], Offline);
    acts := Then(Empty, acts, Subscribe, f);
    acts := Then(Empty, acts, ListHistory, f);
    var one := Streaming(1, Page([U1], false));
    assert End(Empty, acts, f) == Hub(map[1 := U1], {1}, {}, [U1], one);
    acts := Then(Empty, acts, Put(U2), f);
    assert End(Empty, acts, f) == Hub(map[1 := U1, 2 := U2], {1, 2}, {2}, [U1], one);
    acts := Then(Empty, acts, Send(2), f);
    assert End(Empty, acts, f) == Hub(map[1 := U1, 2 := U2], {1, 2}, {}, [U1, U2], one);
    acts := Then(Empty, acts, Put(U3), f);
  }

  /** A client whose request has an `after` parameter resumes from that parameter and not from the last
      event: with a page size of one it receives units 1 and 2, breaks off, and misses unit 3, which a
      connection from the last event would have replayed. */
  lemma LastEventCanBeIgnored() returns (first: seq<Action>, second: seq<Action>, p: Params)
    ensures IsRun(Empty, first, SyncFilter(p)) && FirstEnd(first, p).stage.Streaming?
    ensures FirstEnd(first, p).stage.from <= |FirstEnd(first, p).sent| && Events(FirstEnd(first, p)) == [U1, U2]
    ensures var c := ResumeCursor(p.after, [U1, U2]);
            && Reconnects(first, second, p, c) && Reconnects(first, second, p, Some(2))
            && 3 in SecondEnd(first, second, p, c).submitted
            && 3 in Matching(SecondEnd(first, second, p, c).units, SyncFilter(p))
            && !Carried(SecondEnd(first, second, p, c), 3)
            && Carried(SecondEnd(first, second, p, Some(2)), 3)
  {
    p := NoParams(Some(0), Some(1));
    var f, g := SyncFilter(p), SyncFilter(p.(after := Some(2)));
    first := ThirdWaits(f);
    var h := FirstEnd(first, p);
    assert [U1, U2][1..] == [U2] && [U1] + [U2] == [U1, U2];
    second := SendAndReconnect(Disconnected(h), 3, f);
    var other := SendAndReconnect(Disconnected(h), 3, g);
    hide End, IsRun, ListUnits, Matching;
    ThirdIsReplayed(h.units, f, Some(0));
    ThirdIsReplayed(h.units, g, Some(2));
    assert [U1, U2, U3][3..] == [];
  }

  lemma ThirdIsReplayed(units: UnitMap, f: UnitFilter, c: Option<Id>)
    requires units == map[1 := U1, 2 := U2, 3 := U3] && f == SyncFilter(NoParams(c, Some(1)))
    requires c == Some(0) || c == Some(2)
    ensures 3 in Matching(units, f)
    ensures 3 in IdSet(ListUnits(units, f).units) <==> c == Some(2)
  {
    hide ListUnits;
    assert Ahead(units, f, 3) == if c == Some(0) then {1, 2} else {};
    OnPageIff(units, f, 3);
  }
}
