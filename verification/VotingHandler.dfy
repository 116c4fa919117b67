/** The handlers that change a peer's reputation: the community vote behind its gate, and the nudge. Each
    is proved to be one of the runs of `ConcurrentVotes`, with its steps in a row. */
module VotingHandler {
  import opened Units
  import opened MemoryStorage
  import opened Reputation
  import opened ConcurrentVotes

  // ---------------------------------------------------------------------------
  // The reputations the statistics range over
  // ---------------------------------------------------------------------------

  function Reputations(list: seq<PeerInfo>): (xs: seq<real>)
    ensures |xs| == |list| && forall i :: 0 <= i < |xs| ==> xs[i] == list[i].reputation
  {
    seq(|list|, i requires 0 <= i < |list| => list[i].reputation)
  }

  function ScoreList(peers: PeerMap): seq<real>
    requires PeersKeyed(peers)
  {
    Reputations(RankedPeers(peers))
  }

  function ScoreMap(peers: PeerMap): Scores {
    map id | id in peers :: peers[id].reputation
  }

  ghost predicate ScoresInUnit(peers: PeerMap) {
    forall id :: id in peers ==> 0.0 <= peers[id].reputation <= 1.0
  }

  /** Taking one member out of a listed set takes its term out of the sum. */
  lemma {:induction false} SumWithout(f: real -> real, scores: Scores, ids: set<NodeId>, x: NodeId)
    requires ids <= scores.Keys && x in ids
    ensures SumOf(f, ListOf(scores, ids)) == f(scores[x]) + SumOf(f, ListOf(scores, ids - {x}))
    decreases |ids|
  {
    var m := Least(ids);
    if x != m {
      SumWithout(f, scores, ids - {m}, x);
      LeastStays(ids, x);
      assert ids - {m} - {x} == ids - {x} - {m};
    }
  }

  lemma LeastStays(ids: set<NodeId>, x: NodeId)
    requires x in ids && x != Least(ids)
    ensures ids - {x} != {} && Least(ids - {x}) == Least(ids)
  {
    assert Least(ids) in ids - {x};
  }

  lemma {:induction false} ListOfSize(scores: Scores, ids: set<NodeId>)
    requires ids <= scores.Keys
    ensures |ListOf(scores, ids)| == |ids|
    decreases |ids|
  {
    if ids != {} {
      ListOfSize(scores, ids - {Least(ids)});
    }
  }

  lemma ScoreListCons(peers: PeerMap)
    requires PeersKeyed(peers) && peers != map[]
    ensures var top := Top(peers);
            ScoreList(peers) == [peers[top].reputation] + ScoreList(peers - {top})
  {
  }

  /** A sum over the peers does not depend on the order they are listed in. */
  lemma {:induction false} SumIsUnordered(f: real -> real, peers: PeerMap, scores: Scores)
    requires PeersKeyed(peers) && peers.Keys <= scores.Keys
    requires forall id: NodeId :: id in peers ==> scores[id] == peers[id].reputation
    ensures SumOf(f, ScoreList(peers)) == SumOf(f, ListOf(scores, peers.Keys))
    decreases |peers|
  {
    hide ScoreList;
    if peers == map[] {
      assert ScoreList(peers) == [] by { ScoreListNone(peers); }
    } else {
      var top := Top(peers);
      RemovalShrinks(peers, top);
      SumIsUnordered(f, peers - {top}, scores);
      ScoreListCons(peers);
      var rest := ScoreList(peers - {top});
      assert ([peers[top].reputation] + rest)[1..] == rest;
      SumWithout(f, scores, peers.Keys, top);
    }
  }

  lemma ScoreListNone(peers: PeerMap)
    requires peers == map[]
    ensures PeersKeyed(peers) && ScoreList(peers) == []
  {
  }

  lemma RootIsUnique(a: real, b: real)
    requires a >= 0.0 && b >= 0.0 && Square(a) == Square(b)
    ensures a == b
  {
    assert Mul(a - b, a + b) == Square(a) - Square(b);
    MulSigns(a - b, a + b);
    MulSigns(b - a, a + b);
    assert Mul(b - a, a + b) == -Mul(a - b, a + b);
  }

  lemma EqualSums(xs: seq<real>, ys: seq<real>, g: Gate)
    requires |xs| == |ys| && Sum(xs) == Sum(ys) && SumSq(xs) == SumSq(ys) && IsGate(g)
    ensures Mean(xs) == Mean(ys) && g.stddev(xs) == g.stddev(ys)
  {
    hide Mul;
    assert Variance(xs) == Variance(ys);
    RootIsUnique(g.stddev(xs), g.stddev(ys));
  }

  /** The gate of a concurrent vote is the gate of the handler. */
  lemma SameBar(g: Gate, peers: PeerMap)
    requires PeersKeyed(peers) && IsGate(g)
    ensures Bar(g, ScoreMap(peers)) == Threshold(ScoreList(peers), g.sigma, g.stddev(ScoreList(peers)))
  {
    hide IsGate, Mul, Square;
    var scores := ScoreMap(peers);
    assert scores.Keys == peers.Keys;
    SumIsUnordered((x: real) => x, peers, scores);
    SumIsUnordered(Square, peers, scores);
    ListOfSize(scores, scores.Keys);
    RankedPeersIsRanking(peers);
    EqualSums(ScoreList(peers), ListOf(scores, scores.Keys), g);
  }

  // ---------------------------------------------------------------------------
  // The vote
  // ---------------------------------------------------------------------------

  datatype VoteError = BadRequest | SelfUpdate | NoCaller | NotMember | BelowThreshold | TargetNotFound

  /** A vote: the target, the identity the caller declares, and the proposal. */
  datatype Vote = Vote(target: NodeId, caller: Option<NodeId>, proposed: real)

  /** The checks of the handler in their order. */
  function Objection(peers: PeerMap, own: NodeId, v: Vote, g: Gate): Option<VoteError>
    requires PeersKeyed(peers)
  {
    var xs := ScoreList(peers);
    if v.proposed < 0.0 || v.proposed > 1.0 then Some(BadRequest)
    else if v.target == own then Some(SelfUpdate)
    else if v.caller.None? then Some(NoCaller)
    else if v.caller.value !in peers then Some(NotMember)
    else if peers[v.caller.value].reputation < Threshold(xs, g.sigma, g.stddev(xs)) then Some(BelowThreshold)
    else if v.target !in peers then Some(TargetNotFound)
    else None
  }

  /** A vote cast with nothing else in between leaves the scores the handler leaves. */
  lemma VoteAlone(g: Gate, peers: PeerMap, own: NodeId, v: Vote)
    requires PeersKeyed(peers) && IsGate(g) && v.caller.Some? && v.target != own
    ensures var scores, o := ScoreMap(peers), Objection(peers, own, v, g);
            && (o.None? ==> v.target in scores && v.caller.value in scores)
            && Run(g, State(scores, map[]), OneVote(v.target, Ballot(v.caller.value, v.proposed)))
            == State(if o.Some? then scores
                     else scores[v.target := Blend(scores, v.target, Ballot(v.caller.value, v.proposed))], map[])
  {
    hide Weighted, Passes, Run, IsGate, Threshold, ScoreList;
    var scores, b := ScoreMap(peers), Ballot(v.caller.value, v.proposed);
    if 0.0 <= v.proposed <= 1.0 && b.caller in scores && v.target in scores {
      SameBar(g, peers);
      PassesMeans(g, scores, scores[b.caller]);
      OneVoteCasts(g, scores, v.target, b);
    } else {
      VoteFails(g, scores, v.target, b);
    }
  }

  lemma PassesMeans(g: Gate, scores: Scores, weight: real)
    ensures Passes(g, scores, weight) <==> weight >= Bar(g, scores)
  {
  }

  lemma VoteFails(g: Gate, scores: Scores, target: NodeId, b: Ballot)
    requires !(0.0 <= b.proposed <= 1.0) || b.caller !in scores || target !in scores
    ensures Run(g, State(scores, map[]), OneVote(target, b)) == State(scores, map[])
  {
    hide Passes, Run;
    var s0 := State(scores, map[]);
    RunFour(g, s0, Weigh(0, b.caller, target, b.proposed), CheckGate(0), ReadTarget(0), Write(0));
  }

  lemma LookUp(peers: PeerMap, id: NodeId)
    requires PeersKeyed(peers)
    ensures FindPeer(RankedPeers(peers), id) == if id in peers then Some(peers[id]) else None
  {
    RankedPeersIsRanking(peers);
    FindPeerIsLookup(peers, RankedPeers(peers), id);
  }

  /** The checks of the handler, ending with the caller's and the target's records. */
  method CheckVote(storage: MemoryStorage, own: NodeId, v: Vote, g: Gate)
    returns (r: Result<(PeerInfo, PeerInfo), VoteError>)
    requires storage.Valid()
    ensures r.Err? <==> Objection(storage.peers, own, v, g).Some?
    ensures r.Err? ==> Some(r.error) == Objection(storage.peers, own, v, g)
    ensures r.Ok? ==> r.value == (storage.peers[v.caller.value], storage.peers[v.target])
  {
    hide Mul, Threshold;
    if v.proposed < 0.0 || v.proposed > 1.0 {
      return Err(BadRequest);
    }
    if v.target == own {
      return Err(SelfUpdate);
    }
    if v.caller.None? {
      return Err(NoCaller);
    }
    var list := RankedPeers(storage.peers);
    LookUp(storage.peers, v.caller.value);
    LookUp(storage.peers, v.target);
    var caller := FindPeer(list, v.caller.value);
    if caller.None? {
      return Err(NotMember);
    }
    var xs := Reputations(list);
    if caller.value.reputation < Threshold(xs, g.sigma, g.stddev(xs)) {
      return Err(BelowThreshold);
    }
    var target := FindPeer(list, v.target);
    if target.None? {
      return Err(TargetNotFound);
    }
    r := Ok((caller.value, target.value));
  }

  /** `PATCH /v1/peers/{id}`. The checks are answered in this order: the proposal lies in [0, 1]; the
      target is another node; the caller is named, is a peer, and has at least mean - sigma x stddev,
      floored at 0; the target is a peer. A vote that fails one changes nothing. One that passes moves only
      the target's reputation, from its distance d to the proposal to (1 - weight) d. The best-reputed peer
      is never turned away. And the handler is one vote of `ConcurrentVotes`, cast with nothing in between. */
  method UpdateReputation(storage: MemoryStorage, own: NodeId, v: Vote, g: Gate)
    returns (r: Result<PeerInfo, VoteError>)
    requires storage.Valid() && IsGate(g)
    modifies storage`peers
    ensures storage.Valid()
    ensures var peers := old(storage.peers);
            var bar := Mean(ScoreList(peers)) - Mul(g.sigma, g.stddev(ScoreList(peers)));
            var fair := 0.0 <= v.proposed <= 1.0;
            var other := fair && v.target != own;
            var named := other && v.caller.Some?;
            var member := named && v.caller.value in peers;
            var able := member && peers[v.caller.value].reputation >= bar && peers[v.caller.value].reputation >= 0.0;
            && (r.Ok? <==> able && v.target in peers)
            && (r == Err(TargetNotFound) <==> able && v.target !in peers)
            && (r == Err(BelowThreshold) <==> member && !able)
            && (r == Err(NotMember) <==> named && !member)
            && (r == Err(NoCaller) <==> other && !named)
            && (r == Err(SelfUpdate) <==> fair && !other)
            && (r == Err(BadRequest) <==> !fair)
    ensures r.Err? ==> storage.peers == old(storage.peers)
    ensures r.Ok? ==> storage.peers == old(storage.peers)[v.target := r.value]
    ensures r.Ok? ==> r.value == old(storage.peers[v.target]).(reputation := r.value.reputation)
    ensures r.Ok? && old(ScoresInUnit(storage.peers)) ==>
              var current, weight := old(storage.peers[v.target].reputation), old(storage.peers[v.caller.value].reputation);
              r.value.reputation - v.proposed == Mul(current - v.proposed, 1.0 - weight)
    ensures old(ScoresInUnit(storage.peers)) ==> ScoresInUnit(storage.peers)
    ensures old(ScoresInUnit(storage.peers) && v.caller.Some? && IsBest(storage.peers, v.caller.value)) ==>
              r != Err(BelowThreshold)
    ensures v.target != own && v.caller.Some? ==>
              Run(g, State(old(ScoreMap(storage.peers)), map[]), OneVote(v.target, Ballot(v.caller.value, v.proposed)))
              == State(ScoreMap(storage.peers), map[])
  {
    hide Mul, Run, OneVote, IsGate, Weighted, ScoreList, Mean;
    ghost var before := storage.peers;
    if v.target != own && v.caller.Some? {
      VoteAlone(g, before, own, v);
      if ScoresInUnit(before) && IsBest(before, v.caller.value) {
        BestIsHeard(before, v.caller.value, g);
      }
    }
    var checked := CheckVote(storage, own, v, g);
    if checked.Err? {
      return Err(checked.error);
    }
    var blended := Weighted(checked.value.1.reputation, v.proposed, checked.value.0.reputation);
    WeightedInUnit(checked.value.1.reputation, v.proposed, checked.value.0.reputation);
    var written := storage.UpdatePeerReputation(v.target, blended);
    assert ScoreMap(storage.peers) == ScoreMap(before)[v.target := blended];
    if ScoresInUnit(before) {
      VoteContracts(checked.value.1.reputation, v.proposed, checked.value.0.reputation);
    }
    r := Ok(storage.peers[v.target]);
  }

  lemma WeightedInUnit(current: real, proposed: real, weight: real)
    ensures 0.0 <= Weighted(current, proposed, weight) <= 1.0
  {
  }

  ghost predicate IsBest(peers: PeerMap, best: NodeId) {
    best in peers && forall id :: id in peers ==> peers[id].reputation <= peers[best].reputation
  }

  /** The best-reputed member is at or above the threshold the handler computes. */
  lemma BestIsHeard(peers: PeerMap, best: NodeId, g: Gate)
    requires PeersKeyed(peers) && ScoresInUnit(peers) && IsBest(peers, best) && IsGate(g)
    ensures peers[best].reputation >= Threshold(ScoreList(peers), g.sigma, g.stddev(ScoreList(peers)))
  {
    hide Mul, Threshold;
    var list := RankedPeers(peers);
    RankedPeersIsRanking(peers);
    assert peers[best] in list;
    var i :| 0 <= i < |list| && list[i] == peers[best];
    assert forall j :: 0 <= j < |list| ==> list[j].nodeId in peers && peers[list[j].nodeId] == list[j];
    BestCanVote(ScoreList(peers), i, g.sigma, g.stddev(ScoreList(peers)));
  }

  function PeersBelow(peers: PeerMap, t: real): set<NodeId> {
    set id | id in peers && peers[id].reputation < t
  }

  lemma {:induction false} BelowIsUnordered(peers: PeerMap, t: real)
    requires PeersKeyed(peers)
    ensures Below(ScoreList(peers), t) == |PeersBelow(peers, t)|
    decreases |peers|
  {
    hide ScoreList;
    if peers == map[] {
      ScoreListNone(peers);
      assert PeersBelow(peers, t) == {};
    } else {
      var top := Top(peers);
      RemovalShrinks(peers, top);
      BelowIsUnordered(peers - {top}, t);
      ScoreListCons(peers);
      var rest := ScoreList(peers - {top});
      assert ([peers[top].reputation] + rest)[1..] == rest;
      BelowCons(peers, top, t);
    }
  }

  lemma BelowCons(peers: PeerMap, top: NodeId, t: real)
    requires top in peers
    ensures |PeersBelow(peers, t)| == |PeersBelow(peers - {top}, t)| + if peers[top].reputation < t then 1 else 0
  {
    var away := PeersBelow(peers - {top}, t);
    assert PeersBelow(peers, t) == if peers[top].reputation < t then away + {top} else away;
  }

  /** Of n peers at most n / (1 + sigma^2) are below the bar of `UpdateReputation`. */
  lemma FewAreTurnedAway(peers: PeerMap, g: Gate)
    requires PeersKeyed(peers) && ScoresInUnit(peers) && IsGate(g)
    ensures var bar := Mean(ScoreList(peers)) - Mul(g.sigma, g.stddev(ScoreList(peers)));
            var away := set id | id in peers && !(peers[id].reputation >= bar && peers[id].reputation >= 0.0);
            Mul(|away| as real, 1.0 + Square(g.sigma)) <= |peers| as real
  {
    hide Mul, Square, IsStddev, ScoreList, Mean;
    var xs := ScoreList(peers);
    var bar := Mean(xs) - Mul(g.sigma, g.stddev(xs));
    var t := Threshold(xs, g.sigma, g.stddev(xs));
    ScoresAreListed(peers);
    FewFallBelow(xs, g.sigma, g.stddev(xs));
    BelowIsUnordered(peers, t);
    assert PeersBelow(peers, t) == set id | id in peers && !(peers[id].reputation >= bar && peers[id].reputation >= 0.0);
  }

  lemma ScoresAreListed(peers: PeerMap)
    requires PeersKeyed(peers)
    ensures |ScoreList(peers)| == |peers|
    ensures ScoresInUnit(peers) ==> InUnit(ScoreList(peers))
  {
    RankedPeersIsRanking(peers);
  }

  // ---------------------------------------------------------------------------
  // The nudge
  // ---------------------------------------------------------------------------

  /** The reachability nudge reads the current value and writes it back shifted, stopping at 0 and 1; an
      unknown peer is never created by it. It too is one of the requests of `ConcurrentVotes`. */
  method NudgePeerReputation(storage: MemoryStorage, id: NodeId, delta: real)
    requires storage.Valid()
    modifies storage`peers
    ensures storage.Valid()
    ensures id !in old(storage.peers) ==> storage.peers == old(storage.peers)
    ensures id in old(storage.peers) ==>
              var p := old(storage.peers[id]);
              var x := p.reputation + delta;
              storage.peers == old(storage.peers)[id := p.(reputation := if x < 0.0 then 0.0 else if x > 1.0 then 1.0 else x)]
    ensures old(ScoresInUnit(storage.peers)) ==> ScoresInUnit(storage.peers)
    ensures forall g: Gate :: Run(g, State(old(ScoreMap(storage.peers)), map[]), OneNudge(id, delta))
                           == State(ScoreMap(storage.peers), map[])
  {
    hide Run, OneNudge, Clamp, ScoreMap;
    var list := RankedPeers(storage.peers);
    LookUp(storage.peers, id);
    var found := FindPeer(list, id);
    var current := if found.Some? then found.value.reputation else 0.5;
    ghost var before := storage.peers;
    var written := storage.UpdatePeerReputation(id, Clamp(current + delta));
    NudgesTheScore(before, id, delta);
  }

  function Nudged(peers: PeerMap, id: NodeId, delta: real): PeerMap {
    if id in peers then peers[id := peers[id].(reputation := Clamp(peers[id].reputation + delta))] else peers
  }

  lemma NudgesTheScore(peers: PeerMap, id: NodeId, delta: real)
    ensures forall g: Gate ::
              Run(g, State(ScoreMap(peers), map[]), OneNudge(id, delta)) == State(ScoreMap(Nudged(peers, id, delta)), map[])
  {
    hide Clamp, Run, OneNudge;
    var scores := ScoreMap(peers);
    assert ScoreMap(Nudged(peers, id, delta)) == if id in scores then scores[id := Clamp(scores[id] + delta)] else scores;
    forall g: Gate
      ensures Run(g, State(scores, map[]), OneNudge(id, delta)) == State(ScoreMap(Nudged(peers, id, delta)), map[])
    {
      NudgeAlone(g, scores, id, delta);
    }
  }

  function OneNudge(target: NodeId, delta: real): seq<Action> {
    [ReadNudge(0, target, delta), Write(0)]
  }

  lemma NudgeAlone(g: Gate, scores: Scores, id: NodeId, delta: real)
    ensures Run(g, State(scores, map[]), OneNudge(id, delta))
         == State(if id in scores then scores[id := Clamp(scores[id] + delta)] else scores, map[])
  {
    hide Clamp;
    var s0, read, write := State(scores, map[]), ReadNudge(0, id, delta), Write(0);
    var s1 := Step(g, s0, read);
    assert [read, write][1..] == [write];
    assert Run(g, s1, [write]) == Step(g, s1, write);
    assert Run(g, s0, [read, write]) == Run(g, s1, [write]);
  }
}
