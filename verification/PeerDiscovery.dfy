/** Growing the peer table from pulled peer lists, with a cap and eviction by reputation. */
module PeerDiscovery {
  import opened Units
  import opened MemoryStorage

  datatype VerifyResult = Verified | Mismatch | Unreachable

  datatype Candidate = Candidate(info: PeerInfo, verify: VerifyResult)

  /** The last peer of the listing: the lowest reputation, and among those the highest node id. */
  ghost predicate IsWorst(peers: PeerMap, id: NodeId) {
    id in peers && forall x :: x in peers && x != id ==> Outranks(peers[x], peers[id])
  }

  function Worst(peers: PeerMap): (id: NodeId)
    requires PeersKeyed(peers) && peers != map[]
    ensures IsWorst(peers, id)
  {
    RankedPeersIsRanking(peers);
    LastIsWorst(peers, RankedPeers(peers));
    var list := RankedPeers(peers);
    list[|list| - 1].nodeId
  }

  lemma LastIsWorst(peers: PeerMap, list: seq<PeerInfo>)
    requires PeersKeyed(peers) && IsRanking(peers, list) && peers != map[]
    ensures list != [] && IsWorst(peers, list[|list| - 1].nodeId)
  {
  }

  /** The table after one candidate is offered. */
  function Offer(peers: PeerMap, c: Candidate, cap: nat): PeerMap
    requires PeersKeyed(peers)
  {
    if c.verify == Mismatch then peers
    else if |peers| >= cap && peers != map[] then
      var worst := Worst(peers);
      if c.info.reputation > peers[worst].reputation then Upsert(peers - {worst}, c.info) else peers
    else Upsert(peers, c.info)
  }

  lemma OfferKeepsKeyed(peers: PeerMap, c: Candidate, cap: nat)
    requires PeersKeyed(peers)
    ensures PeersKeyed(Offer(peers, c, cap))
  {
  }

  method TryAddPeer(storage: MemoryStorage, c: Candidate, cap: nat)
    requires storage.Valid()
    modifies storage`peers
    ensures storage.Valid()
    ensures storage.peers == Offer(old(storage.peers), c, cap)
  {
    if c.verify == Mismatch {
      return;
    }
    var list := RankedPeers(storage.peers);
    RankedPeersIsRanking(storage.peers);
    if |list| >= cap && list != [] {
      var worst := list[|list| - 1];
      if c.info.reputation > worst.reputation {
        storage.RemovePeer(worst.nodeId);
      } else {
        return;
      }
    }
    storage.AddPeer(c.info);
  }

  function OfferAll(peers: PeerMap, own: NodeId, cs: seq<Candidate>, cap: nat): PeerMap
    requires PeersKeyed(peers)
    decreases |cs|
  {
    if cs == [] then peers else
      OfferKeepsKeyed(peers, cs[0], cap);
      OfferAll(if cs[0].info.nodeId == own then peers else Offer(peers, cs[0], cap), own, cs[1..], cap)
  }

  lemma {:induction false} NewcomersWereOffered(peers: PeerMap, own: NodeId, cs: seq<Candidate>, cap: nat)
    requires PeersKeyed(peers)
    ensures forall id :: id in OfferAll(peers, own, cs, cap) && id !in peers ==>
              id != own && exists i :: 0 <= i < |cs| && cs[i].info.nodeId == id && cs[i].verify != Mismatch
    decreases |cs|
  {
    if cs != [] {
      OfferKeepsKeyed(peers, cs[0], cap);
      var next := if cs[0].info.nodeId == own then peers else Offer(peers, cs[0], cap);
      OfferAddsOnly(peers, cs[0], cap);
      hide Offer, PeersKeyed;
      NewcomersWereOffered(next, own, cs[1..], cap);
      forall id | id in OfferAll(next, own, cs[1..], cap) && id !in peers
        ensures id != own && exists i :: 0 <= i < |cs| && cs[i].info.nodeId == id && cs[i].verify != Mismatch
      {
        if id in next {
          assert cs[0].info.nodeId == id;
        } else {
          var i :| 0 <= i < |cs[1..]| && cs[1..][i].info.nodeId == id && cs[1..][i].verify != Mismatch;
          assert cs[i + 1] == cs[1..][i];
        }
      }
    }
  }

  lemma OfferAddsOnly(peers: PeerMap, c: Candidate, cap: nat)
    requires PeersKeyed(peers)
    ensures forall id :: id in Offer(peers, c, cap) && id !in peers ==> id == c.info.nodeId && c.verify != Mismatch
  {
  }

  /** Working through a pulled list. This node itself and candidates that turn out to be somebody else are
      never added. */
  method PullPeerList(storage: MemoryStorage, own: NodeId, cs: seq<Candidate>, cap: nat)
    requires storage.Valid()
    modifies storage`peers
    ensures storage.Valid()
    ensures storage.peers == OfferAll(old(storage.peers), own, cs, cap)
    ensures forall id :: id in storage.peers && id !in old(storage.peers) ==>
              id != own && exists i :: 0 <= i < |cs| && cs[i].info.nodeId == id && cs[i].verify != Mismatch
  {
    NewcomersWereOffered(storage.peers, own, cs, cap);
    for i := 0 to |cs|
      invariant storage.Valid()
      invariant OfferAll(old(storage.peers), own, cs, cap) == OfferAll(storage.peers, own, cs[i..], cap)
    {
      assert cs[i..][1..] == cs[i + 1..];
      if cs[i].info.nodeId != own {
        TryAddPeer(storage, cs[i], cap);
      }
    }
  }

  // ---------------------------------------------------------------------------
  // Streaming top-k
  // ---------------------------------------------------------------------------

  ghost predicate SubTable(part: PeerMap, all: PeerMap) {
    forall id :: id in part ==> id in all && part[id] == all[id]
  }

  /** `kept` is a best choice of at most `cap` peers out of `all`, records unchanged. */
  ghost predicate BestOf(all: PeerMap, kept: PeerMap, cap: nat) {
    && SubTable(kept, all)
    && |kept| == (if |all| < cap then |all| else cap)
    && NoneBetterOutside(all, kept)
  }

  lemma SizeOfUpsert(peers: PeerMap, p: PeerInfo)
    ensures |Upsert(peers, p)| == |peers| + if p.nodeId in peers then 0 else 1
    ensures Upsert(peers, p).Keys == peers.Keys + {p.nodeId}
  {
  }

  lemma FullSubTable(part: PeerMap, all: PeerMap)
    requires SubTable(part, all) && |part| == |all|
    ensures part == all
  {
    assert part.Keys <= all.Keys && |part.Keys| == |all.Keys|;
    SameSizeSubset(part.Keys, all.Keys);
  }

  lemma {:induction false} SameSizeSubset(a: set<NodeId>, b: set<NodeId>)
    requires a <= b && |a| == |b|
    ensures a == b
  {
    if a != {} {
      var x :| x in a;
      SameSizeSubset(a - {x}, b - {x});
    }
  }

  ghost predicate NoneBetterOutside(all: PeerMap, kept: PeerMap) {
    forall d, k :: d in all && d !in kept && k in kept ==> all[d].reputation <= kept[k].reputation
  }

  lemma ReplacingWorst(all: PeerMap, kept: PeerMap, worst: NodeId, p: PeerInfo)
    requires SubTable(kept, all) && NoneBetterOutside(all, kept) && IsWorst(kept, worst)
    requires p.nodeId !in all && p.reputation > kept[worst].reputation
    ensures SubTable(Upsert(kept - {worst}, p), all[p.nodeId := p])
    ensures NoneBetterOutside(all[p.nodeId := p], Upsert(kept - {worst}, p))
  {
  }

  lemma DroppingNewcomer(all: PeerMap, kept: PeerMap, worst: NodeId, p: PeerInfo)
    requires SubTable(kept, all) && NoneBetterOutside(all, kept) && IsWorst(kept, worst)
    requires p.nodeId !in all && p.reputation <= kept[worst].reputation
    ensures SubTable(kept, all[p.nodeId := p])
    ensures NoneBetterOutside(all[p.nodeId := p], kept)
  {
  }

  /** One new candidate that is not a mismatch keeps the table a best choice of all seen so far. */
  lemma OfferKeepsBest(all: PeerMap, kept: PeerMap, c: Candidate, cap: nat)
    requires PeersKeyed(kept) && BestOf(all, kept, cap) && cap >= 1
    requires c.info.nodeId !in all && c.verify != Mismatch
    ensures BestOf(all[c.info.nodeId := c.info], Offer(kept, c, cap), cap)
  {
    SizeOfUpsert(all, c.info);
    assert all[c.info.nodeId := c.info] == Upsert(all, c.info);
    if |kept| < cap {
      FullSubTable(kept, all);
    } else {
      var worst := Worst(kept);
      if c.info.reputation > kept[worst].reputation {
        RemovalShrinks(kept, worst);
        SizeOfUpsert(kept - {worst}, c.info);
        ReplacingWorst(all, kept, worst, c.info);
      } else {
        DroppingNewcomer(all, kept, worst, c.info);
      }
    }
  }

  function Merge(all: PeerMap, cs: seq<Candidate>): PeerMap
    decreases |cs|
  {
    if cs == [] then all else Merge(all[cs[0].info.nodeId := cs[0].info], cs[1..])
  }

  /** The candidates are distinct, not yet known, not this node, and none fails verification. */
  ghost predicate AllNew(all: PeerMap, own: NodeId, cs: seq<Candidate>) {
    && (forall i :: 0 <= i < |cs| ==> cs[i].info.nodeId !in all && cs[i].info.nodeId != own && cs[i].verify != Mismatch)
    && (forall i, j :: 0 <= i < j < |cs| ==> cs[i].info.nodeId != cs[j].info.nodeId)
  }

  /** Offering any sequence of new candidates is a streaming top-k: the table holds min(cap, seen) of the
      peers seen, and no discarded peer has a higher reputation than a kept one. */
  lemma {:induction false} OfferingIsTopK(all: PeerMap, kept: PeerMap, own: NodeId, cs: seq<Candidate>, cap: nat)
    requires PeersKeyed(kept) && BestOf(all, kept, cap) && cap >= 1 && AllNew(all, own, cs)
    ensures BestOf(Merge(all, cs), OfferAll(kept, own, cs, cap), cap)
    ensures |Merge(all, cs)| == |all| + |cs|
    decreases |cs|
  {
    if cs != [] {
      OfferKeepsBest(all, kept, cs[0], cap);
      OfferKeepsKeyed(kept, cs[0], cap);
      SizeOfUpsert(all, cs[0].info);
      assert all[cs[0].info.nodeId := cs[0].info] == Upsert(all, cs[0].info);
      OfferingIsTopK(all[cs[0].info.nodeId := cs[0].info], Offer(kept, cs[0], cap), own, cs[1..], cap);
    }
  }

  /** From any table within its cap: after every prefix of the candidates the table holds min(cap, seen)
      of the peers seen, none of them worse than a discarded one, and never more than the cap. */
  lemma DiscoveryIsTopK(peers: PeerMap, own: NodeId, cs: seq<Candidate>, cap: nat, i: nat)
    requires PeersKeyed(peers) && 1 <= cap && |peers| <= cap
    requires AllNew(peers, own, cs) && i <= |cs|
    ensures var kept := OfferAll(peers, own, cs[..i], cap);
            && BestOf(Merge(peers, cs[..i]), kept, cap)
            && |kept| == if |peers| + i < cap then |peers| + i else cap
  {
    OfferingIsTopK(peers, peers, own, cs[..i], cap);
  }

  /** In a full table an incumbent is displaced only by a strictly better newcomer; a tie changes nothing. */
  lemma IncumbentsWinTies(peers: PeerMap, c: Candidate, cap: nat)
    requires PeersKeyed(peers) && |peers| >= cap && peers != map[]
    requires c.info.nodeId !in peers && c.verify != Mismatch
    ensures Offer(peers, c, cap) == peers <==> forall id :: id in peers ==> c.info.reputation <= peers[id].reputation
  {
  }

  /** Within the cap the table stays within the cap, except that a cap of 0 is not honoured. */
  lemma CapKeptIff(peers: PeerMap, c: Candidate, cap: nat)
    requires PeersKeyed(peers) && |peers| <= cap
    ensures |Offer(peers, c, cap)| <= cap <==> cap >= 1 || c.verify == Mismatch
  {
  }

  lemma CapOfZeroAddsPeer(c: Candidate)
    requires c.verify != Mismatch
    ensures Offer(map[], c, 0) == map[c.info.nodeId := c.info]
  {
  }

  // ---------------------------------------------------------------------------
  // Ties at eviction
  // ---------------------------------------------------------------------------

  ghost predicate Lowest(peers: PeerMap, id: NodeId) {
    id in peers && forall x :: x in peers ==> peers[id].reputation <= peers[x].reputation
  }

  /** Last contacted earlier; a peer never contacted counts as earliest. */
  predicate SeenBefore(p: PeerInfo, q: PeerInfo) {
    q.lastSeen.Some? && (p.lastSeen.None? || p.lastSeen.value < q.lastSeen.value)
  }

  /** Of lowest reputation, and among those not seen later than any other. */
  ghost predicate Stalest(peers: PeerMap, id: NodeId) {
    Lowest(peers, id) && forall x: NodeId :: Lowest(peers, x) ==> !SeenBefore(peers[x], peers[id])
  }

  /** A better newcomer to a full table displaces one peer. It is a stalest peer of lowest reputation, as
      documented, if and only if the lowest-reputed peer with the highest node id is one. */
  lemma EvictsStalestIff(peers: PeerMap, c: Candidate, cap: nat)
    requires PeersKeyed(peers) && peers != map[] && |peers| >= cap
    requires c.verify != Mismatch && c.info.nodeId !in peers
    requires exists id :: id in peers && peers[id].reputation < c.info.reputation
    ensures exists out: NodeId ::
              && peers.Keys - Offer(peers, c, cap).Keys == {out}
              && (Stalest(peers, out) <==>
                   exists id: NodeId :: Stalest(peers, id) && forall x: NodeId :: Lowest(peers, x) ==> x <= id)
  {
    var out := Worst(peers);
    WorstIsHighestLowest(peers);
    assert c.info.reputation > peers[out].reputation;
    assert Offer(peers, c, cap) == Upsert(peers - {out}, c.info);
    assert peers.Keys - Offer(peers, c, cap).Keys == {out};
    if id: NodeId :| Stalest(peers, id) && forall x: NodeId :: Lowest(peers, x) ==> x <= id {
      assert out <= id && id <= out;
    }
  }

  lemma WorstIsHighestLowest(peers: PeerMap)
    requires PeersKeyed(peers) && peers != map[]
    ensures Lowest(peers, Worst(peers)) && forall x: NodeId :: Lowest(peers, x) ==> x <= Worst(peers)
  {
  }

  /** Two peers are tied, and the one contacted last has to go. */
  lemma FreshPeerIsEvicted(peers: PeerMap, c: Candidate)
    requires peers == map[1 := PeerInfo(1, "", 0.5, Some(0)), 2 := PeerInfo(2, "", 0.5, Some(9))]
    requires c == Candidate(PeerInfo(3, "", 0.9, None), Verified)
    ensures Stalest(peers, 1) && !Stalest(peers, 2)
    ensures Offer(peers, c, 2).Keys == {1, 3}
  {
    assert 1 in peers && 2 in peers && peers != map[] && peers.Keys == {1, 2} && |peers| == 2;
    WorstIsHighestLowest(peers);
    assert Lowest(peers, 1) && Lowest(peers, 2);
    assert Worst(peers) == 2;
  }

  // ---------------------------------------------------------------------------
  // Candidates that are already known
  // ---------------------------------------------------------------------------

  /** The table shrinks exactly when it is full and a peer already in it, other than the worst, is
      announced with a reputation above the worst peer's: the worst is evicted and the upsert adds
      nobody. */
  lemma TableShrinksIff(peers: PeerMap, c: Candidate, cap: nat)
    requires PeersKeyed(peers)
    ensures |Offer(peers, c, cap)| < |peers| <==>
              && c.verify != Mismatch && peers != map[] && |peers| >= cap
              && c.info.nodeId in peers && c.info.nodeId != Worst(peers)
              && c.info.reputation > peers[Worst(peers)].reputation
  {
  }

  /** A known peer keeps its reputation, as the upsert promises, except exactly when it is itself the
      worst of a full table and announces more: then it is evicted and comes back with the announced value. */
  lemma ReputationReplacedIff(peers: PeerMap, c: Candidate, cap: nat)
    requires PeersKeyed(peers) && c.info.nodeId in peers
    ensures c.info.nodeId in Offer(peers, c, cap)
    ensures Offer(peers, c, cap)[c.info.nodeId].reputation != peers[c.info.nodeId].reputation <==>
              && c.verify != Mismatch && |peers| >= cap
              && c.info.nodeId == Worst(peers)
              && c.info.reputation > peers[c.info.nodeId].reputation
  {
  }

  /** A pulled list that repeats a member of a full table costs a place: the other member goes. */
  lemma TableCanShrink(peers: PeerMap, c: Candidate)
    requires peers == map[1 := PeerInfo(1, "", 0.9, None), 2 := PeerInfo(2, "", 0.5, None)]
    requires c == Candidate(PeerInfo(1, "", 0.9, None), Verified)
    ensures |peers| == 2 && Offer(peers, c, 2).Keys == {1}
  {
    assert 1 in peers && 2 in peers && peers != map[] && peers.Keys == {1, 2} && |peers| == 2;
    WorstIsHighestLowest(peers);
    assert Worst(peers) == 2 by { assert Lowest(peers, 2) && !Lowest(peers, 1); }
  }

  /** The only peer of a full table takes on the reputation it announces for itself. */
  lemma ReputationCanBeReplaced(peers: PeerMap, c: Candidate)
    requires peers == map[1 := PeerInfo(1, "", 0.2, None)]
    requires c == Candidate(PeerInfo(1, "", 0.9, None), Verified)
    ensures Offer(peers, c, 1) == map[1 := c.info]
  {
  }
}
