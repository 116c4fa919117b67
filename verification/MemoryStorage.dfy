/** The in-memory back end: maps updated in place, one method per storage operation. */
module MemoryStorage {
  import opened Units
  import opened Listing

  datatype StorageError = NotFound | Conflict | Internal

  datatype PeerInfo = PeerInfo(nodeId: NodeId, apiBase: string, reputation: real, lastSeen: Option<nat>)

  type PeerMap = map<NodeId, PeerInfo>

  /** The point of [0, 1] nearest to `x`. */
  function Clamp(x: real): (r: real)
    ensures 0.0 <= r <= 1.0
    ensures 0.0 <= x <= 1.0 ==> r == x
    ensures x < 0.0 ==> r == 0.0
    ensures x > 1.0 ==> r == 1.0
  {
    if x < 0.0 then 0.0 else if x > 1.0 then 1.0 else x
  }

  /** A share of something is no more than it. */
  lemma ShareAtMost(s: real, share: real)
    requires 0.0 <= s && 0.0 <= share <= 1.0
    ensures 0.0 <= s * share <= s
  {
  }

  /** Every peer is stored under its own node id. */
  ghost predicate PeersKeyed(peers: PeerMap) {
    forall id :: id in peers ==> peers[id].nodeId == id
  }

  // ---------------------------------------------------------------------------
  // The order of list_peers
  // ---------------------------------------------------------------------------

  /** Higher reputation first, then lower node id. */
  predicate Outranks(p: PeerInfo, q: PeerInfo) {
    p.reputation > q.reputation || (p.reputation == q.reputation && p.nodeId < q.nodeId)
  }

  predicate IsTop(peers: PeerMap, id: NodeId) {
    id in peers && forall x :: x in peers && x != id ==> Outranks(peers[id], peers[x])
  }

  lemma {:induction false} TopWitness(peers: PeerMap) returns (top: NodeId)
    requires PeersKeyed(peers) && peers != map[]
    ensures IsTop(peers, top)
    decreases |peers|
  {
    top :| top in peers;
    var rest := peers - {top};
    if rest != map[] {
      assert |rest.Keys| == |peers.Keys| - 1 by { assert rest.Keys == peers.Keys - {top}; }
      var r := TopWitness(rest);
      forall x | x in peers && x != top && x != r ensures Outranks(peers[r], peers[x]) {
        assert x in rest;
      }
      if Outranks(peers[r], peers[top]) {
        top := r;
      }
    } else {
      assert peers.Keys == {top} by { assert rest.Keys == {}; }
    }
  }

  lemma HasTop(peers: PeerMap)
    requires PeersKeyed(peers) && peers != map[]
    ensures exists top :: IsTop(peers, top)
  {
    var top := TopWitness(peers);
  }

  function Top(peers: PeerMap): (top: NodeId)
    requires PeersKeyed(peers) && peers != map[]
    ensures IsTop(peers, top)
  {
    HasTop(peers);
    var top :| IsTop(peers, top);
    top
  }

  function RankedPeers(peers: PeerMap): seq<PeerInfo>
    requires PeersKeyed(peers)
    decreases |peers|
  {
    if peers == map[] then [] else
      var top := Top(peers);
      RemovalShrinks(peers, top);
      [peers[top]] + RankedPeers(peers - {top})
  }

  lemma RemovalShrinks(peers: PeerMap, id: NodeId)
    requires id in peers
    ensures |peers - {id}| == |peers| - 1
    ensures (peers - {id}).Keys == peers.Keys - {id}
  {
  }

  ghost predicate Ordered(list: seq<PeerInfo>) {
    forall i, j :: 0 <= i < j < |list| ==> Outranks(list[i], list[j])
  }

  /** `list` is every peer of the table once, each one outranking the next ones. */
  ghost predicate IsRanking(peers: PeerMap, list: seq<PeerInfo>) {
    && |list| == |peers|
    && (forall i :: 0 <= i < |list| ==> list[i].nodeId in peers && peers[list[i].nodeId] == list[i])
    && (forall id :: id in peers ==> peers[id] in list)
    && Ordered(list)
  }

  lemma {:induction false} RankedPeersIsRanking(peers: PeerMap)
    requires PeersKeyed(peers)
    ensures IsRanking(peers, RankedPeers(peers))
    decreases |peers|
  {
    if peers != map[] {
      var top := Top(peers);
      var rest := peers - {top};
      RemovalShrinks(peers, top);
      RankedPeersIsRanking(rest);
      ConsRanking(peers, top, RankedPeers(rest));
    } else {
      assert |peers| == 0;
    }
  }

  lemma ConsRanking(peers: PeerMap, top: NodeId, tail: seq<PeerInfo>)
    requires PeersKeyed(peers) && IsTop(peers, top)
    requires IsRanking(peers - {top}, tail) && |tail| == |peers| - 1
    ensures IsRanking(peers, [peers[top]] + tail)
  {
    ConsContains(peers, top, tail);
    ConsStored(peers, top, tail);
    forall j | 0 <= j < |tail| ensures Outranks(peers[top], tail[j]) {
      assert tail[j].nodeId in peers - {top} && peers[tail[j].nodeId] == tail[j];
    }
    ConsOrdered(peers[top], tail);
  }

  lemma ConsOrdered(first: PeerInfo, tail: seq<PeerInfo>)
    requires Ordered(tail)
    requires forall j :: 0 <= j < |tail| ==> Outranks(first, tail[j])
    ensures Ordered([first] + tail)
  {
  }

  lemma ConsStored(peers: PeerMap, top: NodeId, tail: seq<PeerInfo>)
    requires PeersKeyed(peers) && top in peers
    requires forall i :: 0 <= i < |tail| ==> tail[i].nodeId in peers - {top} && (peers - {top})[tail[i].nodeId] == tail[i]
    ensures forall i :: 0 <= i < |[peers[top]] + tail| ==>
              var p := ([peers[top]] + tail)[i]; p.nodeId in peers && peers[p.nodeId] == p
  {
  }

  lemma ConsContains(peers: PeerMap, top: NodeId, tail: seq<PeerInfo>)
    requires top in peers
    requires forall id :: id in peers - {top} ==> (peers - {top})[id] in tail
    ensures forall id :: id in peers ==> peers[id] in [peers[top]] + tail
  {
    forall id | id in peers ensures peers[id] in [peers[top]] + tail {
      if id != top {
        assert id in peers - {top};
      }
    }
  }

  function FindPeer(list: seq<PeerInfo>, id: NodeId): Option<PeerInfo> {
    if list == [] then None else if list[0].nodeId == id then Some(list[0]) else FindPeer(list[1..], id)
  }

  /** Searching the listing by id is a lookup in the table. */
  lemma {:induction false} FindPeerIsLookup(peers: PeerMap, list: seq<PeerInfo>, id: NodeId)
    requires forall i :: 0 <= i < |list| ==> list[i].nodeId in peers && peers[list[i].nodeId] == list[i]
    requires id in peers ==> peers[id] in list
    requires PeersKeyed(peers)
    ensures FindPeer(list, id) == if id in peers then Some(peers[id]) else None
  {
    if list != [] && list[0].nodeId != id {
      if id in peers {
        assert peers[id] in list[1..];
      }
      FindPeerIsLookup(peers, list[1..], id);
    }
  }

  /** A known peer takes the new address and last contact, and keeps its reputation. */
  function Upsert(peers: PeerMap, p: PeerInfo): PeerMap {
    peers[p.nodeId := if p.nodeId in peers then p.(reputation := peers[p.nodeId].reputation) else p]
  }

  class MemoryStorage {
    var units: UnitMap
    var unitCredibility: map<Id, real>
    var cursors: map<string, Id>
    var peers: PeerMap

    ghost predicate Valid()
      reads this
    {
      && Keyed(units)
      && PeersKeyed(peers)
      && unitCredibility.Keys <= units.Keys
      && forall id :: id in unitCredibility ==> 0.0 <= unitCredibility[id] <= 1.0
    }

    constructor ()
      ensures Valid() && units == map[] && unitCredibility == map[] && cursors == map[] && peers == map[]
    {
      units, unitCredibility, cursors, peers := map[], map[], map[], map[];
    }

    /** `fault` stands for an internal error of the back end before anything is written. */
    method PutUnit(u: Unit, fault: bool) returns (r: Result<(), StorageError>)
      requires Valid()
      modifies this`units
      ensures Valid()
      ensures r == if fault then Err(Internal) else if u.id in old(units) then Err(Conflict) else Ok(())
      ensures units == if r.Ok? then old(units)[u.id := u] else old(units)
    {
      if fault {
        return Err(Internal);
      }
      if u.id in units {
        return Err(Conflict);
      }
      units := units[u.id := u];
      r := Ok(());
    }

    method SetUnitCredibility(id: Id, credibility: real, fault: bool) returns (r: Result<(), StorageError>)
      requires Valid()
      modifies this`unitCredibility
      ensures Valid()
      ensures r == if fault then Err(Internal) else if id !in units then Err(NotFound) else Ok(())
      ensures unitCredibility
           == if r.Ok? then old(unitCredibility)[id := Clamp(credibility)] else old(unitCredibility)
    {
      if fault {
        return Err(Internal);
      }
      if id !in units {
        return Err(NotFound);
      }
      unitCredibility := unitCredibility[id := Clamp(credibility)];
      r := Ok(());
    }

    method SetCursor(peerUrl: string, cursor: Id, fault: bool) returns (r: Result<(), StorageError>)
      requires Valid()
      modifies this`cursors
      ensures Valid()
      ensures r == if fault then Err(Internal) else Ok(())
      ensures cursors == if fault then old(cursors) else old(cursors)[peerUrl := cursor]
    {
      if fault {
        return Err(Internal);
      }
      cursors := cursors[peerUrl := cursor];
      r := Ok(());
    }

    function GetCursor(peerUrl: string): Option<Id>
      reads this
    {
      if peerUrl in cursors then Some(cursors[peerUrl]) else None
    }

    /** An upsert that never overwrites the reputation of a peer already known. */
    method AddPeer(p: PeerInfo)
      requires Valid()
      modifies this`peers
      ensures Valid()
      ensures peers == Upsert(old(peers), p)
    {
      if p.nodeId in peers {
        peers := peers[p.nodeId := peers[p.nodeId].(apiBase := p.apiBase, lastSeen := p.lastSeen)];
      } else {
        peers := peers[p.nodeId := p];
      }
    }

    method RemovePeer(id: NodeId)
      requires Valid()
      modifies this`peers
      ensures Valid()
      ensures peers == old(peers) - {id}
    {
      peers := peers - {id};
    }

    method UpdatePeerReputation(id: NodeId, reputation: real) returns (r: Result<(), StorageError>)
      requires Valid()
      modifies this`peers
      ensures Valid()
      ensures r == if id in old(peers) then Ok(()) else Err(NotFound)
      ensures peers == if r.Ok? then old(peers)[id := old(peers)[id].(reputation := Clamp(reputation))] else old(peers)
    {
      if id !in peers {
        return Err(NotFound);
      }
      peers := peers[id := peers[id].(reputation := Clamp(reputation))];
      r := Ok(());
    }
  }
}
