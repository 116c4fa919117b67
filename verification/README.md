# SemanticWeft node: verified model

SemanticWeft is a federated store of immutable units, ordered by id and linked by references. A node takes
submissions over HTTP, pulls public units from its peers, answers listings and graph queries, delivers
limited units to inboxes on other nodes, and keeps reputations for its peers. This project models the
node's stateful logic in Dafny 4.11 and proves what holds over all inputs, all runs and all interleavings of
that logic. `dafny verify dfyconfig.toml` checks everything.

| file | component |
|---|---|
| `Units.dfy`, `Listing.dfy` | units, ascending enumeration; filtered listing, keyset paging, inbox paging |
| `MemoryStorage.dfy`, `SqliteStorage.dfy` | the two storage back ends and the refinement between them |
| `Federation.dfy`, `TwoNodes.dfy`, `ManyNodes.dfy` | one pull and the drain loop; two, and any number of, nodes pulling from each other |
| `InsertOnce.dfy` | concurrent submissions and pulled insertions of the same ids |
| `EventStream.dfy`, `StreamGaps.dfy` | sync as an event stream: replay, then live; concrete runs with gaps |
| `Reachability.dfy`, `Graph.dfy`, `SubgraphHandler.dfy` | walks and balls; the reference graph; the depth-limited handler |
| `Reputation.dfy`, `ConcurrentVotes.dfy`, `VotingHandler.dfy` | the statistics of the voting gate and weighted updates; interleaved votes and nudges; the two handlers |
| `PeerDiscovery.dfy` | the capped peer table |
| `RemoteFanout.dfy`, `Address.dfy` | pushing limited units to other nodes; agent addresses |
| `Visibility.dfy` | listing, direct fetch and sync against each other |
| `RateLimit.dfy`, `HttpSignature.dfy`, `Strings.dfy`, `Render.dfy` | the rate limiter; HTTP signatures; trimming; line filling |

Objects the program updates in place are classes here (`MemoryStorage`, `SqliteStorage`, `FederationSync`,
`Graph`, `RateLimiter`, `RemoteDelivery`, `SubmitHandler`); their methods are proved equal to a function of
the old state, with the theorems about those functions, or state the new state outright, and the handlers do
both. Concurrency is modelled by step systems whose runs are arbitrary sequences of atomic steps.

How the program's data appears:

- An id is a natural number, standing for its position in the lexicographic order of ids. A unit's
  text and the other fields no modelled operation reads are one opaque `payload`.
- Reputations, credibilities and weights are reals. The standard deviation is any non-negative `s` with
  `s * s` equal to the variance. Products of variables are written with `Mul`.
- Time in the rate limiter is a natural number of nanoseconds from a monotone clock.
- What HTTP requests come to, and which storage calls fail, are parameters of the operations.
- Authentication is a parameter that yields a DID or nothing.

Where the code does not do what its comments or documents promise, a lemma gives an input that shows it and
another one says exactly when the promise is kept:

- Subgraph replies are documented to leave out non-public units, but only the root's visibility is checked:
  `SubgraphHandler.LimitedUnitIsServed`, `SubgraphHandler.ReplyIsPublicIff`.
- SQLite's `put_unit` runs several statements without a transaction, so an error after the unit is stored
  leaves the reference index incomplete for good: `SqliteStorage.IndexCanTear`,
  `SqliteStorage.IndexAgreesWithScanIff`.
- Offering a candidate that is already in a full peer table can shrink the table, or replace the reputation
  the upsert promises to keep: `PeerDiscovery.TableCanShrink`, `PeerDiscovery.TableShrinksIff`,
  `PeerDiscovery.ReputationCanBeReplaced`, `PeerDiscovery.ReputationReplacedIff`. A cap of 0 is not
  honoured: `PeerDiscovery.CapOfZeroAddsPeer`, `PeerDiscovery.CapKeptIff`.
- Ties at eviction are documented to go against the peer with the oldest `last_seen`; the code decides them
  by node id, as `docs/ROADMAP.md` notes: `PeerDiscovery.FreshPeerIsEvicted`, `PeerDiscovery.EvictsStalestIff`.
- The event stream is documented to replay everything stored and to resume without gaps, but it replays one
  page, never broadcasts what arrives by federation, does not broadcast in id order, and ignores
  `Last-Event-ID` when the request has an `after` parameter: `StreamGaps.ReplayCanStopShort`,
  `EventStream.FederatedAfterReplayIsMissed`, `StreamGaps.ResumeCanLeaveGap`, `StreamGaps.LastEventCanBeIgnored`,
  `EventStream.StreamMissesIff`, `EventStream.ResumeLeavesGapIff`.
- `Retry-After` is rounded down, so waiting that long is not always enough: `RateLimit.WaitCanBeTooShort`,
  `RateLimit.WaitSufficesIff`.
- Votes that all read and pass the gate before the first of them writes lose all but the last one written:
  `ConcurrentVotes.OverlappingVotesLoseAllButLast`, `ConcurrentVotes.VoteCanBeLost`,
  `ConcurrentVotes.VoterCanBeTurnedAway`, `ConcurrentVotes.LostVotesIff`.
- Failed deliveries are documented to be reported to the author, but a recipient whose inbox URL cannot be
  parsed gets neither a POST nor a failure notice: `RemoteFanout.RecipientCanBeDroppedSilently`,
  `RemoteFanout.HeardOfIff`.
- A drain is documented to bring the store fully up to date, but a unit that reached the peer late, with an id
  the cursor had passed, is never pulled: `Federation.DrainCanMissUnit`, `Federation.FederationSync.SyncPeer`,
  `TwoNodes.SmallIdsArePassedBy`, `TwoNodes.DrainedNodesAgreeIff`. With three nodes this happens to relayed
  units however timely the submissions are: `ManyNodes.RelayedUnitCanBeMissed`.
- Listing and direct fetch are to agree, but pulled units are stored without a check of their id, and direct
  fetch refuses ids that are not UUIDs: `Visibility.ListedUnitCanBeUnfetchable`,
  `Visibility.ListingAgreesWithFetch`.

## Model

| member | source | states |
|---|---|---|
| `Units.AscendingIsUnique` | packages/node/src/storage/memory.rs:100-119 | A set of ids has exactly one strictly ascending enumeration, the order in which the unit table is walked. |
| `Listing.ListUnitsIsPage` | packages/node/src/storage/memory.rs:100-163 | A page is exactly the lowest matching ids past the cursor, in ascending order, full whenever more is promised, and more is promised if and only if something is left. |
| `Listing.PageIsUnique` | packages/node/src/storage/memory.rs:100-163 | Only one page meets that description, so any back end that meets it serves the same page. |
| `Listing.CursorSplitsMatches` | packages/node-api/src/unit.rs:116-125 | The cursor is the highest id of the page, and asking again from it matches exactly what the page left off. |
| `Listing.PagingIsLossless` | packages/node/src/storage/memory.rs:100-163 | Following cursors to the end while units are inserted between the requests returns everything that matched at the start, nothing twice, in strictly ascending order, and only matching stored units. |
| `Listing.QuiescentPagingIsExact` | packages/node/src/storage/memory.rs:100-163 | Over an unchanged store the pages together are exactly the matching units, whatever the page size. |
| `Listing.EffectiveLimit` | packages/node-api/src/unit.rs:60-67 | The page size is the one asked for within 1..500, the nearer end outside, and 50 if none is asked for. |
| `Listing.ZeroLimitNeverAdvances` | packages/node-api/src/unit.rs:65-67 | Why the limit is clamped: with limit zero a listing promises more without ever carrying a cursor. |
| `Listing.InboxIsUnfilteredListing` | packages/node/src/storage/memory.rs:431-466 | An inbox page is the listing of the agent's box without a filter; it names a cursor, the listing's, exactly when there is more. |
| `Listing.InboxIsLossless` | packages/node/src/handlers/agents.rs:98-131 | Following an inbox to its end while deliveries go on returns everything that was in it past the cursor, nothing twice, in strictly ascending order, and only what was delivered to it. |
| `MemoryStorage.RankedPeersIsRanking` | packages/node/src/storage/memory.rs:354-365 | The peer listing is every peer once, by descending reputation and then ascending node id. |
| `MemoryStorage.FindPeerIsLookup` | packages/node/src/handlers/peers.rs:204-208 | Searching the peer listing by id finds exactly the stored record. |
| `MemoryStorage.MemoryStorage.PutUnit` | packages/node/src/storage/memory.rs:83-93 | A stored id is a conflict and nothing changes; a new id is added and nothing else changes. |
| `MemoryStorage.MemoryStorage.SetUnitCredibility` | packages/node/src/storage/memory.rs:180-193 | Only stored units get a credibility, it is clamped to [0, 1], and no other credibility changes. |
| `MemoryStorage.MemoryStorage.AddPeer` | packages/node/src/storage/memory.rs:321-331 | The upsert keeps the reputation of a peer already known. |
| `MemoryStorage.MemoryStorage.UpdatePeerReputation` | packages/node/src/storage/memory.rs:339-352 | Only a known peer's reputation changes, to the clamped value. |
| `SqliteStorage.BuildQuery` | packages/node/src/storage/sqlite.rs:310-375 | The WHERE clause that is put together piece by piece, with its positional parameters, selects exactly the rows of the units that match the filter past the cursor, and asks for one row more than the limit. |
| `SqliteStorage.SelectsAppend` | packages/node/src/storage/sqlite.rs:310-375 | Appending a clause together with its parameters narrows the selection by exactly that clause. |
| `SqliteStorage.SqliteStorage.ListUnits` | packages/node/src/storage/sqlite.rs:300-394 | SQLite returns the same page and has_more as the in-memory store, for every filter. |
| `SqliteStorage.SqliteStorage.PutUnit` | packages/node/src/storage/sqlite.rs:212-273 | Stored exactly when the id is new and no statement fails, a conflict exactly when the id is held and the first check does not fail; the unit is there from the second statement on, and the index has exactly the targets whose statements came before the failing one. |
| `SqliteStorage.PutCompleteIff` | packages/node/src/storage/sqlite.rs:212-273 | One insertion leaves the reference index complete if and only if it was complete and the call did not fail between storing the unit and indexing its targets. |
| `SqliteStorage.IndexAgreesWithScanIff` | packages/node/src/storage/sqlite.rs:258-267 | Over any run of insertions the join over the reference index never returns a wrong unit, and equals the scan for every target if and only if no call tore. |
| `SqliteStorage.IndexCanTear` | packages/node/src/storage/sqlite.rs:258-267 | A failing index insert loses the edge from the index although the unit is stored, and inserting it again any number of times does not bring it back. |
| `SqliteStorage.RefinesMemory` | packages/node/src/storage/sqlite.rs:212-273 | After any run in which no statement failed, SQLite holds what the in-memory store holds and answers reference lookups alike. |
| `Federation.SyncServesPublic` | packages/node/src/handlers/units.rs:706-775 | Whatever parameters a client sends, the sync endpoint has to offer exactly the public ones among the units they select; a pull is offered every public unit past its cursor. |
| `Federation.PullOnceKeeps` | packages/node/src/federation.rs:85-134 | Whatever fails and wherever, one pull overwrites nothing, adds only public units of the provider, writes credibilities in [0, 1] for new units only, never moves the cursor back, and keeps every public provider unit at or below the cursor held. |
| `Federation.PullOnceCounts` | packages/node/src/federation.rs:85-134 | A pull that reports more has reduced what is outstanding by a full page and left something; a last page leaves nothing. |
| `Federation.StoreUnitsKeeps` | packages/node/src/federation.rs:106-127 | Storing a page succeeds if and only if no insertion of one of its units fails; then all of them are held. |
| `Federation.FederationSync.SyncPeerOnce` | packages/node/src/federation.rs:85-134 | A pull whose page does not arrive changes nothing and says why. A page that arrives is the first 500 public units past the cursor; they are stored in order up to the first failing insertion; if none fails the cursor moves to the last of them and the result says whether there is more, unless writing the cursor fails. Every unit that came in has, unless writing it failed, the credibility sender x author: the highest reputation of a known peer at that address, 0.5 if there is none or listing fails, times the provider's reputation of the author, 0.5 if unknown; no other credibility and no other peer's cursor changes. |
| `Federation.SenderStanding` | packages/node/src/federation.rs:136-150 | The first listed peer at an address is the one with the highest reputation there, so the factor of the sender is that reputation. |
| `Federation.NoneAboveStanding` | packages/node/src/federation.rs:111-125 | With scores in [0, 1] no pulled credibility exceeds the sender's local standing. |
| `Federation.FederationSync.SyncPeer` | packages/node/src/federation.rs:152-163 | From any store and cursor the drain ends, overwrites nothing, adds only units past the cursor it started with and keeps the cover; if nothing fails, everything past that cursor is held after exactly max(1, ceil(n / 500)) requests for n outstanding units, and the store is fully up to date if and only if it had everything at or below that cursor to begin with. Every credibility it brings in is the author's reputation times the sender's standing, or times 0.5 if a listing of the peers failed meanwhile. |
| `Federation.DrainCanMissUnit` | packages/node/src/federation.rs:152-163 | With the cursor at 5 and the peer holding only unit 3, a clean pull reports that there is no more and stores nothing. |
| `Federation.LateUnitKeepsCoverIff` | packages/node/src/federation.rs:129-132 | A public unit that reaches the provider later leaves the store covered, and so a later drain complete (`Federation.FederationSync.SyncPeer`), if and only if its id is above the puller's cursor or the puller has it. |
| `Federation.NeverFetchedBelowCursor` | packages/node/src/federation.rs:88-92 | An id at or below the cursor is never fetched. |
| `TwoNodes.StepKeepsInv` | packages/node/src/federation.rs:85-134 | Serving a page, storing a unit, a failing store, moving the cursor, failing to move it, and a submission at either node all keep, both ways, that every public id at or below the other's cursor is held by the other. |
| `TwoNodes.RunKeepsInv` | packages/node/src/federation.rs:85-163 | So does every run from two empty nodes, and no unit is ever changed or dropped. |
| `TwoNodes.DrainedNodesAgree` | packages/node/src/federation.rs:156-163 | In any interleaving without submissions in which each node completes one drain of the other, both end with the same public units. |
| `TwoNodes.TwoDrainsConverge` | packages/node/src/federation.rs:156-163 | Such a run exists from every reachable state with no pull in progress, so convergence is never blocked. |
| `TwoNodes.LateUnitNeverArrives` | packages/node/src/federation.rs:85-134 | In every run, with no condition on the ids submitted, an id at or below a node's cursor that the node does not hold is never pulled by it. |
| `TwoNodes.LateUnitPreventsAgreement` | packages/node/src/federation.rs:129-132 | From any state reached from two empty nodes: a public unit submitted at or below the other node's cursor keeps the two nodes apart until it is submitted to the other as well. |
| `TwoNodes.DrainedNodesAgreeIff` | packages/node/src/federation.rs:85-163 | From any state reached from two empty nodes with no condition on the ids submitted, both idle and agreeing on shared ids: after any interleaving without submissions in which each drains the other, they hold the same public units if and only if neither had passed by a public unit of the other. |
| `TwoNodes.SmallIdsArePassedBy` | packages/node/src/federation.rs:129-132 | Such states exist: after one pulled unit every smaller id has been passed by. |
| `ManyNodes.StepKeepsInv` | packages/node/src/federation.rs:85-134 | With any number of nodes, every step of every node keeps for each ordered pair that whatever was submitted at the one and passed by the other's cursor is held by the other. |
| `ManyNodes.RunKeepsInv` | packages/node/src/federation.rs:85-163 | So does every run. |
| `ManyNodes.DrainedNodesAgree` | packages/node/src/federation.rs:174-195 | In any interleaving without submissions in which every node completes one drain of every other, all nodes end with the same public units, exactly those ever submitted to any of them. |
| `ManyNodes.RelayedUnitCanBeMissed` | packages/node/src/federation.rs:129-132 | Pulling from one relaying node is not enough: in a run with timely submissions only, a unit relayed late is passed by and never served. |
| `ManyNodes.FreshIsInv` | packages/node/src/federation.rs:85-163 | Empty nodes are such a state. |
| `InsertOnce.StepKeepsInv` | packages/node/src/handlers/units.rs:130-205 | Every storage call of every concurrent submission or pulled insertion keeps the invariant: one winner per id, effects at most once, replies true, checks passed. |
| `InsertOnce.StoredOnce` | packages/node/src/handlers/units.rs:153-183 | Over every interleaving: a new id is stored exactly when one request, and no second one, inserted it; the stored unit is that request's; each credibility is one that was written, exactly once, and lies in [0, 1]; nothing is fanned out or broadcast twice. |
| `InsertOnce.RunOverwritesNothing` | packages/node/src/federation.rs:106-127 | No interleaving ever changes a stored unit or a credibility. |
| `InsertOnce.FanOutsAreTheCreated` | packages/node/src/handlers/units.rs:185-204 | Fan-out starts for exactly the submissions answered 201, at most one per id; exactly the public ones among them are broadcast. |
| `InsertOnce.RepliesStayTrue` | packages/node/src/handlers/units.rs:153-176 | After 201 or 200 the node holds exactly the submitted unit for good; after 409 it holds a different one for good. |
| `InsertOnce.ResubmissionChangesNothing` | packages/node/src/handlers/units.rs:153-176 | Once an id is stored, no later step of any other request for that id touches the store, the credibilities or the deliveries; the reply is 200 or 409 according to the stored unit. |
| `InsertOnce.SubmittedUnitsWereChecked` | packages/node/src/handlers/units.rs:135-151 | Over every interleaving, a unit that entered by submission is valid, its proof holds, and it is public or was submitted by its author. |
| `InsertOnce.BadSubmissionsAreRefused` | packages/node/src/handlers/units.rs:135-151 | Over every interleaving, a submission failing one of these is at most refused, with 422, 400, 401 or 403 by its first failing check, and none of its steps touches anything but the request itself. |
| `InsertOnce.PulledCredibility` | packages/node/src/federation.rs:111-125 | Over every interleaving, the credibility of a unit a pull put into the store is the peer's reputation times the author's as the peer reports it, 0.5 if it does not, and so at most the peer's. |
| `InsertOnce.PulledOutcomes` | packages/node/src/federation.rs:106-110 | A pulled insertion ends inserted, skipped or failed, and is never compared with what is stored. |
| `InsertOnce.SubmitHandler.Submit` | packages/node/src/handlers/units.rs:130-205 | Each status exactly when: 422 invalid, 400 no proof, 401 and 403 a non-public unit not from its author, 201 new, 200 the same unit held, 409 another one held, 500 a failing storage call; only a 201 stores, credits, broadcasts (if public) and fans out; and the handler alone is the corresponding run of the step system. |
| `EventStream.StepKeepsInv` | packages/node/src/handlers/units.rs:726-755 | Every step of submitting (put, then send), federated insertion and connecting (subscribe, then list) keeps the stream without a gap. |
| `EventStream.StreamHasNoGap` | packages/node/src/handlers/units.rs:706-775 | In every interleaving, with nothing left to broadcast, a wanted submission is missed if and only if it was broadcast before the subscription and, at the replay, at least a whole page of matching units came before it; neither part of the stream repeats anything. |
| `EventStream.StreamMissesIff` | packages/node/src/handlers/units.rs:726-755 | Over every run of a connection, a stored unit of the requested kind is missed if and only if it was submitted, broadcast before the subscription and out of reach of the replayed page, or came by federation and was stored after the replay or out of its reach. |
| `EventStream.StreamIsPublic` | packages/node/src/handlers/units.rs:726-755 | Nothing else comes through: in every interleaving each event is a stored public unit, unchanged; replayed ones are of the requested kind and past the cursor, live ones were submitted. |
| `EventStream.OnPageIff` | packages/node/src/handlers/units.rs:731-734 | A matching unit is on the page if and only if fewer matching units than the limit come before it. |
| `StreamGaps.ReplayCanStopShort` | packages/node/src/handlers/units.rs:731-734 | A submitted unit, broadcast before the client connects, can be in neither part of the stream. |
| `EventStream.ResumeLeavesGapIff` | packages/node/src/handlers/units.rs:706-734 | Over any two connections, the second repeating the request and naming the last event received, which counts only without an `after` parameter: a unit not received before is missed exactly when it was submitted and broadcast before the second subscription and is out of reach of the second replay, or was federated and not stored by then or out of its reach. |
| `EventStream.ReconnectMissesIff` | packages/node/src/handlers/units.rs:706-734 | The same for a second connection from any cursor, such as a client that rewrites `after`. |
| `StreamGaps.LastEventCanBeIgnored` | packages/node/src/handlers/units.rs:711-716 | With an `after` parameter and page size one, a client that received units 1 and 2 misses unit 3, which a connection from the last event would have carried. |
| `StreamGaps.ResumeCanLeaveGap` | packages/node/src/handlers/units.rs:695-700 | Resuming from the last id can lose a submitted unit for good, because broadcasts need not come in id order. |
| `EventStream.FederatedAfterReplayIsMissed` | packages/node/src/federation.rs:106-110 | The failing case for federated units at every later moment: one stored after the replay is in neither part, whatever happens next (`EventStream.StreamMissesIff` has the exact condition). |
| `Reachability.BallIsWalks` | packages/node/src/handlers/units.rs:805-845 | An id is within n hops if and only if a walk of at most n steps leads to it. |
| `Reachability.ReachesByWalk` | packages/core/src/graph.rs:160-184 | Being in some ball is the same as being connected by a walk. |
| `Reachability.Expand` | packages/core/src/graph.rs:171-181 | Appending the unvisited neighbours of the next id keeps the visiting order distinct, closed behind the front and layered by hop distance. |
| `Reachability.ExploredAll` | packages/core/src/graph.rs:160-184 | An emptied queue means everything reachable, and nothing else, was visited. |
| `Graph.Graph.Add` | packages/core/src/graph.rs:54-56 | Adding a unit replaces one with the same id and changes no other. |
| `Graph.Graph.FromUnits` | packages/core/src/graph.rs:45-51 | The graph holds exactly the given ids, each with one of the given units. |
| `Graph.Graph.Bfs` | packages/core/src/graph.rs:160-184 | On every graph, with cycles and repeated or dangling references, the search ends and returns exactly the stored units reachable in the direction, the start left out, each once, in non-decreasing hop distance. |
| `Graph.Graph.Ancestors` | packages/core/src/graph.rs:123-125 | All units reachable along references, and no others. |
| `Graph.Graph.Descendants` | packages/core/src/graph.rs:130-132 | All units from which the id is reachable along references, and no others. |
| `Graph.Graph.Subgraph` | packages/core/src/graph.rs:139-158 | The result is the root with its ancestors and descendants, each unit unchanged. |
| `Graph.AncestorsAndDescendantsAreConverse` | packages/core/src/graph.rs:123-132 | For present units one is an ancestor of the other if and only if the other is its descendant. |
| `Graph.SubgraphKeepsReach` | packages/core/src/graph.rs:139-158 | The subgraph gives its root the same ancestors and descendants as the whole graph. |
| `Graph.SubgraphIsIdempotent` | packages/core/src/graph.rs:139-158 | Taking the subgraph again changes nothing. |
| `SubgraphHandler.LoadAround` | packages/node/src/handlers/units.rs:805-845 | The two-directional traversal loads exactly the stored units within the depth in undirected hops. |
| `SubgraphHandler.HandleSubgraph` | packages/node/src/handlers/units.rs:788-852 | The handler answers exactly for stored public roots. At a depth asked for up to 50, at 50 beyond that and at 10 if none is asked for, the reply holds stored units only, none further than that many hops in whatever direction each hop goes, and every ancestor and descendant within that many hops; all of it is public exactly when no non-public unit is at the end of a walk inside the loaded ball. |
| `SubgraphHandler.ReplyIsPublicIff` | packages/node/src/handlers/units.rs:782-787 | At every depth the reply leaves out non-public units if and only if no stored one is at the end of a walk from the root, all along or all against references, inside the loaded ball. |
| `SubgraphHandler.LimitedUnitIsServed` | packages/node/src/handlers/units.rs:800-803 | A public unit that refers to a limited one: the subgraph of the first holds the second, unchanged, whoever asks. |
| `SubgraphHandler.ReplyIsWalksInsideBall` | packages/node/src/handlers/units.rs:847-851 | The reply is exactly the units on a walk from the root all along, or all against, references inside the loaded ball. |
| `SubgraphHandler.ReplyHasNearRelatives` | packages/node/src/handlers/units.rs:805-851 | No ancestor or descendant within the depth is missing. |
| `SubgraphHandler.ReplyWithinFullSubgraph` | packages/node/src/handlers/units.rs:805-851 | The reply holds nothing outside the full-store subgraph and equals it once the root's component is exhausted. |
| `Reputation.VarianceIsMeanSquaredDeviation` | packages/node/src/storage/memory.rs:367-384 | The variance formula equals the mean squared deviation, so it is never negative and clamping it at 0 does nothing. |
| `Reputation.VarianceAtMostQuarter` | packages/node/src/storage/memory.rs:367-384 | Reputations in [0, 1] have variance at most 1/4. |
| `Reputation.BestCanVote` | packages/node/src/handlers/peers.rs:217-225 | The best-reputed member passes the gate for every non-negative sigma factor. |
| `Reputation.FewFallBelow` | packages/node/src/handlers/peers.rs:217-225 | At most n / (1 + sigma^2) of n members fall below the threshold (one-sided Chebyshev bound). |
| `VotingHandler.UpdateReputation` | packages/node/src/handlers/peers.rs:173-259 | Which vote is answered how: accepted exactly when the proposal lies in [0, 1], the target is another node, the caller is named, is a peer and has at least mean - sigma x stddev floored at 0, and the target is a peer, each failure with its own answer; a best-reputed caller is never turned away; a rejected vote changes nothing, an accepted one moves only the target, to (1 - weight) of its distance from the proposal; and the handler alone is one vote of `ConcurrentVotes` run with nothing in between. |
| `VotingHandler.FewAreTurnedAway` | packages/node/src/handlers/peers.rs:217-225 | Of n peers at most n / (1 + sigma^2) are below the bar of the handler. |
| `VotingHandler.SameBar` | packages/node/src/storage/memory.rs:367-384 | The threshold does not depend on the order the peers are listed in, so the gate of the step system is the gate of the handler. |
| `VotingHandler.VoteAlone` | packages/node/src/handlers/peers.rs:173-259 | The steps of one vote in a row, whatever the vote, change the scores exactly as the handler's checks and blend say. |
| `VotingHandler.NudgePeerReputation` | packages/node/src/handlers/peers.rs:126-137 | The nudge shifts a known peer's reputation, stopping at 0 and 1, and creates no peer; it too is a request of `ConcurrentVotes` run with nothing in between. |
| `Reputation.VoteContracts` | packages/node/src/handlers/peers.rs:233-240 | One vote multiplies the distance to the proposal by 1 - weight, and the clamp is inert. |
| `Reputation.VotesContract` | packages/node/src/handlers/agents.rs:350-358 | After n votes for p the distance to p is the original one times the product of all 1 - w. |
| `Reputation.VoteOrderIsIrrelevant` | packages/node/src/handlers/agents.rs:350-358 | The order of the votes does not matter. |
| `Reputation.VotesConverge` | packages/node/src/handlers/agents.rs:350-358 | With weights of at least w the distance is at most (1 - w)^n of the original one, and exactly that with weights w. |
| `ConcurrentVotes.StaleVotesStayWithin` | packages/node/src/handlers/peers.rs:126-137 | However reads, gate checks and writes of votes interleave, no score leaves the range spanned by the starting scores and the proposals; with nudges, none leaves [0, 1]. |
| `ConcurrentVotes.OverlappingVotesLoseAllButLast` | packages/node/src/handlers/peers.rs:204-252 | Any number of votes on one target, with any proposals, that all read and pass the gate before the first one writes leave the score as if only the last writer had voted, whatever the order of reads and of writes. |
| `ConcurrentVotes.LostVotesIff` | packages/node/src/handlers/peers.rs:204-252 | They come to the same as voting in turn, where each voter faces the gate again and may be turned away, if and only if: the last writer would pass at its turn and the votes before it would have left the score where it was or it overrides them; or it would be turned away and the votes before it come to what its vote alone does. |
| `ConcurrentVotes.LostVoteIff` | packages/node/src/handlers/peers.rs:217-240 | For two voters: if the second still passes after the first vote, exactly when the target stands at the first proposal, the first voter has no weight or the second has full weight; if it is turned away then, exactly when either vote alone comes to the same. |
| `ConcurrentVotes.VoteCanBeLost` | packages/node/src/handlers/peers.rs:217-240 | Two overlapping votes of weight one half for 1, which pass the gate in both orders of events, lift a score of 0 to one half instead of three quarters. |
| `ConcurrentVotes.VoterCanBeTurnedAway` | packages/node/src/handlers/peers.rs:217-225 | With sigma 1, a first vote can lift the bar above a voter who passed at the start; overlapping and in turn then end alike. |
| `ConcurrentVotes.InTurnCastsAll` | packages/node/src/handlers/peers.rs:173-259 | Voting in turn is a run of the same steps and applies the ballots one after the other, turning away every voter below the threshold at its turn. |
| `PeerDiscovery.TryAddPeer` | packages/node/src/peer_discovery.rs:154-199 | The table after offering a candidate: unchanged on a mismatch or a full table of peers at least as good, otherwise upserted after evicting the worst if full. |
| `PeerDiscovery.PullPeerList` | packages/node/src/peer_discovery.rs:107-150 | Working through a pulled list offers every candidate but the node itself, in order; whoever is new in the table was on the list, is not this node and did not turn out to be somebody else. |
| `PeerDiscovery.OfferKeepsBest` | packages/node/src/peer_discovery.rs:173-199 | Offering one new candidate keeps the table a best choice of all peers seen. |
| `PeerDiscovery.OfferingIsTopK` | packages/node/src/peer_discovery.rs:107-199 | Offering any sequence of new candidates keeps the table a best choice of all peers seen: min(cap, seen) of them, no discarded one better than a kept one. |
| `PeerDiscovery.DiscoveryIsTopK` | packages/node/src/peer_discovery.rs:107-199 | From any table within its cap the same holds after every prefix of the pulled list, so the cap is never exceeded on the way. |
| `PeerDiscovery.IncumbentsWinTies` | packages/node/src/peer_discovery.rs:180-193 | A full table is left alone if and only if the newcomer is better than nobody in it. |
| `PeerDiscovery.EvictsStalestIff` | packages/node-api/src/peer.rs:53-57 | A better newcomer to a full table displaces exactly one peer; it is a stalest one of lowest reputation if and only if the lowest-reputed peer with the highest node id is. |
| `PeerDiscovery.FreshPeerIsEvicted` | packages/node/src/storage/memory.rs:354-365 | Of two tied peers the one contacted last is evicted. |
| `PeerDiscovery.CapKeptIff` | packages/node/src/peer_discovery.rs:173-199 | A table within its cap stays within it after any offer, if and only if the cap is at least 1 or the candidate is a mismatch. |
| `PeerDiscovery.CapOfZeroAddsPeer` | packages/node/src/peer_discovery.rs:173-199 | With a cap of 0 an empty table takes a peer all the same. |
| `PeerDiscovery.TableShrinksIff` | packages/node/src/peer_discovery.rs:173-199 | The table shrinks exactly when it is full and a member other than the worst is announced above the worst. |
| `PeerDiscovery.TableCanShrink` | packages/node/src/peer_discovery.rs:173-199 | A full table of two loses a peer when the other one is offered again. |
| `PeerDiscovery.ReputationReplacedIff` | packages/node/src/peer_discovery.rs:173-199 | A known peer's reputation is replaced exactly when it is the worst of a full table and announces more. |
| `PeerDiscovery.ReputationCanBeReplaced` | packages/node/src/peer_discovery.rs:173-199 | The only peer of a full table takes on the reputation it announces. |
| `RemoteFanout.GroupByHost` | packages/node/src/handlers/units.rs:344-363 | Every host has exactly its own parsed remote entries, in audience order. |
| `RemoteFanout.GroupingAppends` | packages/node/src/handlers/units.rs:344-363 | Appending one entry to its host's group keeps the grouping exact, whether or not the host is new. |
| `RemoteFanout.OneMoreHost` | packages/node/src/handlers/units.rs:434-446 | Taking one host after another conserves the multiset of entries. |
| `RemoteFanout.RemoteDelivery.Attempt` | packages/node/src/handlers/units.rs:490-536 | One to three POSTs, the last being the third or the first reply that is not a server error (5xx) or missing; delivered means it is a 2xx. |
| `RemoteFanout.RemoteDelivery.PushToInbox` | packages/node/src/handlers/units.rs:461-542 | Exactly one push of this recipient is logged, by the attempt rule and with the replies to consecutive POSTs, followed by a notice about its inbox exactly when POSTs were made and none succeeded. |
| `RemoteFanout.UndeliveredIff` | packages/node/src/handlers/units.rs:490-542 | A delivery counts as failed exactly when the last reply is missing or not a 2xx. |
| `RemoteFanout.InboxBelowBase` | packages/agent-core/src/address.rs:100-110 | The inbox URL lies below the base address, however many slashes that ends with. |
| `RemoteFanout.HeardOfIff` | packages/node/src/handlers/units.rs:469-484 | A recipient on a discovered host gets its unit, or the failure is noticed, if and only if its inbox URL can be parsed. |
| `RemoteFanout.RecipientCanBeDroppedSilently` | packages/node/src/handlers/units.rs:480-483 | An api_base without a scheme: the recipient is handled with no POST and no notice. |
| `RemoteFanout.RemoteDelivery.FanOut` | packages/node/src/handlers/units.rs:341-446 | Each distinct host is asked once; the recipients pushed to are exactly the remote entries on discovered hosts, as often as listed, each by the attempt rule and with no other POST; the author gets one notice about every failed host and every inbox without success, and no others; the recipients neither served nor noticed are exactly those whose inbox URL does not parse, as often as listed. |
| `RemoteFanout.UnheardAreUnparseable` | packages/node/src/handlers/units.rs:469-484 | Over a whole log, the recipients neither served nor noticed are, as a multiset, those handled whose inbox URL does not parse. |
| `Address.FormatRoundTripsIff` | packages/agent-core/src/address.rs:66-85 | An address survives printing and parsing if and only if both parts are non-empty and trimmed and the hostname has no @. |
| `Address.ParsedIsWellFormed` | packages/agent-core/src/address.rs:66-85 | Whatever parses survives being printed and parsed again. |
| `Visibility.ListingAgreesWithFetch` | packages/node/src/handlers/units.rs:606-680 | For every caller, follow table, store and page size, the unfiltered list pages together are exactly the non-limited units the caller may see; they are exactly what a direct fetch returns to that caller if and only if all of their ids are UUIDs. |
| `Visibility.FetchIff` | packages/node/src/handlers/units.rs:606-650 | A direct fetch returns the stored unit exactly when the id is a UUID and the unit is public, or a network unit of an author the caller follows, or a limited unit with the caller in its audience; a malformed id is a bad request and everything else is not found. |
| `Visibility.HiddenUnitsDoNotShow` | packages/node/src/handlers/units.rs:606-680 | Existence is not leaked: fetch and every page of every listing answer a caller as if any of the units that caller may not see were not stored. |
| `Visibility.ListedUnitCanBeUnfetchable` | packages/node/src/federation.rs:106-110 | A pulled unit whose id is no UUID is listed to everybody and fetched by nobody. |
| `Visibility.SyncIsPublic` | packages/node/src/handlers/units.rs:706-775 | All sync pages together are exactly the public units. |
| `Visibility.EmptyFollowListNeedsGuard` | packages/node/src/handlers/units.rs:663-672 | Why the empty follow list is a case of its own: without it network units of every author would be listed; with it none is. |
| `RateLimit.RateLimiter.Check` | packages/node/src/middleware/rate_limit.rs:62-91 | A request is decided by its key's own bucket, the only one that changes. |
| `RateLimit.RateLimiter.CheckAll` | packages/node/src/middleware/rate_limit.rs:62-91 | Over any trace the answers to a key depend only on that key's own requests. |
| `RateLimit.IntervalBound` | packages/node/src/middleware/rate_limit.rs:62-91 | Any half-open interval of k windows admits fewer than (k + 1) * m requests of one key. |
| `RateLimit.BoundIsAttained` | packages/node/src/middleware/rate_limit.rs:62-91 | The bound cannot be improved: for every limit m and every k of at least 1 some trace has (k + 1) * m - 1 requests admitted within k windows. |
| `RateLimit.BucketCountsItsWindow` | packages/node/src/middleware/rate_limit.rs:62-91 | The bucket counts what was admitted since the request that opened its window. |
| `RateLimit.TurnedAwayMeansFull` | packages/node/src/middleware/rate_limit.rs:82-90 | When a request is turned away, exactly m requests of its key were admitted since one less than a window ago. |
| `RateLimit.WaitSufficesIff` | packages/node/src/middleware/rate_limit.rs:85-88 | Waiting the advertised seconds is enough if and only if the rest of the window is a whole number of seconds or less than one. |
| `RateLimit.WaitCanBeTooShort` | packages/node/src/middleware/rate_limit.rs:85-88 | With a limit of 1, a request half a second after the first is told to wait 59 s and is turned away again after them. |
| `RateLimit.ZeroDisables` | packages/node/src/middleware/rate_limit.rs:62-66 | With a limit of 0 every request is admitted and nothing is remembered. |
| `RateLimit.BehindTheClock` | packages/node/src/middleware/rate_limit.rs:72-90 | A clock behind the window's start counts as no time passed: a full bucket asks for all 60 seconds. |
| `Render.WrapContent` | packages/core/src/render.rs:146-166 | The words and their order survive at every width; when every word leaves room for two quotes every line fits, the closing quote apart, and no breaking into fitting lines has fewer lines. |
| `Render.GreedyStaysAhead` | packages/core/src/render.rs:153-163 | Set against any other way of breaking the words into fitting lines, greedy filling is never more than one break behind, and not behind at all when its line is no longer. |
| `Render.GreedyIsBest` | packages/core/src/render.rs:146-166 | No layout into fitting lines has fewer lines. |
| `Render.WordsSplitAtSpace` | packages/core/src/render.rs:153 | A whitespace character separates the words before it from the words after it. |
| `Render.CharBytesIsUtf8` | packages/core/src/render.rs:146-166 | Widths are UTF-8 lengths: a character counts for the fewest bytes that can hold it. |
| `HttpSignature.SplitSignatureParams` | packages/node/src/middleware/auth.rs:354-377 | The loop cuts at exactly the commas with an even number of quotes before them; the stretches between are trimmed and a blank last one is dropped. |
| `HttpSignature.SplitsAtCuts` | packages/node/src/middleware/auth.rs:354-377 | The one-pass scan with its quote flag computes that splitting. |
| `HttpSignature.ParseSignatureHeader` | packages/node/src/middleware/auth.rs:319-352 | The parsing loop computes the parse that `HttpSignature.ParseReads` describes. |
| `HttpSignature.ParseReads` | packages/node/src/middleware/auth.rs:319-352 | For every header, said of its parts alone: which of the three errors it gets, if any; otherwise each field is what the last part for it gives, the header list is that text cut at single spaces, and the algorithm defaults to ed25519 and the list to date. |
| `HttpSignature.BuildSigningString` | packages/node/src/middleware/auth.rs:396-419 | The signing string has one line per listed header, in order; the first header the request lacks is reported. |
| `HttpSignature.HeaderNamesIgnoreCase` | packages/node/src/middleware/auth.rs:408-415 | A listed header is found whatever the case of its name, with the same value. |
| `HttpSignature.LowerIs` | packages/node/src/middleware/auth.rs:396-419 | Lower case replaces the capital letters by their small ones and nothing else. |
| `HttpSignature.HeaderRoundTrips` | packages/node/src/middleware/auth.rs:215-235 | For every DID and signature without a double quote, parsing the built header recovers key id, algorithm, header list and signature. |
| `HttpSignature.SigningStringsAgree` | packages/node/src/middleware/auth.rs:396-419 | The string the verifier rebuilds from the request is the one that was signed. |
| `HttpSignature.SigningStringDetermines` | packages/node/src/middleware/auth.rs:215-235 | The signed string determines method, path, host and date when none holds a newline and the method no space. |
| `HttpSignature.OutboundRequestVerifies` | packages/node/src/middleware/auth.rs:215-235 | Together: a verifier that reads the header of an outbound request checks the signature of exactly that request. |
| `Strings.TrimIsIdentityIff` | packages/agent-core/src/address.rs:71-72 | Trimming yields a trimmed string and leaves exactly the trimmed strings alone. |

## Left out

- HTTP routing, JSON, TLS, configuration, logging, the command line, the webhook and the WebAssembly bindings: input, output and glue.
- Ed25519, multibase and JCS, UUID and date parsing: library calls; which ids are UUIDs is a parameter of direct fetch, a signature is any text without a double quote, and the age check of the Date header is not part of this model.
- Single-precision rounding: votes, statistics and credibilities are over the reals.
- `validate_unit` and `verify_proof`: their results are the parameters `valid` and `proofHolds` of a submission.
- Agent registration, application, deletion and probation, and the follow operations: single-branch operations on one table each.
- Delivery of network units to followers, and local inbox delivery: one loop without state of its own; `inbox_deliver` does not check the audience.
- The text of failure notices, and whether the author is registered and so receives them: a notice here is the call that tries to deliver one.
- Back-off delays between POST attempts: only the attempts and their outcomes are modelled.
- SQL as text: a query is its list of clauses with positional parameters, in the order the code pushes them; the JSON column is taken to round-trip, so a row carries the unit itself.
- SQLite's agents, peers, inboxes and cursors: the same tables as in memory, except that a new peer enters SQLite with 0.5 instead of its announced reputation.
- More than one event-stream subscriber, and a subscriber that falls behind the channel's capacity of 256: subscribers do not affect each other, and a lagging one loses events by design.
- Listing errors in `list` and `is_following`: an error aborts the one and counts as not following in the other.
- `POST /v1/peers` does not enforce the peer cap; only peer discovery, which does for a cap of at least 1, is modelled.
- The agents' copy of `update_reputation`: it follows the same rule as the peers' one, which is modelled; the contraction lemmas are about the shared rule.
- UTF-8: `Bytes` gives the encoded width of each character; strings are sequences of characters.
- RateLimit.RateLimiter.Check: the source reads the clock before it takes the lock, so two threads may pass it times out of order; the trace theorems are about times in order.
- SubgraphHandler.HandleSubgraph: storage errors are not modelled; a failing read of a referenced unit counts as absent, and any other failing lookup aborts the request.
- PeerDiscovery.TryAddPeer: storage errors are not modelled; an unreadable peer list counts as empty, and a failing removal ends the offer.
- Unit types and dates in listing parameters are taken as parsed: a type that does not parse is dropped from the filter, and dates are compared as texts, which the model takes as positions in that order.
- Graph.Graph.Bfs: the order among units at the same distance is not specified, because the incoming scan of a hash map has none.
- HttpSignature.HeaderRoundTrips: DIDs with a double quote are left out, because the header format has no escape and the DID syntax no quote.
- VotingHandler.UpdateReputation: it compares the target with this node only, as the handler does: a peer may vote on itself, and the lemmas on votes do not exclude it.
