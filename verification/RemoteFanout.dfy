/** Pushing a limited unit to audience members on other nodes: grouping by host, one discovery per
    host, bounded retries per recipient, and failure notices to the author. */
module RemoteFanout {
  import opened Units
  import opened Address

  /** What a POST comes to: a status code, or no reply. */
  datatype PostOutcome = Status(code: nat) | NoReply

  predicate Succeeded(o: PostOutcome) {
    o.Status? && 200 <= o.code < 300
  }

  /** Server errors and missing replies are tried again; anything else ends the attempts. */
  predicate Retryable(o: PostOutcome) {
    o.NoReply? || o.code >= 500
  }

  const MAX_ATTEMPTS: nat := 3

  /** What the fan-out did, in order: a discovery request and its api_base, if any; a recipient handled
      with the POSTs made; a failure notice to the author about a host or about an inbox. */
  datatype Event =
    | Discovered(host: string, found: Option<string>)
    | Pushed(to: AgentAddress, url: string, posts: seq<PostOutcome>)
    | HostNotice(host: string)
    | InboxNotice(url: string)

  /** The rest of the world: discovery by host name, percent-encoding, whether an inbox URL can be
      parsed, and the outcome of the k-th POST. */
  datatype World = World(
    discover: string -> Option<string>, encode: string -> string, parses: string -> bool, respond: nat -> PostOutcome)

  function TrimSlashes(s: string): string {
    if s != "" && s[|s| - 1] == '/' then TrimSlashes(s[..|s| - 1]) else s
  }

  function InboxUrl(w: World, a: AgentAddress, apiBase: string): string {
    TrimSlashes(apiBase) + "/agents/" + w.encode(a.did) + "/inbox"
  }

  /** The inbox of an agent lies below the base address, however many slashes that ends with. */
  lemma {:induction false} InboxBelowBase(w: World, a: AgentAddress, apiBase: string, base: string)
    requires base <= apiBase && (forall i :: |base| <= i < |apiBase| ==> apiBase[i] == '/')
    requires base != "" ==> base[|base| - 1] != '/'
    ensures InboxUrl(w, a, apiBase) == base + "/agents/" + w.encode(a.did) + "/inbox"
    decreases |apiBase|
  {
    if apiBase != base {
      InboxBelowBase(w, a, apiBase[..|apiBase| - 1], base);
    }
  }

  // ---------------------------------------------------------------------------
  // The audience
  // ---------------------------------------------------------------------------

  /** The remote entries that parse, in audience order. */
  function RemoteEntries(audience: seq<string>): seq<AgentAddress> {
    if audience == [] then []
    else if '@' in audience[0] && ParseAddress(audience[0]).Ok? then
      [ParseAddress(audience[0]).value] + RemoteEntries(audience[1..])
    else RemoteEntries(audience[1..])
  }

  /** The entries whose host is among the given ones. */
  function OnHosts(entries: seq<AgentAddress>, hosts: set<string>): seq<AgentAddress> {
    if entries == [] then [] else
      (if entries[0].hostname in hosts then [entries[0]] else []) + OnHosts(entries[1..], hosts)
  }

  function Hosts(entries: seq<AgentAddress>): set<string> {
    set i | 0 <= i < |entries| :: entries[i].hostname
  }

  type Groups = map<string, seq<AgentAddress>>

  /** Every host has exactly its own entries, in order. */
  ghost predicate Grouped(groups: Groups, entries: seq<AgentAddress>) {
    groups.Keys == Hosts(entries) && forall h :: h in groups ==> groups[h] == OnHosts(entries, {h})
  }

  lemma {:induction false} OnHostsAppend(entries: seq<AgentAddress>, a: AgentAddress, hosts: set<string>)
    ensures OnHosts(entries + [a], hosts)
         == if a.hostname in hosts then OnHosts(entries, hosts) + [a] else OnHosts(entries, hosts)
  {
    if entries == [] {
      assert entries + [a] == [a];
    } else {
      var head := if entries[0].hostname in hosts then [entries[0]] else [];
      OnHostsAppend(entries[1..], a, hosts);
      assert (entries + [a])[1..] == entries[1..] + [a];
      assert head + (OnHosts(entries[1..], hosts) + [a]) == head + OnHosts(entries[1..], hosts) + [a];
    }
  }

  lemma HostsAppend(entries: seq<AgentAddress>, a: AgentAddress)
    ensures Hosts(entries + [a]) == Hosts(entries) + {a.hostname}
  {
    assert (entries + [a])[|entries|] == a;
    forall h | h in Hosts(entries) ensures h in Hosts(entries + [a]) {
      var i :| 0 <= i < |entries| && entries[i].hostname == h;
      assert (entries + [a])[i].hostname == h;
    }
  }

  lemma {:induction false} RemoteEntriesAppend(audience: seq<string>, entry: string)
    ensures RemoteEntries(audience + [entry])
         == RemoteEntries(audience) + (if '@' in entry && ParseAddress(entry).Ok? then [ParseAddress(entry).value] else [])
  {
    hide ParseAddress;
    if audience == [] {
      assert audience + [entry] == [entry];
    } else {
      RemoteEntriesAppend(audience[1..], entry);
      assert (audience + [entry])[1..] == audience[1..] + [entry];
    }
  }

  lemma {:induction false} NoneOnOtherHosts(entries: seq<AgentAddress>, h: string)
    requires h !in Hosts(entries)
    ensures OnHosts(entries, {h}) == []
  {
    if entries != [] {
      assert entries[0].hostname in Hosts(entries);
      forall x | x in Hosts(entries[1..]) ensures x in Hosts(entries) {
        var i :| 0 <= i < |entries[1..]| && entries[1..][i].hostname == x;
        assert entries[i + 1].hostname == x;
      }
      NoneOnOtherHosts(entries[1..], h);
    }
  }

  method GroupByHost(audience: seq<string>) returns (groups: Groups)
    ensures Grouped(groups, RemoteEntries(audience))
  {
    groups := map[];
    for i := 0 to |audience|
      invariant Grouped(groups, RemoteEntries(audience[..i]))
    {
      var entry := audience[i];
      ghost var before := RemoteEntries(audience[..i]);
      assert audience[..i + 1] == audience[..i] + [entry];
      RemoteEntriesAppend(audience[..i], entry);
      if '@' in entry && ParseAddress(entry).Ok? {
        var a := ParseAddress(entry).value;
        GroupingAppends(groups, before, a);
        groups := groups[a.hostname := GroupOf(groups, a.hostname) + [a]];
      } else {
        assert before + [] == before;
      }
    }
    assert audience[..|audience|] == audience;
  }

  function GroupOf(groups: Groups, h: string): seq<AgentAddress> {
    if h in groups then groups[h] else []
  }

  lemma GroupingAppends(groups: Groups, entries: seq<AgentAddress>, a: AgentAddress)
    requires Grouped(groups, entries)
    ensures Grouped(groups[a.hostname := GroupOf(groups, a.hostname) + [a]], entries + [a])
  {
    var groups' := groups[a.hostname := GroupOf(groups, a.hostname) + [a]];
    HostsAppend(entries, a);
    forall h | h in groups' ensures groups'[h] == OnHosts(entries + [a], {h}) {
      OnHostsAppend(entries, a, {h});
      if h !in groups {
        NoneOnOtherHosts(entries, h);
      }
    }
  }

  /** Taking one host after the other conserves the entries. */
  lemma {:induction false} OneMoreHost(entries: seq<AgentAddress>, hosts: set<string>, h: string)
    requires h !in hosts
    ensures multiset(OnHosts(entries, hosts + {h})) == multiset(OnHosts(entries, hosts)) + multiset(OnHosts(entries, {h}))
  {
    if entries != [] {
      OneMoreHost(entries[1..], hosts, h);
    }
  }

  // ---------------------------------------------------------------------------
  // Reading the log
  // ---------------------------------------------------------------------------

  /** What a log comes to: the hosts asked, the recipients handled, the POSTs made, the inboxes tried
      without success, the recipients nothing came of, and the notices of either kind. */
  datatype Tally = Tally(
    discoveries: multiset<string>, recipients: multiset<AgentAddress>, posts: nat,
    undelivered: multiset<string>, unheard: multiset<AgentAddress>,
    hostNotices: multiset<string>, inboxNotices: multiset<string>)

  /** An inbox was tried and not one POST succeeded. */
  predicate Undelivered(e: Event) {
    e.Pushed? && e.posts != [] && forall i :: 0 <= i < |e.posts| ==> !Succeeded(e.posts[i])
  }

  /** No POST succeeded, and there is nothing to give notice of either. */
  predicate Unheard(e: Event) {
    e.Pushed? && !Undelivered(e) && forall i :: 0 <= i < |e.posts| ==> !Succeeded(e.posts[i])
  }

  function Count(t: Tally, e: Event): Tally {
    match e
    case Discovered(host, _) => t.(discoveries := t.discoveries + multiset{host})
    case Pushed(to, url, _) =>
      t.(recipients := t.recipients + multiset{to}, posts := t.posts + |e.posts|,
         undelivered := if Undelivered(e) then t.undelivered + multiset{url} else t.undelivered,
         unheard := if Unheard(e) then t.unheard + multiset{to} else t.unheard)
    case HostNotice(host) => t.(hostNotices := t.hostNotices + multiset{host})
    case InboxNotice(url) => t.(inboxNotices := t.inboxNotices + multiset{url})
  }

  /** What is logged about one recipient: the push, and a notice about its inbox if nothing got through. */
  function Handled(to: AgentAddress, url: string, posts: seq<PostOutcome>): seq<Event> {
    var e := Pushed(to, url, posts);
    if Undelivered(e) then [e, InboxNotice(url)] else [e]
  }

  const Nothing: Tally := Tally(multiset{}, multiset{}, 0, multiset{}, multiset{}, multiset{}, multiset{})

  function TallyOf(log: seq<Event>): Tally {
    if log == [] then Nothing else Count(TallyOf(log[..|log| - 1]), log[|log| - 1])
  }

  lemma TallyAppend(log: seq<Event>, e: Event)
    ensures TallyOf(log + [e]) == Count(TallyOf(log), e)
  {
  }

  /** The attempts for one recipient: one to three POSTs, the last being the first success or the first
      reply that is not a server error, or the third. */
  ghost predicate AttemptRule(posts: seq<PostOutcome>) {
    && 1 <= |posts| <= 3
    && (forall i :: 0 <= i < |posts| - 1 ==> posts[i] == NoReply || posts[i].code >= 500)
    && (|posts| < 3 ==> posts[|posts| - 1].Status? && posts[|posts| - 1].code < 500)
  }

  /** What a logged push must look like when `first` POSTs were made before it: its outcomes are the
      replies to the next POSTs. An inbox URL that cannot be parsed gets no POST. */
  ghost predicate PushRule(e: Event, w: World, first: nat) {
    e.Pushed? ==>
      && Replies(w, first, e.posts)
      && w.discover(e.to.hostname).Some?
      && e.url == InboxUrl(w, e.to, w.discover(e.to.hostname).value)
      && if w.parses(e.url) then AttemptRule(e.posts) else e.posts == []
  }

  /** A recipient on a discovered host gets its unit, or its failure is noticed, if and only if its inbox
      URL can be parsed; otherwise nothing is sent to it and nobody is told. */
  lemma HeardOfIff(e: Event, w: World, first: nat)
    requires e.Pushed? && PushRule(e, w, first)
    ensures (exists i :: 0 <= i < |e.posts| && Succeeded(e.posts[i])) || Undelivered(e) <==> w.parses(e.url)
  {
  }

  predicate Reachable(w: World, a: AgentAddress) {
    w.discover(a.hostname).Some? && w.parses(InboxUrl(w, a, w.discover(a.hostname).value))
  }

  function Unparseable(w: World, entries: seq<AgentAddress>): seq<AgentAddress> {
    if entries == [] then []
    else if Reachable(w, entries[0]) then Unparseable(w, entries[1..])
    else [entries[0]] + Unparseable(w, entries[1..])
  }

  lemma {:induction false} UnparseableCount(w: World, entries: seq<AgentAddress>, a: AgentAddress)
    ensures multiset(Unparseable(w, entries))[a] == if Reachable(w, a) then 0 else multiset(entries)[a]
    decreases |entries|
  {
    hide Reachable;
    if entries != [] {
      assert entries == [entries[0]] + entries[1..];
      UnparseableCount(w, entries[1..], a);
    }
  }

  lemma AllPushRuleFront(log: seq<Event>, w: World)
    requires AllPushRule(log, w) && log != []
    ensures AllPushRule(log[..|log| - 1], w) && PushRule(log[|log| - 1], w, TallyOf(log[..|log| - 1]).posts)
  {
    hide TallyOf, PushRule;
    var front := log[..|log| - 1];
    forall i | 0 <= i < |front| ensures PushRule(front[i], w, TallyOf(front[..i]).posts) {
      assert front[i] == log[i] && front[..i] == log[..i];
    }
  }

  lemma UnheardIff(e: Event, w: World, first: nat)
    requires e.Pushed? && PushRule(e, w, first)
    ensures Unheard(e) <==> !Reachable(w, e.to)
  {
  }

  lemma {:induction false} UnheardCount(log: seq<Event>, w: World, a: AgentAddress)
    requires AllPushRule(log, w)
    ensures TallyOf(log).unheard[a] == if Reachable(w, a) then 0 else TallyOf(log).recipients[a]
    decreases |log|
  {
    hide AllPushRule, PushRule, Unheard, Undelivered, Reachable;
    if log != [] {
      var e := log[|log| - 1];
      AllPushRuleFront(log, w);
      UnheardCount(log[..|log| - 1], w, a);
      if e.Pushed? {
        UnheardIff(e, w, TallyOf(log[..|log| - 1]).posts);
      }
    }
  }

  /** In a log that keeps the rule, the recipients neither served nor noticed are exactly those whose inbox
      URL cannot be parsed, as often as they were handled. */
  lemma UnheardAreUnparseable(log: seq<Event>, w: World, handled: seq<AgentAddress>)
    requires AllPushRule(log, w) && TallyOf(log).recipients == multiset(handled)
    ensures TallyOf(log).unheard == multiset(Unparseable(w, handled))
  {
    hide AllPushRule, TallyOf, Reachable, Unparseable;
    forall a ensures TallyOf(log).unheard[a] == multiset(Unparseable(w, handled))[a] {
      UnheardCount(log, w, a);
      UnparseableCount(w, handled, a);
    }
  }

  /** It can happen: discovery gives an api_base without a scheme, so the inbox URL has none either. The
      recipient is handled with no POST and no notice. */
  lemma RecipientCanBeDroppedSilently(w: World, to: AgentAddress)
    requires w == World(_ => Some("node"), did => did, url => "https://" <= url, _ => Status(200))
    ensures var e := Pushed(to, InboxUrl(w, to, "node"), []);
            PushRule(e, w, 0) && Handled(to, e.url, []) == [e] && Unheard(e) && TallyOf([e]).unheard == multiset{to}
  {
    var e := Pushed(to, InboxUrl(w, to, "node"), []);
    assert e.url[0] == 'n' && "https://"[0] == 'h';
    assert [e][..0] == [];
  }

  ghost predicate Replies(w: World, first: nat, posts: seq<PostOutcome>) {
    forall i :: 0 <= i < |posts| ==> posts[i] == w.respond(first + i)
  }

  ghost predicate AllPushRule(log: seq<Event>, w: World) {
    forall i :: 0 <= i < |log| ==> PushRule(log[i], w, TallyOf(log[..i]).posts)
  }

  lemma AllPushRuleAppend(log: seq<Event>, w: World, e: Event)
    requires AllPushRule(log, w) && PushRule(e, w, TallyOf(log).posts)
    ensures AllPushRule(log + [e], w)
  {
    hide TallyOf, PushRule;
    forall i | 0 <= i < |log + [e]| ensures PushRule((log + [e])[i], w, TallyOf((log + [e])[..i]).posts) {
      assert (log + [e])[..i] == if i == |log| then log else log[..i];
    }
  }

  // ---------------------------------------------------------------------------
  // The fan-out
  // ---------------------------------------------------------------------------

  class RemoteDelivery {
    var log: seq<Event>
    var requests: nat

    constructor ()
      ensures log == [] && requests == 0
    {
      log, requests := [], 0;
    }

    /** Every push in the log keeps the rule, and no other POST was made. */
    ghost predicate Sound(w: World)
      reads this
    {
      AllPushRule(log, w) && requests == TallyOf(log).posts
    }

    method Record(w: World, e: Event)
      requires AllPushRule(log, w) && PushRule(e, w, TallyOf(log).posts)
      modifies this`log
      ensures AllPushRule(log, w)
      ensures TallyOf(log) == Count(old(TallyOf(log)), e) && log == old(log) + [e]
    {
      hide AllPushRule, PushRule, TallyOf;
      TallyAppend(log, e);
      AllPushRuleAppend(log, w, e);
      log := log + [e];
    }

    /** The attempt loop. */
    method Attempt(w: World) returns (posts: seq<PostOutcome>, delivered: bool)
      modifies this`requests
      ensures AttemptRule(posts)
      ensures Replies(w, old(requests), posts) && requests == old(requests) + |posts|
      ensures delivered <==> posts[|posts| - 1].Status? && 200 <= posts[|posts| - 1].code <= 299
    {
      posts := [];
      delivered := false;
      var attempt := 1;
      while attempt <= MAX_ATTEMPTS
        invariant 1 <= attempt <= MAX_ATTEMPTS + 1 && |posts| == attempt - 1 && !delivered
        invariant forall i :: 0 <= i < |posts| ==> Retryable(posts[i])
        invariant Replies(w, old(requests), posts) && requests == old(requests) + |posts|
      {
        var outcome := w.respond(requests);
        requests := requests + 1;
        posts := posts + [outcome];
        if Succeeded(outcome) {
          return posts, true;
        }
        if !Retryable(outcome) {
          return;
        }
        attempt := attempt + 1;
      }
    }

    /** Up to three attempts; a notice exactly when attempts were made and none succeeded. */
    method PushToInbox(w: World, to: AgentAddress, apiBase: string)
      requires Sound(w) && w.discover(to.hostname) == Some(apiBase)
      modifies this
      ensures Sound(w)
      ensures exists posts :: log == old(log) + Handled(to, InboxUrl(w, to, apiBase), posts)
      ensures Pushes(old(TallyOf(log)), TallyOf(log), multiset{to})
    {
      hide TallyOf, AllPushRule;
      var url := InboxUrl(w, to, apiBase);
      if !w.parses(url) {
        Record(w, Pushed(to, url, []));
        PushesOne(old(TallyOf(log)), TallyOf(log), to, url, []);
        assert log == old(log) + Handled(to, url, []);
        return;
      }
      var posts, delivered := Attempt(w);
      OnlyLastCanSucceed(posts);
      Record(w, Pushed(to, url, posts));
      if !delivered {
        Record(w, InboxNotice(url));
      }
      PushesOne(old(TallyOf(log)), TallyOf(log), to, url, posts);
      assert log == old(log) + Handled(to, url, posts);
    }

    /** One discovery request, a notice if it fails. */
    method DiscoverHost(w: World, host: string) returns (found: Option<string>)
      requires Sound(w)
      modifies this`log
      ensures Sound(w) && found == w.discover(host)
      ensures TallyOf(log) == Asked(w, old(TallyOf(log)), host)
    {
      hide TallyOf, AllPushRule;
      found := w.discover(host);
      Record(w, Discovered(host, found));
      if found.None? {
        Record(w, HostNotice(host));
      }
    }

    method DiscoverHosts(w: World, hosts: set<string>) returns (cache: map<string, string>)
      requires Sound(w)
      modifies this`log
      ensures Sound(w)
      ensures Discovering(w, hosts, cache, old(TallyOf(log)), TallyOf(log))
    {
      hide TallyOf, AllPushRule, Discovering;
      cache := map[];
      var rest := hosts;
      DiscoveringStarts(w, hosts, TallyOf(log));
      while rest != {}
        invariant rest <= hosts && Sound(w)
        invariant Discovering(w, hosts - rest, cache, old(TallyOf(log)), TallyOf(log))
        decreases rest
      {
        var host :| host in rest;
        DiscoveringStep(w, hosts, rest, host, cache, old(TallyOf(log)), TallyOf(log));
        var found := DiscoverHost(w, host);
        if found.Some? {
          cache := cache[host := found.value];
        }
        rest := rest - {host};
      }
      assert hosts - rest == hosts;
    }

    /** Every entry of one group is pushed, in order. */
    method PushGroup(w: World, group: seq<AgentAddress>, apiBase: string)
      requires Sound(w) && forall i :: 0 <= i < |group| ==> w.discover(group[i].hostname) == Some(apiBase)
      modifies this
      ensures Sound(w)
      ensures Pushes(old(TallyOf(log)), TallyOf(log), multiset(group))
    {
      hide TallyOf, AllPushRule, Pushes;
      PushesNobody(TallyOf(log));
      for i := 0 to |group|
        invariant Sound(w)
        invariant Pushes(old(TallyOf(log)), TallyOf(log), multiset(group[..i]))
      {
        assert group[..i + 1] == group[..i] + [group[i]];
        ghost var before := TallyOf(log);
        PushToInbox(w, group[i], apiBase);
        PushesCompose(old(TallyOf(log)), before, TallyOf(log), multiset(group[..i]), multiset{group[i]});
      }
      assert group[..|group|] == group;
    }

    /** Every group whose host was discovered is pushed; the others are skipped. */
    method PushGroups(w: World, ghost entries: seq<AgentAddress>, groups: Groups, cache: map<string, string>)
      requires Sound(w) && Grouped(groups, entries) && cache.Keys <= groups.Keys
      requires forall h :: h in cache ==> w.discover(h) == Some(cache[h])
      modifies this
      ensures Sound(w)
      ensures Pushes(old(TallyOf(log)), TallyOf(log), multiset(OnHosts(entries, cache.Keys)))
    {
      hide TallyOf, AllPushRule, Pushes;
      var rest := groups.Keys;
      PushesNothing(TallyOf(log), entries, groups.Keys, cache.Keys);
      while rest != {}
        invariant rest <= groups.Keys && Sound(w)
        invariant Pushes(old(TallyOf(log)), TallyOf(log), multiset(OnHosts(entries, (groups.Keys - rest) * cache.Keys)))
        decreases rest
      {
        var host :| host in rest;
        HostTaken(groups.Keys, cache.Keys, rest, host);
        if host in cache {
          OnlyThatHost(entries, host);
          ghost var before := TallyOf(log);
          PushGroup(w, groups[host], cache[host]);
          PushesHost(old(TallyOf(log)), before, TallyOf(log), entries, (groups.Keys - rest) * cache.Keys, host);
        }
        rest := rest - {host};
      }
      assert (groups.Keys - rest) * cache.Keys == cache.Keys;
    }

    /** The whole fan-out of a limited unit conserves its audience: each distinct host is asked once, the
        recipients pushed to are exactly the remote entries on discovered hosts, as often as they are
        listed, each handled by the attempt rule, and the author gets one notice about every host whose
        discovery failed and one about every inbox where no attempt succeeded, and no others; and the recipients who are
        neither served nor noticed are exactly those whose inbox URL cannot be parsed. */
    method FanOut(w: World, audience: seq<string>)
      requires log == [] && requests == 0
      modifies this
      ensures Sound(w)
      ensures TallyOf(log).discoveries == multiset(Hosts(RemoteEntries(audience)))
      ensures TallyOf(log).recipients
           == multiset(OnHosts(RemoteEntries(audience), DiscoveredHosts(w, RemoteEntries(audience))))
      ensures TallyOf(log).hostNotices == multiset(FailedHosts(w, Hosts(RemoteEntries(audience))))
      ensures TallyOf(log).inboxNotices == TallyOf(log).undelivered
      ensures TallyOf(log).unheard
           == multiset(Unparseable(w, OnHosts(RemoteEntries(audience), DiscoveredHosts(w, RemoteEntries(audience)))))
    {
      assert TallyOf([]) == Nothing;
      hide TallyOf, AllPushRule;
      var groups := GroupByHost(audience);
      var cache := DiscoverHosts(w, groups.Keys);
      PushGroups(w, RemoteEntries(audience), groups, cache);
      UnheardAreUnparseable(log, w, OnHosts(RemoteEntries(audience), cache.Keys));
    }
  }

  /** Going from `t` to `t'` pushed exactly these recipients, with one notice per undelivered push. */
  ghost predicate Pushes(t: Tally, t': Tally, to: multiset<AgentAddress>) {
    && t'.recipients == t.recipients + to
    && t'.discoveries == t.discoveries
    && t'.hostNotices == t.hostNotices
    && exists failed: multiset<string> ::
         t'.undelivered == t.undelivered + failed && t'.inboxNotices == t.inboxNotices + failed
  }

  lemma OnlyLastCanSucceed(posts: seq<PostOutcome>)
    requires AttemptRule(posts)
    ensures (forall i :: 0 <= i < |posts| ==> !Succeeded(posts[i])) <==> !Succeeded(posts[|posts| - 1])
  {
  }

  /** Under the rule an inbox counts as undelivered exactly when the last reply is missing or no 2xx. */
  lemma UndeliveredIff(e: Event)
    requires e.Pushed? && AttemptRule(e.posts)
    ensures var last := e.posts[|e.posts| - 1];
            Undelivered(e) <==> last == NoReply || last.code < 200 || last.code >= 300
  {
    OnlyLastCanSucceed(e.posts);
  }

  lemma PushesNobody(t: Tally)
    ensures Pushes(t, t, multiset{})
  {
    assert t.undelivered + multiset{} == t.undelivered && t.inboxNotices + multiset{} == t.inboxNotices;
  }

  lemma PushesNothing(t: Tally, entries: seq<AgentAddress>, all: set<string>, known: set<string>)
    ensures Pushes(t, t, multiset(OnHosts(entries, (all - all) * known)))
  {
    assert (all - all) * known == {};
    NoHosts(entries);
    PushesNobody(t);
  }

  lemma HostTaken(all: set<string>, known: set<string>, rest: set<string>, h: string)
    requires h in rest && rest <= all
    ensures h in known ==> (all - (rest - {h})) * known == (all - rest) * known + {h}
    ensures h !in known ==> (all - (rest - {h})) * known == (all - rest) * known
    ensures h !in (all - rest) * known
  {
  }

  lemma PushesHost(t: Tally, t': Tally, t'': Tally, entries: seq<AgentAddress>, hosts: set<string>, h: string)
    requires h !in hosts
    requires Pushes(t, t', multiset(OnHosts(entries, hosts)))
    requires Pushes(t', t'', multiset(OnHosts(entries, {h})))
    ensures Pushes(t, t'', multiset(OnHosts(entries, hosts + {h})))
  {
    OneMoreHost(entries, hosts, h);
    PushesCompose(t, t', t'', multiset(OnHosts(entries, hosts)), multiset(OnHosts(entries, {h})));
  }

  lemma PushesCompose(t: Tally, t': Tally, t'': Tally, a: multiset<AgentAddress>, b: multiset<AgentAddress>)
    requires Pushes(t, t', a) && Pushes(t', t'', b)
    ensures Pushes(t, t'', a + b)
  {
    var f: multiset<string> :| t'.undelivered == t.undelivered + f && t'.inboxNotices == t.inboxNotices + f;
    var g: multiset<string> :| t''.undelivered == t'.undelivered + g && t''.inboxNotices == t'.inboxNotices + g;
    MultisetShift(t.undelivered, f, g);
    MultisetShift(t.inboxNotices, f, g);
    assert t.recipients + a + b == t.recipients + (a + b);
  }

  /** One recipient handled, with or without a notice. */
  lemma PushesOne(t: Tally, t': Tally, to: AgentAddress, url: string, posts: seq<PostOutcome>)
    requires var e := Pushed(to, url, posts);
             t' == if Undelivered(e) then Count(Count(t, e), InboxNotice(url)) else Count(t, e)
    ensures Pushes(t, t', multiset{to})
  {
    if Undelivered(Pushed(to, url, posts)) {
      assert t'.undelivered == t.undelivered + multiset{url} && t'.inboxNotices == t.inboxNotices + multiset{url};
    } else {
      assert t'.undelivered == t.undelivered + multiset{} && t'.inboxNotices == t.inboxNotices + multiset{};
    }
  }

  function Asked(w: World, t: Tally, host: string): Tally {
    t.(discoveries := t.discoveries + multiset{host},
       hostNotices := if w.discover(host).None? then t.hostNotices + multiset{host} else t.hostNotices)
  }

  /** Going from `t` to `t'` asked each of these hosts once, with one notice per failure; the cache has
      what the others answered. */
  ghost predicate Discovering(w: World, hosts: set<string>, cache: map<string, string>, t: Tally, t': Tally) {
    && t' == t.(discoveries := t.discoveries + multiset(hosts),
                hostNotices := t.hostNotices + multiset(FailedHosts(w, hosts)))
    && cache.Keys == hosts - FailedHosts(w, hosts)
    && forall h :: h in cache ==> w.discover(h) == Some(cache[h])
  }

  lemma DiscoveringStarts(w: World, hosts: set<string>, t: Tally)
    ensures Discovering(w, hosts - hosts, map[], t, t)
  {
  }

  lemma DoneGrows(hosts: set<string>, rest: set<string>, host: string)
    requires rest <= hosts && host in rest
    ensures hosts - (rest - {host}) == (hosts - rest) + {host}
  {
  }

  lemma MultisetPlusOne(s: set<string>, x: string)
    requires x !in s
    ensures multiset(s + {x}) == multiset(s) + multiset{x}
  {
  }

  lemma FailedHostsGrow(w: World, done: set<string>, host: string)
    requires host !in done
    ensures w.discover(host).Some? ==> FailedHosts(w, done + {host}) == FailedHosts(w, done)
    ensures w.discover(host).None? ==> FailedHosts(w, done + {host}) == FailedHosts(w, done) + {host}
    ensures host !in FailedHosts(w, done)
  {
  }

  lemma {:induction false} DiscoveringStep(
    w: World, hosts: set<string>, rest: set<string>, host: string, cache: map<string, string>, t: Tally, t': Tally)
    requires rest <= hosts && host in rest
    requires Discovering(w, hosts - rest, cache, t, t')
    ensures Discovering(w, hosts - (rest - {host}), Remembered(w, cache, host), t, Asked(w, t', host))
  {
    DoneGrows(hosts, rest, host);
    DiscoveringOneMore(w, hosts - rest, host, cache, t, t');
  }

  function Remembered(w: World, cache: map<string, string>, host: string): map<string, string> {
    if w.discover(host).Some? then cache[host := w.discover(host).value] else cache
  }

  lemma DiscoveringOneMore(
    w: World, done: set<string>, host: string, cache: map<string, string>, t: Tally, t': Tally)
    requires host !in done
    requires Discovering(w, done, cache, t, t')
    ensures Discovering(w, done + {host}, Remembered(w, cache, host), t, Asked(w, t', host))
  {
    hide FailedHosts;
    FailedHostsGrow(w, done, host);
    MultisetPlusOne(done, host);
    MultisetShift(t.discoveries, multiset(done), multiset{host});
    MultisetShift(t.hostNotices, multiset(FailedHosts(w, done)), multiset{host});
    MultisetPlusOne(FailedHosts(w, done), host);
    RememberedKeys(w, done, FailedHosts(w, done), host, cache);
  }

  lemma RememberedKeys(w: World, done: set<string>, failed: set<string>, host: string, cache: map<string, string>)
    requires host !in done && host !in failed && cache.Keys == done - failed
    ensures Remembered(w, cache, host).Keys
         == (done + {host}) - if w.discover(host).None? then failed + {host} else failed
  {
  }

  lemma MultisetShift(a: multiset<string>, b: multiset<string>, c: multiset<string>)
    ensures (a + b) + c == a + (b + c)
  {
  }

  function FailedHosts(w: World, hosts: set<string>): set<string> {
    set h | h in hosts && w.discover(h).None?
  }

  function DiscoveredHosts(w: World, entries: seq<AgentAddress>): set<string> {
    Hosts(entries) - FailedHosts(w, Hosts(entries))
  }

  lemma {:induction false} OnlyThatHost(entries: seq<AgentAddress>, host: string)
    ensures forall i :: 0 <= i < |OnHosts(entries, {host})| ==> OnHosts(entries, {host})[i].hostname == host
  {
    if entries != [] {
      OnlyThatHost(entries[1..], host);
    }
  }

  lemma {:induction false} NoHosts(entries: seq<AgentAddress>)
    ensures OnHosts(entries, {}) == []
  {
    if entries != [] {
      NoHosts(entries[1..]);
    }
  }
}
