/** Reputation votes and reachability nudges whose reads and writes interleave: the handlers read the
    scores, compute, and write back in separate storage calls. */
module ConcurrentVotes {
  import opened Units
  import opened MemoryStorage
  import opened Reputation

  type Scores = map<NodeId, real>

  /** A vote: its caller's reputation, read as its weight, whether it has passed the voting gate, and the
      value to write once the target has been read. Or the value a nudge is about to write. */
  datatype Pending =
    | Voting(target: NodeId, proposed: real, weight: real, passed: bool, value: Option<real>)
    | Nudging(target: NodeId, nudged: real)

  datatype State = State(scores: Scores, pending: map<nat, Pending>)

  /** Reading the caller's score, checking the gate, reading the target's score (the last two in either
      order), reading the score to nudge, and writing back. An unknown score is nudged from 0.5, but
      writing to an unknown peer fails. */
  datatype Action =
    | Weigh(k: nat, caller: NodeId, target: NodeId, proposed: real)
    | CheckGate(k: nat)
    | ReadTarget(k: nat)
    | ReadNudge(k: nat, target: NodeId, delta: real)
    | Write(k: nat)

  /** The configured sigma factor, and the standard deviation the back end computes. */
  datatype Gate = Gate(sigma: real, stddev: seq<real> -> real)

  ghost predicate IsGate(g: Gate) {
    g.sigma >= 0.0 && forall xs: seq<real> :: IsStddev(g.stddev(xs), xs)
  }

  function ListOf(scores: Scores, ids: set<NodeId>): seq<real>
    requires ids <= scores.Keys
  {
    if ids == {} then [] else [scores[Least(ids)]] + ListOf(scores, ids - {Least(ids)})
  }

  function Bar(g: Gate, scores: Scores): real {
    var xs := ListOf(scores, scores.Keys);
    Threshold(xs, g.sigma, g.stddev(xs))
  }

  /** A caller of this reputation is not turned away. */
  predicate Passes(g: Gate, scores: Scores, weight: real) {
    weight >= Bar(g, scores)
  }

  /** What a pending request would write. */
  function Writable(p: Pending): Option<real> {
    match p
    case Voting(_, _, _, passed, value) => if passed then value else None
    case Nudging(_, value) => Some(value)
  }

  function Step(g: Gate, s: State, a: Action): State {
    match a
    case Weigh(k, caller, target, proposed) =>
      if caller in s.scores && 0.0 <= proposed <= 1.0 && k !in s.pending
      then s.(pending := s.pending[k := Voting(target, proposed, s.scores[caller], false, None)]) else s
    case CheckGate(k) =>
      if k in s.pending && s.pending[k].Voting? && !s.pending[k].passed then
        if Passes(g, s.scores, s.pending[k].weight)
        then s.(pending := s.pending[k := s.pending[k].(passed := true)])
        else s.(pending := s.pending - {k})
      else s
    case ReadTarget(k) =>
      if k in s.pending && s.pending[k].Voting? && s.pending[k].value.None? then
        var v := s.pending[k];
        if v.target in s.scores
        then s.(pending := s.pending[k := v.(value := Some(Weighted(s.scores[v.target], v.proposed, v.weight)))])
        else s.(pending := s.pending - {k})
      else s
    case ReadNudge(k, target, delta) =>
      var current := if target in s.scores then s.scores[target] else 0.5;
      if k in s.pending then s else s.(pending := s.pending[k := Nudging(target, Clamp(current + delta))])
    case Write(k) =>
      if k in s.pending && Writable(s.pending[k]).Some? then
        var v := s.pending[k];
        State(if v.target in s.scores then s.scores[v.target := Clamp(Writable(v).value)] else s.scores, s.pending - {k})
      else s
  }

  function Run(g: Gate, s: State, actions: seq<Action>): State
    decreases |actions|
  {
    if actions == [] then s else Run(g, Step(g, s, actions[0]), actions[1..])
  }

  /** Every score, and every value still to be written or blended in, lies in [lo, hi]. */
  ghost predicate Within(s: State, lo: real, hi: real) {
    && (forall id: NodeId :: id in s.scores ==> lo <= s.scores[id] <= hi)
    && (forall k: nat :: k in s.pending ==> match s.pending[k]
          case Voting(_, p, w, _, v) => lo <= p <= hi && 0.0 <= w <= 1.0 && (v.Some? ==> lo <= v.value <= hi)
          case Nudging(_, v) => lo <= v <= hi)
  }

  /** Proposals lie in [lo, hi]; nudges happen only when that is the whole unit interval. */
  predicate Respects(a: Action, lo: real, hi: real) {
    && (a.Weigh? ==> lo <= a.proposed <= hi || !(0.0 <= a.proposed <= 1.0))
    && (a.ReadNudge? ==> lo == 0.0 && hi == 1.0)
  }

  /** Blending with a weight in [0, 1] never leaves an interval that holds both ends. */
  lemma BlendStaysWithin(c: real, p: real, w: real, lo: real, hi: real)
    requires 0.0 <= lo <= c <= hi <= 1.0 && lo <= p <= hi && 0.0 <= w <= 1.0
    ensures lo <= Weighted(c, p, w) <= hi
  {
    VoteContracts(c, p, w);
    MulMonotone(0.0, c - lo, 0.0, 1.0 - w);
    MulMonotone(0.0, p - lo, 0.0, w);
    MulMonotone(0.0, hi - c, 0.0, 1.0 - w);
    MulMonotone(0.0, hi - p, 0.0, w);
    hide Mul;
  }

  lemma StepStaysWithin(g: Gate, s: State, a: Action, lo: real, hi: real)
    requires 0.0 <= lo <= hi <= 1.0 && Within(s, lo, hi) && Respects(a, lo, hi)
    ensures Within(Step(g, s, a), lo, hi) && Step(g, s, a).scores.Keys == s.scores.Keys
  {
    hide Weighted, Passes;
    if a.ReadTarget? && a.k in s.pending && s.pending[a.k].Voting? && s.pending[a.k].target in s.scores {
      var v := s.pending[a.k];
      BlendStaysWithin(s.scores[v.target], v.proposed, v.weight, lo, hi);
    }
  }

  /** However the reads, gate checks and writes of any votes interleave, and however stale what they read,
      no score ever leaves the range spanned by the scores at the start and the proposals; with nudges
      among them no score leaves [0, 1]. */
  lemma {:induction false} StaleVotesStayWithin(g: Gate, scores: Scores, actions: seq<Action>, lo: real, hi: real)
    requires 0.0 <= lo <= hi <= 1.0
    requires forall id: NodeId :: id in scores ==> lo <= scores[id] <= hi
    requires forall i :: 0 <= i < |actions| ==> Respects(actions[i], lo, hi)
    ensures Within(Run(g, State(scores, map[]), actions), lo, hi)
    ensures Run(g, State(scores, map[]), actions).scores.Keys == scores.Keys
  {
    RunStaysWithin(g, State(scores, map[]), actions, lo, hi);
  }

  lemma {:induction false} RunStaysWithin(g: Gate, s: State, actions: seq<Action>, lo: real, hi: real)
    requires 0.0 <= lo <= hi <= 1.0 && Within(s, lo, hi)
    requires forall i :: 0 <= i < |actions| ==> Respects(actions[i], lo, hi)
    ensures Within(Run(g, s, actions), lo, hi)
    ensures Run(g, s, actions).scores.Keys == s.scores.Keys
    decreases |actions|
  {
    if actions != [] {
      hide Within, Respects, Step;
      StepStaysWithin(g, s, actions[0], lo, hi);
      RunStaysWithin(g, Step(g, s, actions[0]), actions[1..], lo, hi);
    }
  }

  // ---------------------------------------------------------------------------
  // Votes that overlap
  // ---------------------------------------------------------------------------

  datatype Ballot = Ballot(caller: NodeId, proposed: real)

  /** Every caller and the target are known, and the proposals and scores lie in [0, 1]. */
  ghost predicate Valid(scores: Scores, target: NodeId, bs: seq<Ballot>) {
    && target in scores
    && (forall id: NodeId :: id in scores ==> 0.0 <= scores[id] <= 1.0)
    && (forall i :: 0 <= i < |bs| ==> bs[i].caller in scores && 0.0 <= bs[i].proposed <= 1.0)
  }

  /** What a ballot makes of the target's score when it reads `scores`. */
  function Blend(scores: Scores, target: NodeId, b: Ballot): real
    requires target in scores && b.caller in scores
  {
    Weighted(scores[target], b.proposed, scores[b.caller])
  }

  /** Request `k` casts ballot `k`, and only reads. */
  predicate Reads(a: Action, target: NodeId, bs: seq<Ballot>) {
    match a
    case Weigh(k, caller, t, proposed) => k < |bs| && t == target && Ballot(caller, proposed) == bs[k]
    case CheckGate(_) => true
    case ReadTarget(_) => true
    case ReadNudge(_, _, _) => false
    case Write(_) => false
  }

  /** Everything pending was read from `scores` and checked against them. */
  ghost predicate ReadFrom(g: Gate, s: State, scores: Scores, target: NodeId, bs: seq<Ballot>)
    requires Valid(scores, target, bs)
  {
    && s.scores == scores
    && forall k: nat :: k in s.pending ==>
         && k < |bs|
         && var p, b := s.pending[k], bs[k];
         && p.Voting? && p.target == target && p.proposed == b.proposed && p.weight == scores[b.caller]
         && (p.passed ==> Passes(g, scores, scores[b.caller]))
         && (p.value.Some? ==> p.value.value == Blend(scores, target, b))
  }

  lemma {:induction false} ReadingChangesNothing(
    g: Gate, s: State, readings: seq<Action>, scores: Scores, target: NodeId, bs: seq<Ballot>)
    requires Valid(scores, target, bs) && ReadFrom(g, s, scores, target, bs)
    requires forall i :: 0 <= i < |readings| ==> Reads(readings[i], target, bs)
    ensures ReadFrom(g, Run(g, s, readings), scores, target, bs)
    decreases |readings|
  {
    hide Weighted, Passes;
    if readings != [] {
      ReadingChangesNothing(g, Step(g, s, readings[0]), readings[1..], scores, target, bs);
    }
  }

  function WriteAll(order: seq<nat>): seq<Action> {
    seq(|order|, i requires 0 <= i < |order| => Write(order[i]))
  }

  /** The requests of `order` are ready to write, each once. */
  ghost predicate AllReady(s: State, order: seq<nat>) {
    && (forall i :: 0 <= i < |order| ==> order[i] in s.pending && Writable(s.pending[order[i]]).Some?)
    && (forall i, j :: 0 <= i < j < |order| ==> order[i] != order[j])
  }

  lemma {:induction false} LastWriteStays(g: Gate, s: State, order: seq<nat>, target: NodeId)
    requires order != [] && AllReady(s, order) && target in s.scores
    requires forall i :: 0 <= i < |order| ==> s.pending[order[i]].target == target
    ensures Run(g, s, WriteAll(order)).scores
         == s.scores[target := Clamp(Writable(s.pending[order[|order| - 1]]).value)]
    decreases |order|
  {
    hide Writable, Clamp;
    var k, s' := order[0], Step(g, s, Write(order[0]));
    assert WriteAll(order)[0] == Write(k) && WriteAll(order)[1..] == WriteAll(order[1..]);
    assert s'.scores == s.scores[target := Clamp(Writable(s.pending[k]).value)];
    if |order| > 1 {
      LastWriteStays(g, s', order[1..], target);
    } else {
      assert WriteAll(order[1..]) == [];
    }
  }

  /** Any number of votes on one target, with any proposals, that all read and pass the gate before the
      first one writes leave the score as if only the last writer had voted, whatever the order of the
      reads and of the writes. */
  lemma OverlappingVotesLoseAllButLast(
    g: Gate, scores: Scores, target: NodeId, bs: seq<Ballot>, readings: seq<Action>, order: seq<nat>)
    requires Valid(scores, target, bs)
    requires forall i :: 0 <= i < |readings| ==> Reads(readings[i], target, bs)
    requires order != [] && AllReady(Run(g, State(scores, map[]), readings), order)
    ensures forall i :: 0 <= i < |order| ==> order[i] < |bs| && Passes(g, scores, scores[bs[order[i]].caller])
    ensures Run(g, Run(g, State(scores, map[]), readings), WriteAll(order)).scores
         == scores[target := Blend(scores, target, bs[order[|order| - 1]])]
  {
    hide Weighted, Run, Passes;
    ReadingChangesNothing(g, State(scores, map[]), readings, scores, target, bs);
    var s := Run(g, State(scores, map[]), readings);
    forall i | 0 <= i < |order| ensures order[i] in s.pending && Writable(s.pending[order[i]]).Some? {
    }
    LastWriteStays(g, s, order, target);
    var last := order[|order| - 1];
    assert last in s.pending;
    BlendInUnit(scores, target, bs[last]);
  }

  lemma BlendInUnit(scores: Scores, target: NodeId, b: Ballot)
    requires target in scores && b.caller in scores
    ensures 0.0 <= Blend(scores, target, b) <= 1.0
  {
  }

  // ---------------------------------------------------------------------------
  // Against voting in turn
  // ---------------------------------------------------------------------------

  /** One vote after the other, each reading, being checked and writing before the next one starts. */
  function InTurn(target: NodeId, bs: seq<Ballot>): seq<Action> {
    if bs == [] then [] else OneVote(target, bs[0]) + InTurn(target, bs[1..])
  }

  function OneVote(target: NodeId, b: Ballot): seq<Action> {
    [Weigh(0, b.caller, target, b.proposed), CheckGate(0), ReadTarget(0), Write(0)]
  }

  /** A ballot at its turn: a voter below the threshold is turned away. */
  function Cast(g: Gate, scores: Scores, target: NodeId, b: Ballot): Scores
    requires target in scores && b.caller in scores
  {
    if Passes(g, scores, scores[b.caller]) then scores[target := Blend(scores, target, b)] else scores
  }

  lemma CastKeepsValid(g: Gate, scores: Scores, target: NodeId, b: Ballot, bs: seq<Ballot>)
    requires Valid(scores, target, bs) && b.caller in scores
    ensures Valid(Cast(g, scores, target, b), target, bs) && Cast(g, scores, target, b).Keys == scores.Keys
  {
  }

  function CastAll(g: Gate, scores: Scores, target: NodeId, bs: seq<Ballot>): (r: Scores)
    requires Valid(scores, target, bs)
    ensures Valid(r, target, bs) && r.Keys == scores.Keys
    ensures forall id: NodeId :: id in scores && id != target ==> r[id] == scores[id]
    decreases |bs|
  {
    if bs == [] then scores else
      CastKeepsValid(g, scores, target, bs[0], bs);
      CastAll(g, Cast(g, scores, target, bs[0]), target, bs[1..])
  }

  lemma {:induction false} RunAppend(g: Gate, s: State, a: seq<Action>, b: seq<Action>)
    ensures Run(g, s, a + b) == Run(g, Run(g, s, a), b)
    decreases |a|
  {
    hide Step;
    if a == [] {
      assert a + b == b;
    } else {
      assert (a + b)[0] == a[0] && (a + b)[1..] == a[1..] + b;
      RunAppend(g, Step(g, s, a[0]), a[1..], b);
    }
  }

  lemma RunFour(g: Gate, s: State, a1: Action, a2: Action, a3: Action, a4: Action)
    ensures Run(g, s, [a1, a2, a3, a4]) == Step(g, Step(g, Step(g, Step(g, s, a1), a2), a3), a4)
  {
    hide Step;
    assert [a1, a2, a3, a4][1..] == [a2, a3, a4] && [a2, a3, a4][1..] == [a3, a4] && [a3, a4][1..] == [a4];
    var s1, s2, s3 := Step(g, s, a1), Step(g, Step(g, s, a1), a2), Step(g, Step(g, Step(g, s, a1), a2), a3);
    assert Run(g, s3, [a4]) == Step(g, s3, a4);
    assert Run(g, s2, [a3, a4]) == Run(g, s3, [a4]);
    assert Run(g, s1, [a2, a3, a4]) == Run(g, s2, [a3, a4]);
  }

  lemma OneVoteCasts(g: Gate, scores: Scores, target: NodeId, b: Ballot)
    requires target in scores && b.caller in scores && 0.0 <= b.proposed <= 1.0
    ensures Run(g, State(scores, map[]), OneVote(target, b)) == State(Cast(g, scores, target, b), map[])
  {
    hide Weighted, Passes, Run;
    var s0, v := State(scores, map[]), Blend(scores, target, b);
    var p := Voting(target, b.proposed, scores[b.caller], false, None);
    BlendInUnit(scores, target, b);
    RunFour(g, s0, Weigh(0, b.caller, target, b.proposed), CheckGate(0), ReadTarget(0), Write(0));
    assert Step(g, s0, Weigh(0, b.caller, target, b.proposed)) == State(scores, map[0 := p]);
    if Passes(g, scores, scores[b.caller]) {
      var p', p'' := p.(passed := true), p.(passed := true, value := Some(v));
      assert Step(g, State(scores, map[0 := p]), CheckGate(0)) == State(scores, map[0 := p']);
      assert Step(g, State(scores, map[0 := p']), ReadTarget(0)) == State(scores, map[0 := p'']);
      assert Step(g, State(scores, map[0 := p'']), Write(0)) == State(scores[target := v], map[]);
    } else {
      assert Step(g, State(scores, map[0 := p]), CheckGate(0)) == s0;
      assert Step(g, s0, ReadTarget(0)) == s0 && Step(g, s0, Write(0)) == s0;
    }
  }

  lemma {:induction false} InTurnCastsAll(g: Gate, scores: Scores, target: NodeId, bs: seq<Ballot>)
    requires Valid(scores, target, bs)
    ensures Run(g, State(scores, map[]), InTurn(target, bs)) == State(CastAll(g, scores, target, bs), map[])
    decreases |bs|
  {
    hide Cast, Step, OneVote;
    if bs != [] {
      OneVoteCasts(g, scores, target, bs[0]);
      CastKeepsValid(g, scores, target, bs[0], bs);
      RunAppend(g, State(scores, map[]), OneVote(target, bs[0]), InTurn(target, bs[1..]));
      InTurnCastsAll(g, Cast(g, scores, target, bs[0]), target, bs[1..]);
    }
  }

  lemma {:induction false} CastLast(g: Gate, scores: Scores, target: NodeId, bs: seq<Ballot>, b: Ballot)
    requires Valid(scores, target, bs + [b])
    ensures Valid(scores, target, bs)
    ensures b.caller in scores
    ensures CastAll(g, scores, target, bs + [b]) == Cast(g, CastAll(g, scores, target, bs), target, b)
    decreases |bs|
  {
    hide Cast;
    assert Valid(scores, target, bs) by {
      assert forall i :: 0 <= i < |bs| ==> (bs + [b])[i] == bs[i];
    }
    assert (bs + [b])[|bs|] == b;
    if bs == [] {
      assert bs + [b] == [b] && [b][1..] == [];
      CastKeepsValid(g, scores, target, b, [b]);
    } else {
      assert (bs + [b])[0] == bs[0] && (bs + [b])[1..] == bs[1..] + [b];
      CastKeepsValid(g, scores, target, bs[0], bs + [b]);
      CastKeepsValid(g, scores, target, bs[0], bs);
      CastLast(g, Cast(g, scores, target, bs[0]), target, bs[1..], b);
    }
  }

  /** The ballots of the given requests. */
  function Chosen(bs: seq<Ballot>, order: seq<nat>): seq<Ballot>
    requires forall i :: 0 <= i < |order| ==> order[i] < |bs|
  {
    seq(|order|, i requires 0 <= i < |order| => bs[order[i]])
  }

  /** One ballot on two scores of the target, with everything else alike, comes to the same if and only
      if the two scores are the same, or the voter has full weight, or the voter is the target itself and
      the two scores add up to one more than the proposal. */
  ghost predicate SameEffect(scores: Scores, target: NodeId, x: real, b: Ballot)
    requires target in scores && b.caller in scores
  {
    || x == scores[target]
    || if b.caller == target then x + scores[target] == 1.0 + b.proposed else scores[b.caller] == 1.0
  }

  lemma EqualProducts(a: real, b: real, r: real)
    ensures Mul(a, r) == Mul(b, r) <==> a == b || r == 0.0
  {
  }

  lemma EqualSelfVotes(c: real, x: real, p: real)
    ensures Mul(c - p, 1.0 - c) == Mul(x - p, 1.0 - x) <==> c == x || x + c == 1.0 + p
  {
    assert Mul(c - p, 1.0 - c) - Mul(x - p, 1.0 - x) == Mul(c - x, 1.0 + p - (c + x));
    EqualProducts(c - x, 0.0, 1.0 + p - (c + x));
  }

  lemma SameEffectIff(scores: Scores, before: Scores, target: NodeId, b: Ballot)
    requires b.caller in scores && before.Keys == scores.Keys
    requires Valid(scores, target, [b]) && Valid(before, target, [b])
    requires forall id: NodeId :: id in scores && id != target ==> before[id] == scores[id]
    ensures scores[target := Blend(scores, target, b)] == before[target := Blend(before, target, b)]
       <==> SameEffect(scores, target, before[target], b)
  {
    assert [b][0] == b;
    var c, x, p := scores[target], before[target], b.proposed;
    var w, w' := scores[b.caller], before[b.caller];
    VoteContracts(c, p, w);
    VoteContracts(x, p, w');
    EqualProducts(c - p, x - p, 1.0 - w);
    EqualSelfVotes(c, x, p);
    hide Weighted, Mul;
    var v, v' := Blend(scores, target, b), Blend(before, target, b);
    assert scores[target := v][target] == v && before[target := v'][target] == v';
    assert v == v' ==> scores[target := v] == before[target := v'];
  }

  /** Overlapping votes come to the same as voting in turn, in the order of the writes, if and only if:
      when the last writer would still pass the gate at its turn, the votes before it would have left the
      score where it was or it overrides them anyway; when it would be turned away there, the votes before
      it come to what its vote alone makes of the score. Voters turned away at earlier turns count as not
      voting. */
  lemma LostVotesIff(
    g: Gate, scores: Scores, target: NodeId, bs: seq<Ballot>, readings: seq<Action>, order: seq<nat>)
    requires Valid(scores, target, bs)
    requires forall i :: 0 <= i < |readings| ==> Reads(readings[i], target, bs)
    requires order != [] && AllReady(Run(g, State(scores, map[]), readings), order)
    ensures forall i :: 0 <= i < |order| ==> order[i] < |bs|
    ensures var n := |order| - 1;
            && Valid(scores, target, Chosen(bs, order[..n]))
            && var start, last := State(scores, map[]), bs[order[n]];
               var earlier := CastAll(g, scores, target, Chosen(bs, order[..n]));
               (Run(g, Run(g, start, readings), WriteAll(order)).scores
                == Run(g, start, InTurn(target, Chosen(bs, order))).scores
                <==>
                if Passes(g, earlier, earlier[last.caller]) then SameEffect(scores, target, earlier[target], last)
                else earlier[target] == Blend(scores, target, last))
  {
    hide Weighted, Run, SameEffect, CastAll, InTurn, Blend, Passes;
    var n := |order| - 1;
    OverlappingVotesLoseAllButLast(g, scores, target, bs, readings, order);
    var front, b := Chosen(bs, order[..n]), bs[order[n]];
    assert Chosen(bs, order) == front + [b];
    ChosenIsValid(scores, target, bs, order);
    InTurnCastsAll(g, scores, target, Chosen(bs, order));
    CastLast(g, scores, target, front, b);
    var before := CastAll(g, scores, target, front);
    SameEffectIff(scores, before, target, b);
    UpdateIsSame(scores, before, target, Blend(scores, target, b));
  }

  lemma ChosenIsValid(scores: Scores, target: NodeId, bs: seq<Ballot>, order: seq<nat>)
    requires Valid(scores, target, bs) && forall i :: 0 <= i < |order| ==> order[i] < |bs|
    ensures Valid(scores, target, Chosen(bs, order))
  {
  }

  lemma UpdateIsSame(scores: Scores, before: Scores, target: NodeId, v: real)
    requires target in scores && before.Keys == scores.Keys
    requires forall id: NodeId :: id in scores && id != target ==> before[id] == scores[id]
    ensures scores[target := v] == before <==> before[target] == v
  {
  }

  /** Two overlapping votes: both read and are checked, then both write. */
  function BothRead(bs: seq<Ballot>, target: NodeId): seq<Action>
    requires |bs| == 2
  {
    [Weigh(0, bs[0].caller, target, bs[0].proposed), CheckGate(0), ReadTarget(0)]
    + [Weigh(1, bs[1].caller, target, bs[1].proposed), CheckGate(1), ReadTarget(1)]
  }

  /** Both voters pass the gate to begin with. */
  ghost predicate BothPass(g: Gate, scores: Scores, target: NodeId, bs: seq<Ballot>) {
    && |bs| == 2 && Valid(scores, target, bs)
    && Passes(g, scores, scores[bs[0].caller]) && Passes(g, scores, scores[bs[1].caller])
  }

  lemma RunThree(g: Gate, s: State, a1: Action, a2: Action, a3: Action)
    ensures Run(g, s, [a1, a2, a3]) == Step(g, Step(g, Step(g, s, a1), a2), a3)
  {
    hide Step;
    assert [a1, a2, a3][1..] == [a2, a3] && [a2, a3][1..] == [a3];
    var s1, s2 := Step(g, s, a1), Step(g, Step(g, s, a1), a2);
    assert Run(g, s2, [a3]) == Step(g, s2, a3);
    assert Run(g, s1, [a2, a3]) == Run(g, s2, [a3]);
  }

  lemma OneReads(g: Gate, s: State, k: nat, target: NodeId, b: Ballot)
    requires target in s.scores && b.caller in s.scores && 0.0 <= b.proposed <= 1.0
    requires k !in s.pending && Passes(g, s.scores, s.scores[b.caller])
    ensures Run(g, s, [Weigh(k, b.caller, target, b.proposed), CheckGate(k), ReadTarget(k)])
         == s.(pending := s.pending[k :=
                 Voting(target, b.proposed, s.scores[b.caller], true, Some(Blend(s.scores, target, b)))])
  {
    hide Weighted, Passes, Run;
    RunThree(g, s, Weigh(k, b.caller, target, b.proposed), CheckGate(k), ReadTarget(k));
  }

  lemma BothReady(g: Gate, scores: Scores, target: NodeId, bs: seq<Ballot>)
    requires BothPass(g, scores, target, bs)
    ensures AllReady(Run(g, State(scores, map[]), BothRead(bs, target)), [0, 1])
  {
    hide Weighted, Passes, Run, Step;
    OneReads(g, State(scores, map[]), 0, target, bs[0]);
    var s := Run(g, State(scores, map[]), [Weigh(0, bs[0].caller, target, bs[0].proposed), CheckGate(0), ReadTarget(0)]);
    OneReads(g, s, 1, target, bs[1]);
    RunAppend(g, State(scores, map[]), [Weigh(0, bs[0].caller, target, bs[0].proposed), CheckGate(0), ReadTarget(0)],
      [Weigh(1, bs[1].caller, target, bs[1].proposed), CheckGate(1), ReadTarget(1)]);
  }

  ghost function Overlapping(g: Gate, scores: Scores, target: NodeId, bs: seq<Ballot>): Scores
    requires |bs| == 2
  {
    Run(g, Run(g, State(scores, map[]), BothRead(bs, target)), WriteAll([0, 1])).scores
  }

  ghost function TakingTurns(g: Gate, scores: Scores, target: NodeId, bs: seq<Ballot>): Scores {
    Run(g, State(scores, map[]), InTurn(target, bs)).scores
  }

  /** For two voters other than the target who both pass the gate to begin with, the first vote counts for
      nothing. If the second voter still passes after the first vote, the outcome is that of voting in
      turn exactly when the target already stands at what the first one proposes, the first one has no
      weight, or the second one has full weight. If it is turned away then, exactly when either vote alone
      comes to the same. */
  lemma LostVoteIff(g: Gate, scores: Scores, target: NodeId, bs: seq<Ballot>)
    requires BothPass(g, scores, target, bs) && bs[0].caller != target && bs[1].caller != target
    ensures var first, second := Blend(scores, target, bs[0]), Blend(scores, target, bs[1]);
            && Overlapping(g, scores, target, bs) == scores[target := second]
            && (Overlapping(g, scores, target, bs) == TakingTurns(g, scores, target, bs) <==>
                 if Passes(g, scores[target := first], scores[bs[1].caller]) then
                   scores[target] == bs[0].proposed || scores[bs[0].caller] == 0.0 || scores[bs[1].caller] == 1.0
                 else first == second)
  {
    hide Weighted, Run, AllReady, InTurn, WriteAll, BothRead, Passes;
    BothReady(g, scores, target, bs);
    assert forall i :: 0 <= i < |BothRead(bs, target)| ==> Reads(BothRead(bs, target)[i], target, bs) by {
      BothOnlyRead(bs, target);
    }
    OverlappingVotesLoseAllButLast(g, scores, target, bs, BothRead(bs, target), [0, 1]);
    LostVotesIff(g, scores, target, bs, BothRead(bs, target), [0, 1]);
    assert Chosen(bs, [0, 1]) == bs && [0, 1][..1] == [0] && Chosen(bs, [0]) == [bs[0]];
    FirstMatters(scores, target, bs[0]);
  }

  lemma BothOnlyRead(bs: seq<Ballot>, target: NodeId)
    requires |bs| == 2
    ensures forall i :: 0 <= i < |BothRead(bs, target)| ==> Reads(BothRead(bs, target)[i], target, bs)
  {
  }

  lemma FirstMatters(scores: Scores, target: NodeId, b: Ballot)
    requires Valid(scores, target, [b]) && b.caller in scores && 0.0 <= b.proposed <= 1.0
    ensures Blend(scores, target, b) == scores[target] <==> scores[target] == b.proposed || scores[b.caller] == 0.0
  {
    var c, p, w := scores[target], b.proposed, scores[b.caller];
    VoteContracts(c, p, w);
    EqualProducts(1.0 - w, 1.0, c - p);
    MulAdds(c - p, 1.0, w);
    MulAdds(1.0 - w, c - p, 0.0);
    MulAdds(1.0, c - p, 0.0);
    hide Mul, Weighted;
  }

  // ---------------------------------------------------------------------------
  // Two examples
  // ---------------------------------------------------------------------------

  lemma ListFirst(scores: Scores, ids: set<NodeId>, m: NodeId)
    requires ids <= scores.Keys && m in ids && forall x :: x in ids ==> m <= x
    ensures ListOf(scores, ids) == [scores[m]] + ListOf(scores, ids - {m})
  {
  }

  lemma ListOfThree(scores: Scores)
    requires scores.Keys == {1, 2, 3}
    ensures ListOf(scores, scores.Keys) == [scores[1], scores[2], scores[3]]
  {
    ListFirst(scores, {1, 2, 3}, 1);
    assert {1, 2, 3} - {1} == {2, 3} && {2, 3} - {2} == {3} && {3} - {3} == {};
    ListFirst(scores, {2, 3}, 2);
    ListFirst(scores, {3}, 3);
  }

  lemma ListOfFive(scores: Scores)
    requires scores.Keys == {1, 2, 3, 4, 5}
    ensures ListOf(scores, scores.Keys) == [scores[1], scores[2], scores[3], scores[4], scores[5]]
  {
    ListFirst(scores, {1, 2, 3, 4, 5}, 1);
    ListFirst(scores, {2, 3, 4, 5}, 2);
    assert {1, 2, 3, 4, 5} - {1} == {2, 3, 4, 5} && {2, 3, 4, 5} - {2} == {3, 4, 5};
    ListFirst(scores, {3, 4, 5}, 3);
    ListFirst(scores, {4, 5}, 4);
    ListFirst(scores, {5}, 5);
    assert {3, 4, 5} - {3} == {4, 5} && {4, 5} - {4} == {5} && {5} - {5} == {};
  }

  lemma SumsCons(x: real, xs: seq<real>)
    ensures Sum([x] + xs) == x + Sum(xs) && SumSq([x] + xs) == Square(x) + SumSq(xs)
  {
  }

  lemma SumsOfThree(a: real, b: real, c: real)
    ensures Sum([a, b, c]) == a + b + c && SumSq([a, b, c]) == Square(a) + Square(b) + Square(c)
  {
    SumsCons(c, []);
    SumsCons(b, [c]);
    SumsCons(a, [b, c]);
    assert [c] + [] == [c] && [b] + [c] == [b, c] && [a] + [b, c] == [a, b, c];
  }

  lemma SumsOfFive(a: real, b: real, c: real, d: real, e: real)
    ensures Sum([a, b, c, d, e]) == a + b + c + d + e
    ensures SumSq([a, b, c, d, e]) == Square(a) + Square(b) + Square(c) + Square(d) + Square(e)
  {
    SumsOfThree(c, d, e);
    SumsCons(b, [c, d, e]);
    SumsCons(a, [b, c, d, e]);
    assert [b] + [c, d, e] == [b, c, d, e] && [a] + [b, c, d, e] == [a, b, c, d, e];
  }

  /** At or above the mean everybody passes. */
  lemma MeanPasses(g: Gate, scores: Scores, weight: real)
    requires IsGate(g) && weight >= Mean(ListOf(scores, scores.Keys)) && weight >= 0.0
    ensures Passes(g, scores, weight)
  {
    var xs := ListOf(scores, scores.Keys);
    assert IsStddev(g.stddev(xs), xs);
    MulSigns(g.sigma, g.stddev(xs));
    hide Mul, Mean, IsStddev;
  }

  lemma CastTwo(g: Gate, scores: Scores, target: NodeId, b: Ballot, b': Ballot)
    requires Valid(scores, target, [b, b'])
    ensures b.caller in scores && b'.caller in scores
    ensures CastAll(g, scores, target, [b, b']) == Cast(g, Cast(g, scores, target, b), target, b')
  {
    hide Cast;
    assert [b, b'][0] == b && [b, b'][1] == b' && [b, b'] == [b] + [b'];
    CastLast(g, scores, target, [b], b');
  }

  /** Half a weight, on a peer that stands at 0. */
  lemma HalfWeight(scores: Scores, target: NodeId, b: Ballot)
    requires target in scores && b.caller in scores && b.caller != target
    requires scores[target] == 0.0 && scores[b.caller] == 0.5 && b.proposed == 1.0
    ensures Blend(scores, target, b) == 0.5 && Blend(scores[target := 0.5], target, b) == 0.75
  {
  }

  /** A vote is lost: two peers of reputation one half both propose 1 for a peer that stands at 0. Voting
      in turn, passing the gate each time, they lift it to three quarters; overlapping, to one half. */
  lemma VoteCanBeLost(g: Gate, scores: Scores, bs: seq<Ballot>)
    requires IsGate(g)
    requires scores == map[1 := 0.5, 2 := 0.5, 3 := 0.0] && bs == [Ballot(1, 1.0), Ballot(2, 1.0)]
    ensures BothPass(g, scores, 3, bs)
    ensures Overlapping(g, scores, 3, bs) == scores[3 := 0.5]
    ensures TakingTurns(g, scores, 3, bs) == scores[3 := 0.75]
  {
    hide Run, Weighted, InTurn, WriteAll, BothRead, Blend, CastAll, Passes, IsGate, Mean, ListOf;
    var after := scores[3 := 0.5];
    MeansOfThree(scores, after);
    MeanPasses(g, scores, 0.5);
    MeanPasses(g, after, 0.5);
    HalfWeight(scores, 3, bs[0]);
    HalfWeight(scores, 3, bs[1]);
    LostVoteIff(g, scores, 3, bs);
    InTurnCastsAll(g, scores, 3, bs);
    CastTwo(g, scores, 3, bs[0], bs[1]);
  }

  lemma MeansOfThree(scores: Scores, after: Scores)
    requires scores == map[1 := 0.5, 2 := 0.5, 3 := 0.0] && after == scores[3 := 0.5]
    ensures Mean(ListOf(scores, scores.Keys)) <= 0.5 && Mean(ListOf(after, after.Keys)) <= 0.5
  {
    ListOfThree(scores);
    ListOfThree(after);
    SumsOfThree(0.5, 0.5, 0.0);
    SumsOfThree(0.5, 0.5, 0.5);
    hide Sum, ListOf;
  }

  lemma RootBounds(s: real, v: real, b: real)
    requires s >= 0.0 && b >= 0.0 && Square(s) == v
    ensures Square(b) < v ==> b < s
    ensures v < Square(b) ==> s < b
  {
    if s <= b {
      SquareMonotone(s, b);
    } else {
      SquareMonotone(b, s);
    }
  }

  /** The bar before and after the first vote: 0.7 - 0.4, and above 0.5. */
  lemma BarsOfFive(g: Gate, scores: Scores, after: Scores)
    requires IsGate(g) && g.sigma == 1.0
    requires scores == map[1 := 1.0, 2 := 1.0, 3 := 1.0, 4 := 0.5, 5 := 0.0] && after == scores[5 := 0.5]
    ensures Passes(g, scores, 0.5) && Passes(g, scores, 1.0) && !Passes(g, after, 0.5)
  {
    ListOfFive(scores);
    ListOfFive(after);
    var xs, ys := [1.0, 1.0, 1.0, 0.5, 0.0], [1.0, 1.0, 1.0, 0.5, 0.5];
    SumsOfFive(1.0, 1.0, 1.0, 0.5, 0.0);
    SumsOfFive(1.0, 1.0, 1.0, 0.5, 0.5);
    assert Mean(xs) == 0.7 && Variance(xs) == 0.16 && Mean(ys) == 0.8 && Variance(ys) == 0.06;
    assert IsStddev(g.stddev(xs), xs) && IsStddev(g.stddev(ys), ys);
    hide Sum, SumSq, ListOf, Mean, Variance;
    RootBounds(g.stddev(xs), 0.16, 0.2);
    RootBounds(g.stddev(ys), 0.06, 0.3);
  }

  /** A vote can be turned away at its turn: with sigma 1 and four other scores of 1, 1, 1 and one half, a
      first vote lifts the target from 0 to one half and with it the bar above one half. The voter of
      reputation one half, who would have passed at the start, gets nowhere; had the two overlapped, only
      its vote would have counted. Here both ways the target ends at one half. */
  lemma VoterCanBeTurnedAway(g: Gate, scores: Scores, bs: seq<Ballot>)
    requires IsGate(g) && g.sigma == 1.0
    requires scores == map[1 := 1.0, 2 := 1.0, 3 := 1.0, 4 := 0.5, 5 := 0.0]
    requires bs == [Ballot(1, 0.5), Ballot(4, 1.0)]
    ensures BothPass(g, scores, 5, bs) && !Passes(g, scores[5 := 0.5], 0.5)
    ensures Overlapping(g, scores, 5, bs) == TakingTurns(g, scores, 5, bs) == scores[5 := 0.5]
  {
    hide Run, Weighted, InTurn, WriteAll, BothRead, Blend, Passes, IsGate, CastAll;
    BarsOfFive(g, scores, scores[5 := 0.5]);
    HalfWeight(scores, 5, bs[1]);
    FullWeight(scores, 5, bs[0]);
    LostVoteIff(g, scores, 5, bs);
  }

  lemma FullWeight(scores: Scores, target: NodeId, b: Ballot)
    requires target in scores && b.caller in scores && scores[b.caller] == 1.0 && 0.0 <= b.proposed <= 1.0
    ensures Blend(scores, target, b) == b.proposed
  {
  }
}
