/** Submissions and federated insertions racing for the same ids. Each request is a job that makes one
    storage call per step, and the steps of all jobs interleave freely. */
module InsertOnce {
  import opened Units
  import opened MemoryStorage

  type JobId = nat

  /** A submission with the caller's proven DID, if any, and the results of unit validation and of
      checking the proof; or a unit on a page pulled from a peer, with the peer's reputation and the
      author's reputation as the peer reports it. */
  datatype Origin =
    | Submit(caller: Option<Did>, valid: bool, proofHolds: bool)
    | Pull(peerReputation: real, authorReputation: Option<real>)

  /** How a job ends: inserted (201 for a submission), the stored unit is the same (200), it differs
      (409), the insertion of a pulled unit was skipped, refused with a status, or a storage failure (500). */
  datatype Outcome = Inserted | Same | Differs | Skipped | Refused(status: nat) | Failed

  datatype Phase = Arrived | Clashed | Stored | Rated(credibility: real) | Finished(outcome: Outcome)

  datatype Job = Job(unit: Unit, origin: Origin, phase: Phase) {
    /** The job has put its unit into the store. */
    predicate Won() {
      phase.Stored? || phase.Rated? || phase == Finished(Inserted)
    }

    /** The job may still write a credibility and start deliveries. */
    predicate Pending() {
      phase.Stored? || phase.Rated?
    }

    predicate IsCreated() {
      origin.Submit? && phase == Finished(Inserted)
    }

    function At(p: Phase): Job {
      this.(phase := p)
    }
  }

  /** The node: the unit and credibility tables, the reputations of registered agents, the requests so
      far, the ids whose credibility was written, the units sent to stream subscribers, and the units
      whose fan-out was started. */
  datatype State = State(
    units: UnitMap, credibility: map<Id, real>, agents: map<Did, real>, jobs: map<JobId, Job>,
    writes: seq<Id>, broadcast: seq<Unit>, fanOuts: seq<Unit>)

  datatype Action =
    | Arrive(k: JobId, unit: Unit, origin: Origin)
    | Advance(k: JobId, fault: bool)
    | SetReputation(did: Did, reputation: real)

  /** The checks before any storage call. Non-public units must be submitted by their author. */
  function Refusal(u: Unit, o: Origin): Option<nat>
    requires o.Submit?
  {
    if !o.valid then Some(422)
    else if !o.proofHolds then Some(400)
    else if u.IsPublic() then None
    else if o.caller.None? then Some(401)
    else if o.caller.value != u.author then Some(403)
    else None
  }

  function Reputation(r: Option<real>): real {
    if r.Some? then r.value else 0.5
  }

  function Lookup(agents: map<Did, real>, did: Did): Option<real> {
    if did in agents then Some(agents[did]) else None
  }

  /** The phase a job enters when its unit has been inserted. */
  function AfterInsert(o: Origin): Phase {
    if o.Submit? then Stored else Rated(o.peerReputation * Reputation(o.authorReputation))
  }

  function Put(s: State, k: JobId, fault: bool): State
    requires k in s.jobs
  {
    var t := s.jobs[k];
    if t.origin.Submit? && Refusal(t.unit, t.origin).Some? then
      s.(jobs := s.jobs[k := t.At(Finished(Refused(Refusal(t.unit, t.origin).value)))])
    else if fault then s.(jobs := s.jobs[k := t.At(Finished(Failed))])
    else if t.unit.id in s.units then
      s.(jobs := s.jobs[k := t.At(if t.origin.Submit? then Clashed else Finished(Skipped))])
    else s.(units := s.units[t.unit.id := t.unit], jobs := s.jobs[k := t.At(AfterInsert(t.origin))])
  }

  /** After a conflict the stored unit decides between 200 and 409. */
  function Compare(s: State, t: Job, fault: bool): Outcome {
    if fault || t.unit.id !in s.units then Failed
    else if s.units[t.unit.id] == t.unit then Same
    else Differs
  }

  /** The credibility is written if it can be; then the public unit is broadcast and, for a submission,
      the fan-out starts. */
  function Conclude(s: State, k: JobId, credibility: real, fault: bool): State
    requires k in s.jobs
  {
    var t := s.jobs[k];
    var written := !fault && t.unit.id in s.units;
    State(s.units,
          if written then s.credibility[t.unit.id := Clamp(credibility)] else s.credibility,
          s.agents,
          s.jobs[k := t.At(Finished(Inserted))],
          if written then s.writes + [t.unit.id] else s.writes,
          if t.origin.Submit? && t.unit.IsPublic() then s.broadcast + [t.unit] else s.broadcast,
          if t.origin.Submit? then s.fanOuts + [t.unit] else s.fanOuts)
  }

  function AdvanceJob(s: State, k: JobId, fault: bool): State
    requires k in s.jobs
  {
    var t := s.jobs[k];
    match t.phase
    case Arrived => Put(s, k, fault)
    case Clashed => s.(jobs := s.jobs[k := t.At(Finished(Compare(s, t, fault)))])
    case Stored =>
      var r := if fault then None else Lookup(s.agents, t.unit.author);
      s.(jobs := s.jobs[k := t.At(Rated(Reputation(r)))])
    case Rated(c) => Conclude(s, k, c, fault)
    case Finished(_) => s
  }

  function Step(s: State, a: Action): State {
    match a
    case Arrive(k, u, o) => if k in s.jobs then s else s.(jobs := s.jobs[k := Job(u, o, Arrived)])
    case Advance(k, fault) => if k in s.jobs then AdvanceJob(s, k, fault) else s
    case SetReputation(did, r) => s.(agents := s.agents[did := r])
  }

  function Run(s: State, actions: seq<Action>): State
    decreases |actions|
  {
    if actions == [] then s else Run(Step(s, actions[0]), actions[1..])
  }

  // ---------------------------------------------------------------------------
  // The invariant
  // ---------------------------------------------------------------------------

  ghost predicate Tables(s: State) {
    && Keyed(s.units)
    && s.credibility.Keys <= s.units.Keys
    && forall id: Id :: id in s.credibility ==> 0.0 <= s.credibility[id] <= 1.0
  }

  /** The unit a winner brought is the stored one, and no id has two winners. */
  ghost predicate OneWinner(s: State) {
    && (forall k: JobId :: k in s.jobs && s.jobs[k].Won() ==>
          s.jobs[k].unit.id in s.units && s.units[s.jobs[k].unit.id] == s.jobs[k].unit)
    && (forall j: JobId, k: JobId ::
          j in s.jobs && k in s.jobs && s.jobs[j].Won() && s.jobs[k].Won() && s.jobs[j].unit.id == s.jobs[k].unit.id ==>
          j == k)
  }

  /** What a pending winner will still do has not been done for its id. */
  ghost predicate NotYet(s: State, id: Id) {
    && id !in s.credibility
    && id !in s.writes
    && (forall i :: 0 <= i < |s.fanOuts| ==> s.fanOuts[i].id != id)
    && (forall i :: 0 <= i < |s.broadcast| ==> s.broadcast[i].id != id)
  }

  ghost predicate PendingNotYet(s: State) {
    forall k: JobId :: k in s.jobs && s.jobs[k].Pending() ==> NotYet(s, s.jobs[k].unit.id)
  }

  /** Only stored ids have effects, and each effect happened once. */
  ghost predicate EffectsOnce(s: State) {
    && Distinct(s.writes) && DistinctIds(s.fanOuts) && DistinctIds(s.broadcast)
    && (forall i :: 0 <= i < |s.writes| ==> s.writes[i] in s.units)
    && (forall i :: 0 <= i < |s.fanOuts| ==> s.fanOuts[i].id in s.units)
    && (forall i :: 0 <= i < |s.broadcast| ==> s.broadcast[i].id in s.units)
  }

  /** A unit's fan-out was started if and only if its submission was answered 201, and it was broadcast
      if and only if it is moreover public. */
  ghost predicate FanOutIffCreated(s: State) {
    && (forall k: JobId :: k in s.jobs && s.jobs[k].IsCreated() ==> s.jobs[k].unit in s.fanOuts)
    && (forall u :: u in s.fanOuts ==> exists k: JobId :: k in s.jobs && s.jobs[k].IsCreated() && s.jobs[k].unit == u)
    && (forall u :: u in s.broadcast <==> u in s.fanOuts && u.IsPublic())
  }

  /** What the other phases tell about the store. */
  ghost predicate RepliesTrue(s: State) {
    forall k: JobId :: k in s.jobs ==> ReplyTrue(s, s.jobs[k])
  }

  ghost predicate ReplyTrue(s: State, t: Job) {
    match t.phase
    case Clashed => t.unit.id in s.units
    case Finished(Same) => t.unit.id in s.units && s.units[t.unit.id] == t.unit
    case Finished(Differs) => t.unit.id in s.units && s.units[t.unit.id] != t.unit
    case Finished(Skipped) => t.unit.id in s.units
    case _ => true
  }

  /** Submissions past the checks passed them. */
  ghost predicate Authorised(s: State) {
    forall k: JobId :: k in s.jobs && s.jobs[k].origin.Submit? && s.jobs[k].Won() ==>
      Refusal(s.jobs[k].unit, s.jobs[k].origin).None?
  }

  ghost predicate Settled(s: State) {
    Tables(s) && OneWinner(s) && RepliesTrue(s) && Authorised(s)
  }

  ghost predicate Inv(s: State) {
    Settled(s) && PendingNotYet(s) && EffectsOnce(s) && FanOutIffCreated(s)
  }

  // ---------------------------------------------------------------------------
  // Every step keeps the invariant
  // ---------------------------------------------------------------------------

  /** A step that changes nothing but the phase of one job, or adds a job. */
  ghost predicate SameRole(s: State, t: Job, t': Job) {
    && t'.unit == t.unit && t'.origin == t.origin
    && t'.Won() == t.Won() && t'.Pending() == t.Pending() && t'.IsCreated() == t.IsCreated()
    && ReplyTrue(s, t')
  }

  /** The submissions answered 201 and their units. */
  ghost predicate SameCreated(s: State, s': State) {
    && (forall k: JobId :: k in s.jobs && s.jobs[k].IsCreated() ==>
          k in s'.jobs && s'.jobs[k].IsCreated() && s'.jobs[k].unit == s.jobs[k].unit)
    && (forall k: JobId :: k in s'.jobs && s'.jobs[k].IsCreated() ==>
          k in s.jobs && s.jobs[k].IsCreated() && s'.jobs[k].unit == s.jobs[k].unit)
  }

  lemma SameCreatedKeeps(s: State, s': State)
    requires FanOutIffCreated(s) && SameCreated(s, s') && s'.fanOuts == s.fanOuts && s'.broadcast == s.broadcast
    ensures FanOutIffCreated(s')
  {
  }

  lemma RephaseKeepsInv(s: State, k: JobId, t': Job)
    requires Inv(s) && k in s.jobs && SameRole(s, s.jobs[k], t')
    ensures Inv(s.(jobs := s.jobs[k := t']))
  {
    hide Settled, PendingNotYet, EffectsOnce, FanOutIffCreated;
    var s' := s.(jobs := s.jobs[k := t']);
    assert SameCreated(s, s');
    SameCreatedKeeps(s, s');
    SameEffects(s, s');
    RephaseKeepsPending(s, k, t');
    RephaseKeepsSettled(s, k, t');
  }

  lemma SameEffects(s: State, s': State)
    requires EffectsOnce(s) && s.units.Keys <= s'.units.Keys
    requires s'.writes == s.writes && s'.fanOuts == s.fanOuts && s'.broadcast == s.broadcast
    ensures EffectsOnce(s')
  {
  }

  lemma RephaseKeepsSettled(s: State, k: JobId, t': Job)
    requires Settled(s) && k in s.jobs && SameRole(s, s.jobs[k], t')
    ensures Settled(s.(jobs := s.jobs[k := t']))
  {
  }

  lemma RephaseKeepsPending(s: State, k: JobId, t': Job)
    requires PendingNotYet(s) && k in s.jobs && SameRole(s, s.jobs[k], t')
    ensures PendingNotYet(s.(jobs := s.jobs[k := t']))
  {
  }

  lemma ArrivalKeepsInv(s: State, k: JobId, t: Job)
    requires Inv(s) && k !in s.jobs && t.phase.Arrived?
    ensures Inv(s.(jobs := s.jobs[k := t]))
  {
    hide Settled, PendingNotYet, EffectsOnce, FanOutIffCreated;
    var s' := s.(jobs := s.jobs[k := t]);
    assert SameCreated(s, s');
    SameCreatedKeeps(s, s');
    SameEffects(s, s');
    ArrivalKeepsPending(s, k, t);
    ArrivalKeepsSettled(s, k, t);
  }

  lemma ArrivalKeepsSettled(s: State, k: JobId, t: Job)
    requires Settled(s) && k !in s.jobs && t.phase.Arrived?
    ensures Settled(s.(jobs := s.jobs[k := t]))
  {
    var s' := s.(jobs := s.jobs[k := t]);
    forall j: JobId | j in s'.jobs ensures ReplyTrue(s', s'.jobs[j]) {
      assert j != k ==> ReplyTrue(s, s.jobs[j]);
    }
  }

  lemma ArrivalKeepsPending(s: State, k: JobId, t: Job)
    requires PendingNotYet(s) && k !in s.jobs && t.phase.Arrived?
    ensures PendingNotYet(s.(jobs := s.jobs[k := t]))
  {
  }

  /** The job `k` is about to insert its unit. */
  ghost predicate Inserting(s: State, k: JobId) {
    && k in s.jobs && s.jobs[k].phase.Arrived? && s.jobs[k].unit.id !in s.units
    && (s.jobs[k].origin.Submit? ==> Refusal(s.jobs[k].unit, s.jobs[k].origin).None?)
  }

  lemma InsertKeepsInv(s: State, k: JobId)
    requires Inv(s) && Inserting(s, k)
    ensures Inv(Put(s, k, false))
  {
    hide Tables, OneWinner, RepliesTrue, Authorised, PendingNotYet, EffectsOnce, FanOutIffCreated;
    var s' := Put(s, k, false);
    assert SameCreated(s, s');
    SameCreatedKeeps(s, s');
    SameEffects(s, s');
    InsertKeepsPending(s, k);
    InsertKeepsSettled(s, k);
  }

  lemma InsertKeepsReplies(s: State, k: JobId)
    requires RepliesTrue(s) && Inserting(s, k)
    ensures RepliesTrue(Put(s, k, false))
  {
  }

  lemma InsertKeepsSettled(s: State, k: JobId)
    requires Settled(s) && Inserting(s, k)
    ensures Settled(Put(s, k, false))
  {
    InsertKeepsReplies(s, k);
    hide RepliesTrue;
  }

  lemma InsertKeepsPending(s: State, k: JobId)
    requires PendingNotYet(s) && EffectsOnce(s) && Tables(s) && Inserting(s, k)
    ensures PendingNotYet(Put(s, k, false))
  {
  }

  lemma ConcludeKeepsInv(s: State, k: JobId, c: real, fault: bool)
    requires Inv(s) && k in s.jobs && s.jobs[k].phase.Rated?
    ensures Inv(Conclude(s, k, c, fault))
  {
    hide Tables, OneWinner, RepliesTrue, Authorised, PendingNotYet, EffectsOnce, FanOutIffCreated;
    ConcludeKeepsCreated(s, k, c, fault);
    ConcludeKeepsPending(s, k, c, fault);
    ConcludeKeepsEffects(s, k, c, fault);
    ConcludeKeepsSettled(s, k, c, fault);
  }

  lemma ConcludeKeepsSettled(s: State, k: JobId, c: real, fault: bool)
    requires Settled(s) && k in s.jobs && s.jobs[k].phase.Rated?
    ensures Settled(Conclude(s, k, c, fault))
  {
  }

  lemma ConcludeKeepsCreated(s: State, k: JobId, c: real, fault: bool)
    requires FanOutIffCreated(s) && k in s.jobs && s.jobs[k].phase.Rated?
    ensures FanOutIffCreated(Conclude(s, k, c, fault))
  {
    var s' := Conclude(s, k, c, fault);
    forall u | u in s'.fanOuts ensures exists j: JobId :: j in s'.jobs && s'.jobs[j].IsCreated() && s'.jobs[j].unit == u {
      if u in s.fanOuts {
        var j: JobId :| j in s.jobs && s.jobs[j].IsCreated() && s.jobs[j].unit == u;
        assert j in s'.jobs && s'.jobs[j].IsCreated() && s'.jobs[j].unit == u;
      } else {
        assert k in s'.jobs && s'.jobs[k].IsCreated() && s'.jobs[k].unit == u;
      }
    }
  }

  lemma ConcludeKeepsPending(s: State, k: JobId, c: real, fault: bool)
    requires PendingNotYet(s) && OneWinner(s) && k in s.jobs && s.jobs[k].phase.Rated?
    ensures PendingNotYet(Conclude(s, k, c, fault))
  {
    var s' := Conclude(s, k, c, fault);
    forall j: JobId | j in s'.jobs && s'.jobs[j].Pending() ensures NotYet(s', s'.jobs[j].unit.id) {
      assert j != k && s.jobs[j].Pending() && s.jobs[j].Won() && s.jobs[k].Won();
      assert s.jobs[j].unit.id != s.jobs[k].unit.id;
    }
  }

  lemma ConcludeKeepsEffects(s: State, k: JobId, c: real, fault: bool)
    requires PendingNotYet(s) && EffectsOnce(s) && OneWinner(s)
    requires k in s.jobs && s.jobs[k].phase.Rated?
    ensures EffectsOnce(Conclude(s, k, c, fault))
  {
    var t, s' := s.jobs[k], Conclude(s, k, c, fault);
    assert t.Pending() && t.Won() && NotYet(s, t.unit.id);
    hide PendingNotYet, OneWinner;
    DistinctAppend(s.writes, t.unit.id);
    hide Distinct, DistinctIds;
  }

  lemma DistinctAppend(ids: seq<Id>, id: Id)
    requires Distinct(ids) && id !in ids
    ensures Distinct(ids + [id])
  {
  }

  lemma StepKeepsInv(s: State, a: Action)
    requires Inv(s)
    ensures Inv(Step(s, a))
  {
    hide Inv;
    match a
    case Arrive(k, u, o) =>
      if k !in s.jobs {
        ArrivalKeepsInv(s, k, Job(u, o, Arrived));
      }
    case Advance(k, fault) =>
      if k in s.jobs {
        AdvanceKeepsInv(s, k, fault);
      }
    case SetReputation(did, r) =>
      ReputationKeepsInv(s, did, r);
  }

  lemma ReputationKeepsInv(s: State, did: Did, r: real)
    requires Inv(s)
    ensures Inv(s.(agents := s.agents[did := r]))
  {
    var s' := s.(agents := s.agents[did := r]);
    assert SameCreated(s, s');
    SameCreatedKeeps(s, s');
    hide FanOutIffCreated;
  }

  lemma AdvanceKeepsInv(s: State, k: JobId, fault: bool)
    requires Inv(s) && k in s.jobs
    ensures Inv(AdvanceJob(s, k, fault))
  {
    hide Inv;
    var t := s.jobs[k];
    match t.phase
    case Arrived =>
      var refused := t.origin.Submit? && Refusal(t.unit, t.origin).Some?;
      if !refused && !fault && t.unit.id !in s.units {
        InsertKeepsInv(s, k);
      } else {
        RephaseKeepsInv(s, k, Put(s, k, fault).jobs[k]);
      }
    case Clashed =>
      RephaseKeepsInv(s, k, t.At(Finished(Compare(s, t, fault))));
    case Stored =>
      RephaseKeepsInv(s, k, AdvanceJob(s, k, fault).jobs[k]);
    case Rated(c) =>
      ConcludeKeepsInv(s, k, c, fault);
    case Finished(_) =>
  }

  lemma {:induction false} RunKeepsInv(s: State, actions: seq<Action>)
    requires Inv(s)
    ensures Inv(Run(s, actions))
    decreases |actions|
  {
    if actions != [] {
      StepKeepsInv(s, actions[0]);
      RunKeepsInv(Step(s, actions[0]), actions[1..]);
    }
  }

  // ---------------------------------------------------------------------------
  // What holds of every run
  // ---------------------------------------------------------------------------

  ghost predicate CredibilityExtends(a: map<Id, real>, b: map<Id, real>) {
    forall id: Id :: id in a ==> id in b && b[id] == a[id]
  }

  /** Nothing stored changes, nothing sent is taken back, and a job that has ended stays as it is. */
  ghost predicate Later(s: State, s': State) {
    && Extends(s.units, s'.units)
    && CredibilityExtends(s.credibility, s'.credibility)
    && (forall k: JobId :: k in s.jobs && s.jobs[k].phase.Finished? ==> k in s'.jobs && s'.jobs[k] == s.jobs[k])
    && (forall k: JobId :: k in s.jobs ==> k in s'.jobs && s'.jobs[k].unit == s.jobs[k].unit)
    && (forall k: JobId :: k in s.jobs && s.jobs[k].unit.id in s.units && !s.jobs[k].Won() ==> !s'.jobs[k].Won())
  }

  lemma LaterComposes(s: State, s': State, s'': State)
    requires Later(s, s') && Later(s', s'')
    ensures Later(s, s'')
  {
  }

  /** What one step of a job does to the job and to the tables. */
  ghost predicate Moves(s: State, s': State, k: JobId)
    requires k in s.jobs
  {
    && k in s'.jobs && s'.jobs == s.jobs[k := s'.jobs[k]]
    && var t, t' := s.jobs[k], s'.jobs[k];
    && t'.unit == t.unit
    && (t.phase.Finished? ==> t' == t)
    && (t.Won() ==> t'.Won())
    && (if t'.Won() && !t.Won() then t.unit.id !in s.units && s'.units == s.units[t.unit.id := t.unit]
        else s'.units == s.units)
    && (s'.credibility == s.credibility || (t.Pending() && s'.credibility.Keys == s.credibility.Keys + {t.unit.id}
          && forall id: Id :: id in s.credibility && id != t.unit.id ==> s'.credibility[id] == s.credibility[id]))
  }

  lemma PutMoves(s: State, k: JobId, fault: bool)
    requires k in s.jobs && s.jobs[k].phase.Arrived?
    ensures Moves(s, Put(s, k, fault), k)
  {
  }

  lemma ConcludeMoves(s: State, k: JobId, c: real, fault: bool)
    requires k in s.jobs && s.jobs[k].phase.Rated?
    ensures Moves(s, Conclude(s, k, c, fault), k)
  {
  }

  lemma RephaseMoves(s: State, k: JobId, p: Phase)
    requires k in s.jobs && !s.jobs[k].phase.Finished? && s.jobs[k].At(p).Won() == s.jobs[k].Won()
    ensures Moves(s, s.(jobs := s.jobs[k := s.jobs[k].At(p)]), k)
  {
  }

  lemma AdvanceMoves(s: State, k: JobId, fault: bool)
    requires k in s.jobs
    ensures Moves(s, AdvanceJob(s, k, fault), k)
  {
    hide Put, Conclude, Moves;
    match s.jobs[k].phase
    case Arrived => PutMoves(s, k, fault);
    case Rated(c) => ConcludeMoves(s, k, c, fault);
    case Clashed => RephaseMoves(s, k, AdvanceJob(s, k, fault).jobs[k].phase);
    case Stored => RephaseMoves(s, k, AdvanceJob(s, k, fault).jobs[k].phase);
    case Finished(_) => FinishedMoves(s, k);
  }

  lemma FinishedMoves(s: State, k: JobId)
    requires k in s.jobs && s.jobs[k].phase.Finished?
    ensures Moves(s, s, k)
  {
  }

  lemma MovesIsLater(s: State, s': State, k: JobId)
    requires k in s.jobs && PendingNotYet(s) && Moves(s, s', k)
    ensures Later(s, s')
  {
  }

  lemma StepIsLater(s: State, a: Action)
    requires PendingNotYet(s)
    ensures Later(s, Step(s, a))
  {
    hide AdvanceJob, PendingNotYet;
    if a.Advance? && a.k in s.jobs {
      AdvanceMoves(s, a.k, a.fault);
      hide Later, Moves;
      MovesIsLater(s, Step(s, a), a.k);
    }
  }

  /** Whatever the requests and however they interleave: no stored unit and no credibility ever changes. */
  lemma {:induction false} RunOverwritesNothing(s: State, actions: seq<Action>)
    requires Inv(s)
    ensures Later(s, Run(s, actions))
    decreases |actions|
  {
    hide Later;
    if actions == [] {
      assert Later(s, s) by { LaterReflexive(s); }
    } else {
      var s' := Step(s, actions[0]);
      StepIsLater(s, actions[0]);
      StepKeepsInv(s, actions[0]);
      RunOverwritesNothing(s', actions[1..]);
      LaterComposes(s, s', Run(s', actions[1..]));
    }
  }

  lemma LaterReflexive(s: State)
    ensures Later(s, s)
  {
  }

  /** Every stored id was there at the start or was put there by a job, never both. */
  ghost predicate Accounted(initial: UnitMap, s: State) {
    && Extends(initial, s.units)
    && (forall id: Id :: id in s.units && id !in initial ==> exists k: JobId :: k in s.jobs && WinnerOf(s.jobs[k], id))
    && (forall k: JobId :: k in s.jobs && s.jobs[k].Won() ==> s.jobs[k].unit.id !in initial)
  }

  predicate WinnerOf(t: Job, id: Id) {
    t.Won() && t.unit.id == id
  }

  lemma MovesKeepsAccounted(initial: UnitMap, s: State, s': State, k: JobId)
    requires k in s.jobs && Moves(s, s', k) && Accounted(initial, s)
    ensures Accounted(initial, s')
  {
    forall id: Id | id in s'.units && id !in initial ensures exists j: JobId :: j in s'.jobs && WinnerOf(s'.jobs[j], id) {
      if id in s.units {
        var j: JobId :| j in s.jobs && WinnerOf(s.jobs[j], id);
        assert j in s'.jobs && WinnerOf(s'.jobs[j], id);
      } else {
        assert k in s'.jobs && WinnerOf(s'.jobs[k], id);
      }
    }
  }

  lemma ArrivalKeepsAccounted(initial: UnitMap, s: State, k: JobId, t: Job)
    requires k !in s.jobs && t.phase.Arrived? && Accounted(initial, s)
    ensures Accounted(initial, s.(jobs := s.jobs[k := t]))
  {
    var s' := s.(jobs := s.jobs[k := t]);
    forall id: Id | id in s'.units && id !in initial ensures exists j: JobId :: j in s'.jobs && WinnerOf(s'.jobs[j], id) {
      var j: JobId :| j in s.jobs && WinnerOf(s.jobs[j], id);
      assert j in s'.jobs && WinnerOf(s'.jobs[j], id);
    }
  }

  lemma StepKeepsAccounted(initial: UnitMap, s: State, a: Action)
    requires Accounted(initial, s)
    ensures Accounted(initial, Step(s, a))
  {
    hide AdvanceJob, Moves;
    if a.Arrive? && a.k !in s.jobs {
      ArrivalKeepsAccounted(initial, s, a.k, Job(a.unit, a.origin, Arrived));
    } else if a.Advance? && a.k in s.jobs {
      AdvanceMoves(s, a.k, a.fault);
      MovesKeepsAccounted(initial, s, Step(s, a), a.k);
    }
  }

  lemma {:induction false} RunKeepsAccounted(initial: UnitMap, s: State, actions: seq<Action>)
    requires Inv(s) && Accounted(initial, s)
    ensures Accounted(initial, Run(s, actions))
    decreases |actions|
  {
    hide Accounted;
    if actions != [] {
      StepKeepsInv(s, actions[0]);
      StepKeepsAccounted(initial, s, actions[0]);
      RunKeepsAccounted(initial, Step(s, actions[0]), actions[1..]);
    }
  }

  ghost predicate GoodStart(s: State) {
    && Tables(s) && s.jobs == map[] && s.writes == [] && s.broadcast == [] && s.fanOuts == []
  }

  /** The credibilities are those of the start and those written since. */
  ghost predicate WritesLogged(initial: map<Id, real>, s: State) {
    forall id :: id in s.credibility <==> id in initial || id in s.writes
  }

  lemma StepKeepsWritesLogged(initial: map<Id, real>, s: State, a: Action)
    requires WritesLogged(initial, s)
    ensures WritesLogged(initial, Step(s, a))
  {
    hide Refusal, Compare, AfterInsert, Clamp;
  }

  lemma {:induction false} RunKeepsWritesLogged(initial: map<Id, real>, s: State, actions: seq<Action>)
    requires WritesLogged(initial, s)
    ensures WritesLogged(initial, Run(s, actions))
    decreases |actions|
  {
    hide WritesLogged, Step;
    if actions != [] {
      StepKeepsWritesLogged(initial, s, actions[0]);
      RunKeepsWritesLogged(initial, Step(s, actions[0]), actions[1..]);
    }
  }

  /** Insert-once, over every interleaving of submissions, pulled units and reputation changes: an id
      that was not there at the start is stored exactly when one job, and no second one, inserted it,
      and then the stored unit is that job's; every credibility is written at most once and lies in
      [0, 1]; and no unit is fanned out or broadcast twice. */
  lemma StoredOnce(start: State, actions: seq<Action>, id: Id)
    requires GoodStart(start) && id !in start.units
    ensures var s := Run(start, actions);
            && (id in s.units <==> exists k: JobId :: k in s.jobs && WinnerOf(s.jobs[k], id))
            && (forall k: JobId :: k in s.jobs && WinnerOf(s.jobs[k], id) ==> s.units[id] == s.jobs[k].unit)
            && (forall j: JobId, k: JobId ::
                  j in s.jobs && k in s.jobs && WinnerOf(s.jobs[j], id) && WinnerOf(s.jobs[k], id) ==> j == k)
            && Distinct(s.writes) && DistinctIds(s.fanOuts) && DistinctIds(s.broadcast)
            && (id in s.credibility <==> id in s.writes)
            && (id in s.credibility ==> 0.0 <= s.credibility[id] <= 1.0)
  {
    RunKeepsInv(start, actions);
    RunKeepsAccounted(start.units, start, actions);
    RunKeepsWritesLogged(start.credibility, start, actions);
  }

  /** Fan-out starts for exactly the submissions answered 201, of which there is at most one per id. */
  lemma FanOutsAreTheCreated(start: State, actions: seq<Action>)
    requires GoodStart(start)
    ensures var s := Run(start, actions);
            && (forall u :: u in s.fanOuts <==> exists k: JobId :: k in s.jobs && s.jobs[k].IsCreated() && s.jobs[k].unit == u)
            && (forall j: JobId, k: JobId ::
                  (j in s.jobs && k in s.jobs && s.jobs[j].IsCreated() && s.jobs[k].IsCreated()
                    && s.jobs[j].unit.id == s.jobs[k].unit.id) ==> j == k)
            && (forall u :: u in s.broadcast <==> u in s.fanOuts && u.IsPublic())
  {
    RunKeepsInv(start, actions);
  }

  /** A reply stays true: after 201 or 200 the node holds exactly the submitted unit for good, and after
      409 it holds a different one under that id for good. */
  lemma RepliesStayTrue(s: State, k: JobId, later: seq<Action>)
    requires Inv(s) && k in s.jobs && s.jobs[k].phase.Finished?
    ensures var u, held := s.jobs[k].unit, Run(s, later).units;
            && (s.jobs[k].phase.outcome in {Inserted, Same} ==> u.id in held && held[u.id] == u)
            && (s.jobs[k].phase.outcome == Differs ==> u.id in held && held[u.id] != u)
  {
    RunOverwritesNothing(s, later);
    assert ReplyTrue(s, s.jobs[k]);
  }

  /** Resubmission changes nothing: once an id is stored, the steps of every other job for that id, at
      any later time, touch nothing but the job itself; and if it is a submission that passes the
      checks and no storage call fails, it ends with 200 or 409 according to the stored unit. */
  lemma ResubmissionChangesNothing(s: State, k: JobId, later: seq<Action>, fault: bool)
    requires Inv(s) && k in s.jobs && s.jobs[k].unit.id in s.units && !s.jobs[k].Won()
    ensures var s' := Run(s, later);
            && k in s'.jobs
            && Step(s', Advance(k, fault)) == s'.(jobs := Step(s', Advance(k, fault)).jobs)
            && (s'.jobs[k].phase.Clashed? && !fault ==>
                  var same := s.units[s.jobs[k].unit.id] == s.jobs[k].unit;
                  Step(s', Advance(k, fault)).jobs[k].phase == Finished(if same then Same else Differs))
  {
    RunOverwritesNothing(s, later);
    hide Inv, Refusal;
    assert !Run(s, later).jobs[k].Won();
  }

  /** A unit that a submission put into the store is valid, its proof holds, and it is public or was
      submitted by its author. */
  lemma SubmittedUnitsWereChecked(start: State, actions: seq<Action>, k: JobId)
    requires GoodStart(start)
    requires var s := Run(start, actions); k in s.jobs && s.jobs[k].origin.Submit? && s.jobs[k].Won()
    ensures var t := Run(start, actions).jobs[k];
            && t.origin.valid && t.origin.proofHolds
            && (t.unit.IsPublic() || t.origin.caller == Some(t.unit.author))
  {
    RunKeepsInv(start, actions);
  }

  /** Whether a submission ought to be accepted, as far as its sender goes. */
  predicate Acceptable(u: Unit, o: Origin)
    requires o.Submit?
  {
    o.valid && o.proofHolds && (u.IsPublic() || o.caller == Some(u.author))
  }

  /** An unacceptable submission has not been looked at or was refused with the status of its first
      failing check. */
  ghost predicate Screened(s: State) {
    forall k: JobId :: k in s.jobs ==> JobScreened(s.jobs[k])
  }

  ghost predicate JobScreened(t: Job) {
    t.origin.Submit? && !Acceptable(t.unit, t.origin) ==> t.phase.Arrived? || TurnedDown(t)
  }

  ghost predicate TurnedDown(t: Job)
    requires t.origin.Submit?
  {
    && t.phase.Finished? && t.phase.outcome.Refused?
    && var status := t.phase.outcome.status;
    && (status == 422 <==> !t.origin.valid)
    && (status == 400 <==> t.origin.valid && !t.origin.proofHolds)
    && (status == 401 <==> t.origin.valid && t.origin.proofHolds && t.origin.caller == None)
    && (status == 403 <==> t.origin.valid && t.origin.proofHolds && t.origin.caller != None)
  }

  lemma AdvanceKeepsScreened(s: State, k: JobId, fault: bool)
    requires k in s.jobs && JobScreened(s.jobs[k])
    ensures k in AdvanceJob(s, k, fault).jobs && JobScreened(AdvanceJob(s, k, fault).jobs[k])
    ensures s.jobs[k].origin.Submit? && !Acceptable(s.jobs[k].unit, s.jobs[k].origin) ==>
              var s' := AdvanceJob(s, k, fault);
              s'.jobs[k].origin == s.jobs[k].origin && TurnedDown(s'.jobs[k]) && s' == s.(jobs := s'.jobs)
  {
    hide Compare, AfterInsert;
    var t := s.jobs[k];
    if t.phase.Arrived? && t.origin.Submit? {
      hide Acceptable, TurnedDown;
      RefusalIsFirstFailure(t);
    }
  }

  lemma RefusalIsFirstFailure(t: Job)
    requires t.origin.Submit?
    ensures Refusal(t.unit, t.origin).Some? <==> !Acceptable(t.unit, t.origin)
    ensures Refusal(t.unit, t.origin).Some? ==> TurnedDown(t.At(Finished(Refused(Refusal(t.unit, t.origin).value))))
  {
  }

  lemma StepKeepsScreened(s: State, a: Action)
    requires Screened(s)
    ensures Screened(Step(s, a))
  {
    hide AdvanceJob, TurnedDown, Acceptable;
    if a.Advance? && a.k in s.jobs {
      AdvanceKeepsScreened(s, a.k, a.fault);
      AdvanceMoves(s, a.k, a.fault);
    }
  }

  lemma {:induction false} RunKeepsScreened(s: State, actions: seq<Action>)
    requires Screened(s)
    ensures Screened(Run(s, actions))
    decreases |actions|
  {
    hide Screened;
    if actions != [] {
      StepKeepsScreened(s, actions[0]);
      RunKeepsScreened(Step(s, actions[0]), actions[1..]);
    }
  }

  /** An unacceptable submission never gets further than being refused with 422, 400, 401 or 403, by its
      first failing check, and none of its steps touches anything but the request itself. */
  lemma BadSubmissionsAreRefused(start: State, actions: seq<Action>, k: JobId, fault: bool)
    requires GoodStart(start)
    requires var s := Run(start, actions); k in s.jobs && s.jobs[k].origin.Submit?
    requires var t := Run(start, actions).jobs[k]; !Acceptable(t.unit, t.origin)
    ensures var s := Run(start, actions);
            var s' := Step(s, Advance(k, fault));
            && (s.jobs[k].phase.Arrived? || TurnedDown(s.jobs[k]))
            && k in s'.jobs && s'.jobs[k].origin == s.jobs[k].origin && TurnedDown(s'.jobs[k])
            && s' == s.(jobs := s'.jobs)
  {
    RunKeepsScreened(start, actions);
    hide Run, Acceptable, AdvanceJob, TurnedDown;
    AdvanceKeepsScreened(Run(start, actions), k, fault);
  }

  // ---------------------------------------------------------------------------
  // The credibility of pulled units
  // ---------------------------------------------------------------------------

  /** The peer's reputation times the author's as the peer reports it, 0.5 if the peer does not say. */
  function PulledProduct(o: Origin): real
    requires o.Pull?
  {
    o.peerReputation * if o.authorReputation == None then 0.5 else o.authorReputation.value
  }

  /** A pulled unit is rated with that product, and so is the credibility it gets. */
  ghost predicate RatedAsPulled(credibility: map<Id, real>, t: Job) {
    t.origin.Pull? ==>
      && (t.phase.Rated? ==> t.phase.credibility == PulledProduct(t.origin))
      && (t.phase == Finished(Inserted) && t.unit.id in credibility ==>
            credibility[t.unit.id] == Clamp(PulledProduct(t.origin)))
      && (t.phase.Arrived? || t.phase.Rated? || t.phase in {Finished(Inserted), Finished(Skipped), Finished(Failed)})
  }

  ghost predicate PullsRated(s: State) {
    forall k: JobId :: k in s.jobs ==> RatedAsPulled(s.credibility, s.jobs[k])
  }

  lemma AdvanceRates(s: State, k: JobId, fault: bool)
    requires k in s.jobs && RatedAsPulled(s.credibility, s.jobs[k])
    requires s.jobs[k].Pending() ==> s.jobs[k].unit.id !in s.credibility
    ensures var s' := AdvanceJob(s, k, fault);
            k in s'.jobs && RatedAsPulled(s'.credibility, s'.jobs[k])
  {
    assert s.jobs[k].origin.Pull? ==> AfterInsert(s.jobs[k].origin) == Rated(PulledProduct(s.jobs[k].origin));
    hide Clamp, PulledProduct, AfterInsert, Refusal, Compare;
  }

  /** The step of one job leaves the credibility of every other winner's unit alone. */
  lemma OthersStayRated(s: State, s': State, k: JobId, j: JobId)
    requires OneWinner(s) && k in s.jobs && Moves(s, s', k) && j in s.jobs && j != k
    requires RatedAsPulled(s.credibility, s.jobs[j])
    ensures RatedAsPulled(s'.credibility, s.jobs[j])
  {
    hide Clamp, PulledProduct;
  }

  lemma StepKeepsPullsRated(s: State, a: Action)
    requires Inv(s) && PullsRated(s)
    ensures PullsRated(Step(s, a))
  {
    hide AdvanceJob, OneWinner, Tables, RepliesTrue, Authorised, EffectsOnce, FanOutIffCreated, PulledProduct, Clamp;
    if a.Advance? && a.k in s.jobs {
      var s' := AdvanceJob(s, a.k, a.fault);
      AdvanceMoves(s, a.k, a.fault);
      AdvanceRates(s, a.k, a.fault);
      forall j: JobId | j in s'.jobs ensures RatedAsPulled(s'.credibility, s'.jobs[j]) {
        if j != a.k {
          OthersStayRated(s, s', a.k, j);
        }
      }
    }
  }

  lemma {:induction false} RunKeepsPullsRated(s: State, actions: seq<Action>)
    requires Inv(s) && PullsRated(s)
    ensures PullsRated(Run(s, actions))
    decreases |actions|
  {
    hide Inv, PullsRated;
    if actions != [] {
      StepKeepsInv(s, actions[0]);
      StepKeepsPullsRated(s, actions[0]);
      RunKeepsPullsRated(Step(s, actions[0]), actions[1..]);
    }
  }

  /** Over every interleaving a pulled insertion ends inserted, skipped or failed; it is never compared with
      what is stored, as a submission is. */
  lemma PulledOutcomes(start: State, actions: seq<Action>, k: JobId)
    requires GoodStart(start)
    requires k in Run(start, actions).jobs && Run(start, actions).jobs[k].origin.Pull?
    ensures var p := Run(start, actions).jobs[k].phase;
            p.Arrived? || p.Rated? || p in {Finished(Inserted), Finished(Skipped), Finished(Failed)}
  {
    RunKeepsInv(start, actions);
    RunKeepsPullsRated(start, actions);
    var s := Run(start, actions);
    hide Run;
    assert RatedAsPulled(s.credibility, s.jobs[k]);
  }

  /** The credibility of a pulled unit, if it was written, is that product; with both reputations in [0, 1]
      it does not exceed the peer's. */
  ghost predicate ComesFromProduct(s: State, t: Job)
    requires t.origin.Pull?
  {
    var o := t.origin;
    var share := if o.authorReputation == None then 0.5 else o.authorReputation.value;
    t.unit.id in s.credibility ==>
      && s.credibility[t.unit.id] == Clamp(o.peerReputation * share)
      && (0.0 <= o.peerReputation <= 1.0 && 0.0 <= share <= 1.0 ==> s.credibility[t.unit.id] <= o.peerReputation)
  }

  /** Over every interleaving: the credibility of a unit that a pull put into the store is the product of
      the two reputations. */
  lemma PulledCredibility(start: State, actions: seq<Action>, k: JobId)
    requires GoodStart(start)
    requires var s := Run(start, actions); k in s.jobs && s.jobs[k].origin.Pull? && s.jobs[k].Won()
    ensures ComesFromProduct(Run(start, actions), Run(start, actions).jobs[k])
  {
    RunKeepsInv(start, actions);
    RunKeepsPullsRated(start, actions);
    CreditOf(Run(start, actions), k);
  }

  lemma CreditOf(s: State, k: JobId)
    requires PendingNotYet(s) && PullsRated(s) && k in s.jobs && s.jobs[k].origin.Pull? && s.jobs[k].Won()
    ensures ComesFromProduct(s, s.jobs[k])
  {
    hide PendingNotYet, PullsRated;
    RatedMeans(s, k);
    ProductAtMost(s.jobs[k].origin);
    hide Clamp;
  }

  lemma ProductAtMost(o: Origin)
    requires o.Pull?
    ensures var share := if o.authorReputation == None then 0.5 else o.authorReputation.value;
            0.0 <= o.peerReputation <= 1.0 && 0.0 <= share <= 1.0 ==> Clamp(PulledProduct(o)) <= o.peerReputation
  {
    if o.authorReputation.Some? {
      ClampedShare(o.peerReputation, o.authorReputation.value, PulledProduct(o));
    } else {
      ClampedShare(o.peerReputation, 0.5, PulledProduct(o));
    }
  }

  lemma ClampedShare(s: real, share: real, product: real)
    requires product == s * share
    ensures 0.0 <= s <= 1.0 && 0.0 <= share <= 1.0 ==> Clamp(product) <= s
  {
    if 0.0 <= s && 0.0 <= share <= 1.0 {
      ShareAtMost(s, share);
    }
  }

  lemma RatedMeans(s: State, k: JobId)
    requires PendingNotYet(s) && PullsRated(s) && k in s.jobs && s.jobs[k].origin.Pull? && s.jobs[k].Won()
    ensures s.jobs[k].unit.id in s.credibility ==>
              s.credibility[s.jobs[k].unit.id] == Clamp(PulledProduct(s.jobs[k].origin))
  {
    hide PulledProduct, Clamp;
    assert RatedAsPulled(s.credibility, s.jobs[k]);
  }

  // ---------------------------------------------------------------------------
  // The handler, running without interleaving
  // ---------------------------------------------------------------------------

  /** The reply to a submission. */
  function Status(o: Outcome): nat
    requires !o.Skipped?
  {
    match o
    case Inserted => 201
    case Same => 200
    case Differs => 409
    case Refused(status) => status
    case Failed => 500
  }

  /** Which of the storage calls of one submission fail: inserting, reading back the unit or the author,
      and writing the credibility. */
  datatype Faults = Faults(put: bool, read: bool, rate: bool)

  /** A job that runs from arrival to its end with no other job in between. */
  function Alone(s: State, k: JobId, u: Unit, o: Origin, f: Faults): State {
    Run(s, [Arrive(k, u, o), Advance(k, f.put), Advance(k, f.read), Advance(k, f.rate)])
  }

  lemma AloneSteps(s: State, k: JobId, u: Unit, o: Origin, f: Faults)
    requires k !in s.jobs
    ensures var s' := s.(jobs := s.jobs[k := Job(u, o, Arrived)]);
            && k in Put(s', k, f.put).jobs && k in AdvanceJob(Put(s', k, f.put), k, f.read).jobs
            && Alone(s, k, u, o, f) == AdvanceJob(AdvanceJob(Put(s', k, f.put), k, f.read), k, f.rate)
  {
    hide Put, AdvanceJob;
    var s0 := s.(jobs := s.jobs[k := Job(u, o, Arrived)]);
    AdvanceMoves(s0, k, f.put);
    var s1 := AdvanceJob(s0, k, f.put);
    AdvanceMoves(s1, k, f.read);
    var s2 := AdvanceJob(s1, k, f.read);
    hide Moves;
    var a0, a1, a2, a3 := Arrive(k, u, o), Advance(k, f.put), Advance(k, f.read), Advance(k, f.rate);
    assert [a0, a1, a2, a3][1..] == [a1, a2, a3] && [a1, a2, a3][1..] == [a2, a3] && [a2, a3][1..] == [a3];
    assert Run(s2, [a3]) == AdvanceJob(s2, k, f.rate);
    assert Run(s1, [a2, a3]) == Run(s2, [a3]);
    assert Run(s0, [a1, a2, a3]) == Run(s1, [a2, a3]);
    assert AdvanceJob(s0, k, f.put) == Put(s0, k, f.put) by { ArrivedPuts(s0, k, f.put); }
  }

  lemma ArrivedPuts(s: State, k: JobId, fault: bool)
    requires k in s.jobs && s.jobs[k].phase.Arrived?
    ensures AdvanceJob(s, k, fault) == Put(s, k, fault)
  {
  }

  lemma AloneRejected(s: State, k: JobId, u: Unit, o: Origin, f: Faults)
    requires k !in s.jobs && o.Submit? && (Refusal(u, o).Some? || f.put)
    ensures Alone(s, k, u, o, f) == Ended(s, k, u, o, if Refusal(u, o).Some? then Refused(Refusal(u, o).value) else Failed)
  {
    AloneSteps(s, k, u, o, f);
    hide Run, Refusal;
  }

  lemma AloneClashes(s: State, k: JobId, u: Unit, o: Origin, f: Faults)
    requires k !in s.jobs && o.Submit? && Refusal(u, o).None? && !f.put && u.id in s.units
    ensures Alone(s, k, u, o, f)
         == Ended(s, k, u, o, if f.read then Failed else if s.units[u.id] == u then Same else Differs)
  {
    AloneSteps(s, k, u, o, f);
    hide Run, Refusal;
    var s0 := s.(jobs := s.jobs[k := Job(u, o, Arrived)]);
    var s1 := s0.(jobs := s0.jobs[k := Job(u, o, Clashed)]);
    assert Put(s0, k, f.put) == s1;
  }

  lemma AloneInserts(s: State, k: JobId, u: Unit, o: Origin, f: Faults)
    requires k !in s.jobs && o.Submit? && Refusal(u, o).None? && !f.put && u.id !in s.units
    ensures var c := Reputation(if f.read then None else Lookup(s.agents, u.author));
            var s' := s.(units := s.units[u.id := u], jobs := s.jobs[k := Job(u, o, Rated(c))]);
            Alone(s, k, u, o, f) == Conclude(s', k, c, f.rate)
  {
    AloneSteps(s, k, u, o, f);
    hide Alone, Refusal, Conclude, Put;
  }

  function Ended(s: State, k: JobId, u: Unit, o: Origin, outcome: Outcome): State {
    s.(jobs := s.jobs[k := Job(u, o, Finished(outcome))])
  }

  lemma RefusalIs(u: Unit, o: Origin)
    requires o.Submit?
    ensures var r := Refusal(u, o);
            && (r == Some(422) <==> !o.valid)
            && (r == Some(400) <==> o.valid && !o.proofHolds)
            && (r == Some(401) <==> o.valid && o.proofHolds && !u.IsPublic() && o.caller == None)
            && (r == Some(403) <==> o.valid && o.proofHolds && !u.IsPublic() && o.caller != None && o.caller != Some(u.author))
            && (r == None <==> o.valid && o.proofHolds && (u.IsPublic() || o.caller == Some(u.author)))
            && r in {Some(422), Some(400), Some(401), Some(403), None}
  {
  }

  class SubmitHandler {
    const storage: MemoryStorage
    var agents: map<Did, real>
    var broadcast: seq<Unit>
    var fanOuts: seq<Unit>

    constructor (storage: MemoryStorage, agents: map<Did, real>)
      ensures this.storage == storage && this.agents == agents && broadcast == [] && fanOuts == []
    {
      this.storage, this.agents, broadcast, fanOuts := storage, agents, [], [];
    }

    ghost function Node(): State
      reads this, storage
    {
      State(storage.units, storage.unitCredibility, agents, map[], [], broadcast, fanOuts)
    }

    /** The node is in the state the run left, and the status is the reply of its only job. */
    ghost predicate Reached(s: State, status: nat)
      reads this, storage
    {
      && s == Node().(jobs := s.jobs, writes := s.writes)
      && 0 in s.jobs && s.jobs[0].phase.Finished? && !s.jobs[0].phase.outcome.Skipped?
      && status == Status(s.jobs[0].phase.outcome)
    }

    /** After the insertion: the credibility, the live stream and the fan-out. */
    method Accept(u: Unit, f: Faults)
      requires storage.Valid() && u.id in storage.units
      modifies this`broadcast, this`fanOuts, storage`unitCredibility
      ensures storage.Valid()
      ensures var c := Reputation(if f.read then None else Lookup(agents, u.author));
              storage.unitCredibility == if f.rate then old(storage.unitCredibility)
                                         else old(storage.unitCredibility)[u.id := Clamp(c)]
      ensures broadcast == if u.IsPublic() then old(broadcast) + [u] else old(broadcast)
      ensures fanOuts == old(fanOuts) + [u]
    {
      var reputation := Reputation(if f.read then None else Lookup(agents, u.author));
      var written := storage.SetUnitCredibility(u.id, reputation, f.rate);
      assert written.Ok? <==> !f.rate;
      if u.IsPublic() {
        broadcast := broadcast + [u];
      }
      fanOuts := fanOuts + [u];
    }

    /** Submitting a unit is one of the runs above, with its steps in a row. */
    method Submit(u: Unit, o: Origin, f: Faults) returns (status: nat)
      requires storage.Valid() && o.Submit?
      modifies this`broadcast, this`fanOuts, storage`units, storage`unitCredibility
      ensures storage.Valid()
      ensures Reached(Alone(old(Node()), 0, u, o, f), status)
      ensures var held, passes := old(storage.units), o.valid && o.proofHolds && (u.IsPublic() || o.caller == Some(u.author));
              && (status == 422 <==> !o.valid)
              && (status == 400 <==> o.valid && !o.proofHolds)
              && (status == 401 <==> o.valid && o.proofHolds && !u.IsPublic() && o.caller == None)
              && (status == 403 <==> o.valid && o.proofHolds && !u.IsPublic() && o.caller != None && o.caller != Some(u.author))
              && (status == 201 <==> passes && !f.put && u.id !in held)
              && (status == 200 <==> passes && !f.put && !f.read && u.id in held && held[u.id] == u)
              && (status == 409 <==> passes && !f.put && !f.read && u.id in held && held[u.id] != u)
              && (status == 500 <==> passes && (f.put || (f.read && u.id in held)))
      ensures storage.units == if status == 201 then old(storage.units)[u.id := u] else old(storage.units)
      ensures storage.unitCredibility ==
                if status != 201 || f.rate then old(storage.unitCredibility)
                else if f.read || u.author !in agents then old(storage.unitCredibility)[u.id := 0.5]
                else old(storage.unitCredibility)[u.id := Clamp(agents[u.author])]
      ensures broadcast == if status == 201 && u.IsPublic() then old(broadcast) + [u] else old(broadcast)
      ensures fanOuts == if status == 201 then old(fanOuts) + [u] else old(fanOuts)
    {
      hide Alone, Refusal, Keyed, PeersKeyed;
      RefusalIs(u, o);
      ghost var start := Node();
      var refused := Refusal(u, o);
      if refused.Some? {
        AloneRejected(start, 0, u, o, f);
        return refused.value;
      }
      var put := storage.PutUnit(u, f.put);
      if put.Err? {
        if put.error != Conflict {
          AloneRejected(start, 0, u, o, f);
          return 500;
        }
        AloneClashes(start, 0, u, o, f);
        if f.read {
          return 500;
        }
        return if storage.units[u.id] == u then 200 else 409;
      }
      AloneInserts(start, 0, u, o, f);
      Accept(u, f);
      status := 201;
    }
  }
}
