/**
 * The lease as a distributed protocol: one subnet row, any number of agents, an operator, the worker
 * and a network that delays, reorders and loses messages (central/collector.py, "Why that is not
 * sufficient on its own, and what closes it").
 *
 * Real time is `State.clock`.  Central's wall clock reads `clock + central` and agent a's monotonic
 * clock reads `clock + offset(a)`: the clocks run at one rate and agree on nothing else.  A run is a
 * sequence of events; `Assumption` lists what the events of a run must respect for the guarantee to
 * hold, and `EveryAssumptionIsNeeded` gives a bad run for each one dropped.
 */
module LeaseProtocol {
  import opened Options
  import opened CollectorLease

  datatype Setting = Setting(offset: AgentId -> int, central: int)

  /** A heartbeat on its way to central, or its answer on the way back. */
  datatype Message =
    | Request(agent: AgentId, anchor: Time)
    | Reply(agent: AgentId, anchor: Time, held: bool, ttl: int)

  /**
   * A reading, stamped on central's timeline; `tenure` is history, for the statements below.  A stray
   * is one collected without a live grant, by an agent that does not know what a lease is.
   */
  datatype Reading = Reading(agent: AgentId, ts: Time, tenure: nat)

  /** One uninterrupted spell as holder.  History only: no step reads it. */
  datatype Tenure = Tenure(agent: AgentId, start: Time)

  datatype State = State(
    row: Row,
    clock: Time,
    wire: map<nat, Message>,
    deadline: map<AgentId, Time>,
    tenures: seq<Tenure>,
    taken: set<Reading>,
    strays: set<Reading>,
    admitted: set<Reading>)

  datatype Event =
    | Tick(elapsed: nat)
    | Send(agent: AgentId, id: nat)
    | Heartbeat(id: nat, now: Time, ttl: int)
    | Deliver(id: nat)
    | Lose(id: nat)
    | Takeover(to: AgentId, from: Option<AgentId>, now: Time, ttl: int)
    | Release(revoked: AgentId)
    | Reassign(primary: AgentId, standby: AgentId)
    | Reseed(standby: AgentId, now: Time, ttl: int)
    | Collect(agent: AgentId)
    | Stray(agent: AgentId)
    | Push(reading: Reading)

  function CentralNow(c: Setting, s: State): Time {
    s.clock + c.central
  }

  /** An instant on an agent's own clock, expressed on central's. */
  function ToCentral(c: Setting, agent: AgentId, local: Time): Time {
    local - c.offset(agent) + c.central
  }

  /** Inside a locally live grant: `CollectorLeases.holds`. */
  predicate Live(c: Setting, s: State, agent: AgentId) {
    agent in s.deadline && s.clock + c.offset(agent) < s.deadline[agent]
  }

  ghost predicate Exclusive(c: Setting, s: State) {
    forall a, b :: Live(c, s, a) && Live(c, s, b) ==> a == b
  }

  // ------------------------------------------------------------------------------------------
  // Steps.  An event whose guard fails changes nothing: a compare-and-swap that misses, a message
  // that is not there, a reading by an agent that has stopped.
  // ------------------------------------------------------------------------------------------

  function Acquire(s: State, row: Row, agent: AgentId, now: Time): State {
    s.(row := row, tenures := s.tenures + [Tenure(agent, now)])
  }

  function ApplyHeartbeat(s: State, id: nat, now: Time, ttl: int): State {
    if id !in s.wire || !s.wire[id].Request? then s
    else
      var Request(agent, anchor) := s.wire[id];
      var held := s.row.RenewApplies(agent, now);
      var answered := s.(wire := s.wire[id := Reply(agent, anchor, held, ttl)]);
      if !held then answered
      else
        var row := s.row.Renewed(agent, now, ttl);
        if s.row.holder == Some(agent) then answered.(row := row) else Acquire(answered, row, agent, now)
  }

  function ApplyTakeover(s: State, to: AgentId, from: Option<AgentId>, now: Time, ttl: int): State {
    if s.row.GrantApplies(to, from, now) then Acquire(s, s.row.Granted(to, now, ttl), to, now) else s
  }

  /** `CollectorLeases.record`: the answer replaces what the agent believed. */
  function ApplyDeliver(s: State, id: nat): State {
    if id !in s.wire || !s.wire[id].Reply? then s
    else
      var Reply(agent, anchor, held, ttl) := s.wire[id];
      s.(wire := s.wire - {id},
         deadline := if held then s.deadline[agent := anchor + ttl] else s.deadline - {agent})
  }

  /** Turning redundancy off and on again: the standby is cleared (a release), set, and the lease seeded. */
  function ApplyReseed(s: State, standby: AgentId, now: Time, ttl: int): State {
    var row := s.row.(standby := Some(standby)).Seeded(now, ttl);
    if row.holder.None? then s else Acquire(s, row, row.holder.value, now)
  }

  function Apply(c: Setting, s: State, e: Event): State {
    match e
    case Tick(elapsed) => s.(clock := s.clock + elapsed)
    case Send(agent, id) =>
      if id in s.wire then s else s.(wire := s.wire[id := Request(agent, s.clock + c.offset(agent))])
    case Heartbeat(id, now, ttl) => ApplyHeartbeat(s, id, now, ttl)
    case Deliver(id) => ApplyDeliver(s, id)
    case Lose(id) => s.(wire := s.wire - {id})
    case Takeover(to, from, now, ttl) => ApplyTakeover(s, to, from, now, ttl)
    case Release(revoked) => if s.row.holder == Some(revoked) then s.(row := s.row.Released()) else s
    case Reassign(primary, standby) => s.(row := s.row.(primary := Some(primary), standby := Some(standby)))
    case Reseed(standby, now, ttl) => ApplyReseed(s, standby, now, ttl)
    case Collect(agent) =>
      if Live(c, s, agent) && s.tenures != []
      then s.(taken := s.taken + {Reading(agent, CentralNow(c, s), |s.tenures| - 1)})
      else s
    case Stray(agent) =>
      if s.tenures == [] then s else s.(strays := s.strays + {Reading(agent, CentralNow(c, s), |s.tenures| - 1)})
    case Push(r) =>
      if r in s.taken + s.strays && s.row.Admits(r.agent, Some(r.ts)) then s.(admitted := s.admitted + {r}) else s
  }

  function Exec(c: Setting, s: State, es: seq<Event>): State
    decreases |es|
  {
    if es == [] then s else Apply(c, Exec(c, s, es[..|es| - 1]), es[|es| - 1])
  }

  // ------------------------------------------------------------------------------------------
  // What a run must respect
  // ------------------------------------------------------------------------------------------

  datatype Assumption = NoRenewalLowers | NowNotAhead | NowAfterArrival | StaysRedundant

  /**
   * What the callers see to: the worker never hands a lease to the agent it takes it from
   * (central/worker/jobs.py), and lease lengths are floored above zero (`lease_settings`).
   */
  predicate CallersRule(e: Event) {
    && (e.Takeover? ==> e.from != Some(e.to))
    && (e.Heartbeat? || e.Takeover? || e.Reseed? ==> e.ttl > 0)
  }

  /** The statement of this heartbeat renews the lease of the agent that holds it. */
  predicate Renews(s: State, e: Event) {
    && e.Heartbeat? && e.id in s.wire && s.wire[e.id].Request?
    && s.row.holder == Some(s.wire[e.id].agent) && s.row.RenewApplies(s.wire[e.id].agent, e.now)
  }

  /**
   * No renewal lowers the row's expiry; a statement's time is never ahead of real time, and a
   * heartbeat's never before the instant its agent sampled; the subnet stays redundant.
   */
  predicate Meets(c: Setting, s: State, e: Event, a: Assumption) {
    match a
    case NoRenewalLowers => Renews(s, e) && s.row.expires.Some? ==> s.row.expires.value <= e.now + e.ttl
    case NowNotAhead => (e.Heartbeat? || e.Takeover? || e.Reseed?) ==> e.now <= CentralNow(c, s)
    case NowAfterArrival =>
      e.Heartbeat? && e.id in s.wire ==> ToCentral(c, s.wire[e.id].agent, s.wire[e.id].anchor) <= e.now
    case StaysRedundant => !e.Reseed?
  }

  ghost predicate Fair(c: Setting, s: State, e: Event, dropped: set<Assumption>) {
    CallersRule(e) && forall a :: a !in dropped ==> Meets(c, s, e, a)
  }

  /** Every event of the run respects every assumption that was not dropped. */
  ghost predicate FairRun(c: Setting, s: State, es: seq<Event>, dropped: set<Assumption>)
    decreases |es|
  {
    es == [] || (
      && FairRun(c, s, es[..|es| - 1], dropped)
      && Fair(c, Exec(c, s, es[..|es| - 1]), es[|es| - 1], dropped))
  }

  /** A run starts where an operator has just turned redundancy on and the lease was seeded. */
  function Start(c: Setting, primary: AgentId, standby: AgentId, clock: Time, ttl: int): State {
    var now := clock + c.central;
    State(Row(Some(primary), Some(standby), None, None, None, None, None).Seeded(now, ttl),
          clock, map[], map[], [Tenure(primary, now)], {}, {}, {})
  }

  // ------------------------------------------------------------------------------------------
  // The invariant
  // ------------------------------------------------------------------------------------------

  function Last(s: State): Tenure
    requires s.tenures != []
  {
    s.tenures[|s.tenures| - 1]
  }

  /**
   * A deadline granted to an agent, on central's timeline: never past the row's expiry, and over
   * before the current tenure began unless the agent is the one whose tenure it is.
   */
  predicate Bounded(s: State, agent: AgentId, end: Time)
    requires s.tenures != [] && s.row.expires.Some?
  {
    && end <= s.row.expires.value
    && (agent != Last(s).agent ==> end <= Last(s).start)
  }

  predicate RowInv(c: Setting, s: State) {
    && s.tenures != []
    && s.row.Redundant()
    && s.row.expires.Some?
    && (s.row.holder.Some? ==> s.row.holder.value == Last(s).agent && s.row.since == Some(Last(s).start))
    && (s.row.holder.None? ==> s.row.prev == Some(Last(s).agent) && s.row.prevUntil == s.row.expires)
    && Last(s).start <= CentralNow(c, s)
    && Last(s).start < s.row.expires.value
  }

  predicate MessageInv(c: Setting, s: State, m: Message)
    requires s.tenures != [] && s.row.expires.Some?
  {
    && ToCentral(c, m.agent, m.anchor) <= CentralNow(c, s)
    && (m.Reply? && m.held ==> Bounded(s, m.agent, ToCentral(c, m.agent, m.anchor) + m.ttl))
  }

  ghost predicate GrantInv(c: Setting, s: State)
    requires s.tenures != [] && s.row.expires.Some?
  {
    && (forall id :: id in s.wire ==> MessageInv(c, s, s.wire[id]))
    && (forall a :: a in s.deadline ==> Bounded(s, a, ToCentral(c, a, s.deadline[a])))
  }

  ghost predicate TenureInv(s: State) {
    forall i, j :: 0 <= i < j < |s.tenures| ==> s.tenures[i].start < s.tenures[j].start
  }

  /** Where the tenure of a reading ends: the next tenure's start, or the row's expiry for the last. */
  function TenureEnd(s: State, k: nat): Time
    requires k < |s.tenures| && s.row.expires.Some?
  {
    if k + 1 < |s.tenures| then s.tenures[k + 1].start else s.row.expires.value
  }

  predicate InTenure(c: Setting, s: State, r: Reading)
    requires s.row.expires.Some?
  {
    && r.tenure < |s.tenures|
    && s.tenures[r.tenure].agent == r.agent
    && s.tenures[r.tenure].start <= r.ts < TenureEnd(s, r.tenure)
    && r.ts <= CentralNow(c, s)
  }

  /** The predecessor columns name the previous tenure and cover everything collected in it. */
  ghost predicate PredecessorInv(s: State) {
    && (s.row.holder.Some? && |s.tenures| == 1 ==> s.row.prev.None? && s.row.prevUntil.None?)
    && (s.row.holder.Some? && |s.tenures| >= 2 ==>
      && s.row.prev == Some(s.tenures[|s.tenures| - 2].agent)
      && s.row.prevUntil.Some?
      && s.tenures[|s.tenures| - 2].start < s.row.prevUntil.value <= Last(s).start
      && forall r :: r in s.taken && r.tenure == |s.tenures| - 2 ==> r.ts <= s.row.prevUntil.value)
  }

  /** The agent held the lease at some time. */
  ghost predicate HeldOnce(s: State, agent: AgentId) {
    exists k :: 0 <= k < |s.tenures| && s.tenures[k].agent == agent
  }

  /** Nothing is accepted but what was collected under a grant, and strays of agents that held one. */
  ghost predicate AdmittedInv(s: State) {
    forall r :: r in s.admitted ==> r in s.taken || (r in s.strays && HeldOnce(s, r.agent))
  }

  ghost predicate Inv(c: Setting, s: State) {
    && RowInv(c, s)
    && GrantInv(c, s)
    && TenureInv(s)
    && (forall r :: r in s.taken ==> InTenure(c, s, r))
    && PredecessorInv(s)
  }

  lemma StartInv(c: Setting, primary: AgentId, standby: AgentId, clock: Time, ttl: int)
    requires ttl > 0
    ensures Inv(c, Start(c, primary, standby, clock, ttl))
    ensures AdmittedInv(Start(c, primary, standby, clock, ttl))
  {
  }

  /** A change of holder: everything granted before it is over by the new tenure's start. */
  lemma AcquireInv(c: Setting, s: State, row: Row, agent: AgentId, now: Time, ttl: int)
    requires Inv(c, s) && ttl > 0
    requires s.row.expires.value <= now <= CentralNow(c, s)
    requires row.Redundant() && row.holder == Some(agent) && row.since == Some(now) && row.expires == Some(now + ttl)
    requires row.prev == (if s.row.holder.Some? then s.row.holder else s.row.prev)
    requires row.prevUntil == (if s.row.holder.Some? then s.row.expires else s.row.prevUntil)
    ensures Inv(c, Acquire(s, row, agent, now))
  {
    var t := Acquire(s, row, agent, now);
    assert forall i :: 0 <= i < |s.tenures| ==> t.tenures[i] == s.tenures[i];
    assert Last(s).start < now;
    forall r | r in t.taken
      ensures InTenure(c, t, r)
      ensures r.tenure == |t.tenures| - 2 ==> r.ts <= t.row.prevUntil.value
    {
      assert InTenure(c, s, r);
    }
    forall id | id in t.wire ensures MessageInv(c, t, t.wire[id]) {
      assert MessageInv(c, s, s.wire[id]);
    }
  }

  /** Recording the answer to a heartbeat keeps the invariant when the answer's deadline is bounded. */
  lemma AnswerInv(c: Setting, s: State, id: nat, m: Message)
    requires Inv(c, s) && MessageInv(c, s, m)
    ensures Inv(c, s.(wire := s.wire[id := m]))
  {
    var t := s.(wire := s.wire[id := m]);
    forall i | i in t.wire ensures MessageInv(c, t, t.wire[i]) {
      if i != id {
        assert MessageInv(c, s, s.wire[i]);
      }
    }
    assert forall r :: r in t.taken ==> InTenure(c, s, r);
  }

  /** A renewal that does not lower the expiry. */
  lemma RenewalInv(c: Setting, s: State, agent: AgentId, now: Time, ttl: int)
    requires Inv(c, s) && s.row.holder == Some(agent) && s.row.expires.value <= now + ttl
    ensures Inv(c, s.(row := s.row.Renewed(agent, now, ttl)))
  {
  }

  lemma HeartbeatInv(c: Setting, s: State, id: nat, now: Time, ttl: int)
    requires Inv(c, s) && ttl > 0 && now <= CentralNow(c, s)
    requires Meets(c, s, Heartbeat(id, now, ttl), NoRenewalLowers)
    requires Meets(c, s, Heartbeat(id, now, ttl), NowAfterArrival)
    ensures Inv(c, ApplyHeartbeat(s, id, now, ttl))
  {
    if id in s.wire && s.wire[id].Request? {
      var Request(agent, anchor) := s.wire[id];
      var held := s.row.RenewApplies(agent, now);
      var reply := Reply(agent, anchor, held, ttl);
      var t := s;
      if held {
        var row := s.row.Renewed(agent, now, ttl);
        if s.row.holder == Some(agent) {
          RenewalInv(c, s, agent, now, ttl);
          t := s.(row := row);
        } else {
          AcquireInv(c, s, row, agent, now, ttl);
          t := Acquire(s, row, agent, now);
        }
      }
      AnswerInv(c, t, id, reply);
      assert ApplyHeartbeat(s, id, now, ttl) == t.(wire := t.wire[id := reply]);
    }
  }

  lemma TakeoverInv(c: Setting, s: State, to: AgentId, from: Option<AgentId>, now: Time, ttl: int)
    requires Inv(c, s) && ttl > 0
    requires now <= CentralNow(c, s) && from != Some(to)
    ensures Inv(c, ApplyTakeover(s, to, from, now, ttl))
  {
    if s.row.GrantApplies(to, from, now) {
      AcquireInv(c, s, s.row.Granted(to, now, ttl), to, now, ttl);
    }
  }

  lemma DeliverInv(c: Setting, s: State, id: nat)
    requires Inv(c, s)
    ensures Inv(c, ApplyDeliver(s, id))
  {
  }

  /** Readings taken off the record, and readings pushed, change no grant. */
  lemma PushInv(c: Setting, s: State, e: Event)
    requires Inv(c, s)
    requires e.Stray? || e.Push?
    ensures Inv(c, Apply(c, s, e))
  {
    hide ApplyHeartbeat, ApplyDeliver, ApplyTakeover, ApplyReseed;
  }

  /** Time passing, a message sent or lost, an operator naming a new primary or standby. */
  lemma QuietInv(c: Setting, s: State, e: Event)
    requires Inv(c, s)
    requires e.Tick? || e.Send? || e.Lose? || e.Reassign?
    ensures Inv(c, Apply(c, s, e))
  {
    hide ApplyHeartbeat, ApplyDeliver, ApplyTakeover, ApplyReseed;
  }

  /** A release clears the holder and nothing else: the expiry stays as the barrier. */
  lemma ReleaseInv(c: Setting, s: State)
    requires Inv(c, s) && s.row.holder.Some?
    ensures Inv(c, s.(row := s.row.Released()))
  {
    var t := s.(row := s.row.Released());
    forall i | i in t.wire ensures MessageInv(c, t, t.wire[i]) {
      assert MessageInv(c, s, s.wire[i]);
    }
    forall r | r in t.taken ensures InTenure(c, t, r) {
      assert InTenure(c, s, r);
    }
  }

  /** A live agent is the one whose tenure it is. */
  lemma LiveIsLastTenant(c: Setting, s: State, agent: AgentId)
    requires Inv(c, s) && Live(c, s, agent)
    ensures agent == Last(s).agent && CentralNow(c, s) < s.row.expires.value
  {
  }

  lemma CollectInv(c: Setting, s: State, agent: AgentId)
    requires Inv(c, s) && Live(c, s, agent)
    ensures Inv(c, Apply(c, s, Collect(agent)))
  {
    LiveIsLastTenant(c, s, agent);
    var t := Apply(c, s, Collect(agent));
    forall r | r in t.taken ensures InTenure(c, t, r) {
      if r in s.taken {
        assert InTenure(c, s, r);
      }
    }
    forall i | i in t.wire ensures MessageInv(c, t, t.wire[i]) {
      assert MessageInv(c, s, s.wire[i]);
    }
  }

  lemma StepInv(c: Setting, s: State, e: Event)
    requires Inv(c, s) && Fair(c, s, e, {})
    ensures Inv(c, Apply(c, s, e))
  {
    hide Inv, Live, ApplyHeartbeat, ApplyTakeover, ApplyDeliver;
    assert Meets(c, s, e, NoRenewalLowers) && Meets(c, s, e, NowNotAhead);
    assert Meets(c, s, e, NowAfterArrival) && Meets(c, s, e, StaysRedundant);
    match e
    case Heartbeat(id, now, ttl) => HeartbeatInv(c, s, id, now, ttl);
    case Takeover(to, from, now, ttl) => TakeoverInv(c, s, to, from, now, ttl);
    case Deliver(id) => DeliverInv(c, s, id);
    case Release(revoked) => if s.row.holder == Some(revoked) { ReleaseInv(c, s); }
    case Collect(agent) => if Live(c, s, agent) { CollectInv(c, s, agent); }
    case Stray(_) => PushInv(c, s, e);
    case Push(_) => PushInv(c, s, e);
    case Reseed(_, _, _) =>
    case _ => QuietInv(c, s, e);
  }

  /** Holder and predecessor columns only ever name agents that held the lease. */
  lemma ColumnsHeldOnce(c: Setting, s: State, agent: AgentId, ts: Time)
    requires Inv(c, s) && s.row.Admits(agent, Some(ts))
    ensures HeldOnce(s, agent)
  {
    assert HeldOnce(s, Last(s).agent);
    if s.row.holder.Some? && s.row.prev == Some(agent) && s.row.holder != Some(agent) {
      assert s.tenures[|s.tenures| - 2].agent == agent;
    }
  }

  lemma StepAdmits(c: Setting, s: State, e: Event)
    requires Inv(c, s) && AdmittedInv(s)
    ensures AdmittedInv(Apply(c, s, e))
  {
    var t := Apply(c, s, e);
    assert s.tenures <= t.tenures && s.taken <= t.taken && s.strays <= t.strays;
    forall r | r in t.admitted ensures r in t.taken || (r in t.strays && HeldOnce(t, r.agent)) {
      if r in s.admitted {
        if HeldOnce(s, r.agent) {
          var k :| 0 <= k < |s.tenures| && s.tenures[k].agent == r.agent;
          assert t.tenures[k].agent == r.agent;
        }
      } else {
        ColumnsHeldOnce(c, s, r.agent, r.ts);
      }
    }
  }

  lemma {:induction false} RunInv(c: Setting, start: State, es: seq<Event>)
    requires Inv(c, start) && AdmittedInv(start) && FairRun(c, start, es, {})
    ensures Inv(c, Exec(c, start, es)) && AdmittedInv(Exec(c, start, es))
    decreases |es|
  {
    if es != [] {
      RunInv(c, start, es[..|es| - 1]);
      StepInv(c, Exec(c, start, es[..|es| - 1]), es[|es| - 1]);
      StepAdmits(c, Exec(c, start, es[..|es| - 1]), es[|es| - 1]);
    }
  }

  // ------------------------------------------------------------------------------------------
  // The guarantees, in every state that some run reaches
  // ------------------------------------------------------------------------------------------

  ghost predicate Reachable(c: Setting, s: State) {
    exists primary, standby, clock, ttl, es ::
      && ttl > 0 && FairRun(c, Start(c, primary, standby, clock, ttl), es, {})
      && s == Exec(c, Start(c, primary, standby, clock, ttl), es)
  }

  lemma ReachableInv(c: Setting, s: State)
    requires Reachable(c, s)
    ensures Inv(c, s) && AdmittedInv(s)
  {
    var primary, standby, clock, ttl, es :|
      && ttl > 0 && FairRun(c, Start(c, primary, standby, clock, ttl), es, {})
      && s == Exec(c, Start(c, primary, standby, clock, ttl), es);
    StartInv(c, primary, standby, clock, ttl);
    RunInv(c, Start(c, primary, standby, clock, ttl), es);
  }

  /** Two agents are never inside a locally live grant at one instant. */
  lemma MutualExclusion(c: Setting, s: State)
    requires Reachable(c, s)
    ensures Exclusive(c, s)
  {
    ReachableInv(c, s);
    forall a, b | Live(c, s, a) && Live(c, s, b) ensures a == b {
      LiveIsLastTenant(c, s, a);
      LiveIsLastTenant(c, s, b);
    }
  }

  /** A live holder has stopped strictly before central would hand the subnet to anyone else. */
  lemma NoHandoverWhileLive(c: Setting, s: State, agent: AgentId, to: AgentId, from: Option<AgentId>, now: Time)
    requires Reachable(c, s) && Live(c, s, agent) && to != agent
    requires now <= CentralNow(c, s)
    ensures !s.row.GrantApplies(to, from, now)
    ensures !s.row.RenewApplies(to, now)
  {
    ReachableInv(c, s);
    LiveIsLastTenant(c, s, agent);
  }

  /** The recorded predecessor's tenure is over when the holder's begins. */
  lemma TenureOrder(c: Setting, s: State)
    requires Reachable(c, s)
    ensures s.row.holder.Some? ==> s.row.since.Some?
    ensures s.row.holder.Some? && s.row.prevUntil.Some? ==> s.row.prevUntil.value <= s.row.since.value
  {
    ReachableInv(c, s);
  }

  /** The time from the start of a tenure to the start of the next; the last has no end yet. */
  predicate InSpell(s: State, k: nat, ts: Time) {
    k < |s.tenures| && s.tenures[k].start <= ts && (k + 1 < |s.tenures| ==> ts < s.tenures[k + 1].start)
  }

  /** No stray of an agent that holds, or ever held, the lease lies in another agent's spell. */
  ghost predicate StraysStayHome(s: State) {
    forall r, k: nat :: r in s.strays && HeldOnce(s, r.agent) && InSpell(s, k, r.ts) ==> s.tenures[k].agent == r.agent
  }

  /**
   * The accepted series, ordered by time, is a concatenation of spells: a reading that falls between
   * two readings of one spell is of that spell and its agent, as they are.  Agents that collect and
   * push without ever having held the lease do not get into it.
   */
  lemma AcceptedSeriesNeverInterleaves(c: Setting, s: State, first: Reading, between: Reading, last: Reading, k: nat)
    requires Reachable(c, s) && StraysStayHome(s)
    requires {first, between, last} <= s.admitted
    requires InSpell(s, k, first.ts) && InSpell(s, k, last.ts) && first.ts <= between.ts <= last.ts
    ensures InSpell(s, k, between.ts)
    ensures first.agent == between.agent == last.agent == s.tenures[k].agent
    ensures between in s.taken ==> between.tenure == k
  {
    assert InSpell(s, k, between.ts);
    AcceptedInSpell(c, s, first, k);
    AcceptedInSpell(c, s, between, k);
    AcceptedInSpell(c, s, last, k);
  }

  lemma AcceptedInSpell(c: Setting, s: State, r: Reading, k: nat)
    requires Reachable(c, s) && StraysStayHome(s) && r in s.admitted && InSpell(s, k, r.ts)
    ensures r.agent == s.tenures[k].agent
    ensures r in s.taken ==> r.tenure == k
  {
    hide Reachable, GrantInv, PredecessorInv;
    ReachableInv(c, s);
    if r in s.taken {
      assert InTenure(c, s, r);
      OneSpell(s, r.tenure, k, r.ts);
    }
  }

  lemma OneSpell(s: State, j: nat, k: nat, ts: Time)
    requires TenureInv(s) && InSpell(s, j, ts) && InSpell(s, k, ts)
    ensures j == k
  {
  }

  /** Readings collected under grants of an earlier tenure are all strictly older than a later one's. */
  lemma TenuresAreDisjoint(c: Setting, s: State, a: Reading, b: Reading)
    requires Reachable(c, s) && a in s.taken && b in s.taken
    ensures a.tenure < b.tenure ==> a.ts < b.ts
    ensures a.tenure == b.tenure ==> a.agent == b.agent
  {
    ReachableInv(c, s);
    TenuresInOrder(c, s, a, b);
  }

  lemma TenuresInOrder(c: Setting, s: State, a: Reading, b: Reading)
    requires s.row.expires.Some? && TenureInv(s) && InTenure(c, s, a) && InTenure(c, s, b)
    ensures a.tenure < b.tenure ==> a.ts < b.ts
    ensures a.tenure == b.tenure ==> a.agent == b.agent
  {
  }

  /**
   * Who is admitted with a stamp from inside a tenure that is over and was not its own: the holder
   * and the recorded predecessor, and nobody else.
   */
  lemma ForeignStampAdmittedIff(c: Setting, s: State, agent: AgentId, ts: Time, k: nat)
    requires Reachable(c, s) && k + 1 < |s.tenures| && s.tenures[k].agent != agent
    requires s.tenures[k].start <= ts < s.tenures[k + 1].start
    ensures s.row.Admits(agent, Some(ts)) <==> s.row.holder == Some(agent) || s.row.prev == Some(agent)
  {
    hide Reachable, GrantInv, AdmittedInv, InTenure;
    ReachableInv(c, s);
    var n := |s.tenures|;
    if k + 2 < n {
      assert s.tenures[k + 1].start <= s.tenures[n - 2].start;
    }
    assert s.tenures[k + 1].start <= Last(s).start;
  }

  /**
   * A reading collected under a grant is admitted, whenever it is pushed, iff its agent is the holder
   * or the recorded predecessor; so whatever the last two tenures collected is, and after a release
   * whatever the last one did: a displaced or revoked collector's spool is not refused.
   */
  lemma HistoryAdmittedIff(c: Setting, s: State, r: Reading)
    requires Reachable(c, s) && r in s.taken
    ensures s.row.Admits(r.agent, Some(r.ts)) <==> s.row.holder == Some(r.agent) || s.row.prev == Some(r.agent)
    ensures s.row.holder.Some? && r.tenure >= |s.tenures| - 2 ==> s.row.Admits(r.agent, Some(r.ts))
    ensures s.row.holder.None? && r.tenure == |s.tenures| - 1 ==> s.row.Admits(r.agent, Some(r.ts))
  {
    hide Reachable, GrantInv, AdmittedInv;
    ReachableInv(c, s);
    assert InTenure(c, s, r);
    hide RowInv;
    var n := |s.tenures|;
    if r.tenure + 2 < n {
      assert s.tenures[r.tenure + 1].start <= s.tenures[n - 2].start;
    }
  }

  /**
   * From the start of the current tenure on the table takes stamps from nobody but the holder, whether
   * or not the agent that pushes them knows what a lease is; except that the very instant it started is
   * also the predecessor's, if its own tenure ended then.
   */
  lemma CurrentTenureAdmitsOnlyHolder(c: Setting, s: State, agent: AgentId, ts: Time)
    requires Reachable(c, s)
    requires s.row.holder.Some? && s.row.since.Some? && s.row.since.value <= ts
    ensures s.row.Admits(agent, Some(ts)) <==>
      s.row.holder == Some(agent) || (s.row.prev == Some(agent) && s.row.prevUntil == s.row.since == Some(ts))
  {
    ReachableInv(c, s);
  }
}
