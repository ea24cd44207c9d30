/**
 * Exactly when one statement is harmless: a heartbeat (central/collector.py, `renew_lease`), which writes
 * `now + ttl` and takes no maximum, so it can put the row's expiry below a deadline already granted; a
 * takeover (`grant_lease`); and seeding a lease again (central/dashboard/manage.py).
 */
module LeaseRenewals {
  import opened Options
  import opened CollectorLease
  import opened LeaseProtocol

  /** A grant the agent believes, or one on its way to it, ends at this instant of central's clock. */
  predicate Granted(c: Setting, s: State, agent: AgentId, end: Time) {
    || (agent in s.deadline && end == ToCentral(c, agent, s.deadline[agent]))
    || InFlight(c, s, agent, end)
  }

  predicate InFlight(c: Setting, s: State, agent: AgentId, end: Time) {
    exists id :: id in s.wire && Carries(c, s.wire[id], agent, end)
  }

  predicate Carries(c: Setting, m: Message, agent: AgentId, end: Time) {
    m.Reply? && m.held && m.agent == agent && end == ToCentral(c, agent, m.anchor) + m.ttl
  }

  /** Every grant is over, or the current tenant's and within the row's expiry. */
  ghost predicate Covered(c: Setting, s: State) {
    && s.tenures != [] && s.row.Redundant() && s.row.expires.Some?
    && (s.row.holder.Some? ==> s.row.holder.value == Last(s).agent)
    && forall a, end :: Granted(c, s, a, end) ==> end <= CentralNow(c, s) || (a == Last(s).agent && end <= s.row.expires.value)
  }

  /** A renewal to this expiry leaves a grant of the agent uncovered while there is still time on it. */
  ghost predicate Endangers(c: Setting, s: State, agent: AgentId, expiry: Time) {
    exists end :: Granted(c, s, agent, end) && end > expiry && end > CentralNow(c, s)
  }

  lemma CoveredIsExclusive(c: Setting, s: State)
    requires Covered(c, s)
    ensures Exclusive(c, s)
  {
    forall a | Live(c, s, a) ensures a == Last(s).agent {
      assert Granted(c, s, a, ToCentral(c, a, s.deadline[a]));
    }
  }

  lemma InvIsCovered(c: Setting, s: State)
    requires Inv(c, s)
    ensures Covered(c, s)
  {
    forall a, end | Granted(c, s, a, end) ensures Bounded(s, a, end) {
      if InFlight(c, s, a, end) {
        var id :| id in s.wire && Carries(c, s.wire[id], a, end);
        assert MessageInv(c, s, s.wire[id]);
      }
    }
  }

  /** The grants after a step: those before it, and the one an executed heartbeat puts in its answer. */
  lemma NewGrants(c: Setting, s: State, e: Event, a: AgentId, end: Time)
    requires Granted(c, Apply(c, s, e), a, end)
    ensures || Granted(c, s, a, end)
            || (&& e.Heartbeat? && e.id in s.wire && s.wire[e.id].Request? && s.wire[e.id].agent == a
                && s.row.RenewApplies(a, e.now) && end == ToCentral(c, a, s.wire[e.id].anchor) + e.ttl)
  {
    var t := Apply(c, s, e);
    if InFlight(c, t, a, end) {
      var id :| id in t.wire && Carries(c, t.wire[id], a, end);
      if id in s.wire && t.wire[id] == s.wire[id] {
        assert Carries(c, s.wire[id], a, end);
      }
    } else if e.Deliver? && e.id in s.wire {
      assert (a in s.deadline && end == ToCentral(c, a, s.deadline[a])) || Carries(c, s.wire[e.id], a, end);
    }
  }

  /** A step keeps the grants covered, a renewal provided it endangers none. */
  lemma StepCovers(c: Setting, s: State, e: Event)
    requires Covered(c, s) && Fair(c, s, e, {NoRenewalLowers})
    requires Renews(s, e) ==> !Endangers(c, s, s.wire[e.id].agent, e.now + e.ttl)
    ensures Covered(c, Apply(c, s, e))
  {
    assert Meets(c, s, e, NowNotAhead) && Meets(c, s, e, NowAfterArrival) && Meets(c, s, e, StaysRedundant);
    var t := Apply(c, s, e);
    forall a, end | Granted(c, t, a, end)
      ensures end <= CentralNow(c, t) || (a == Last(t).agent && end <= t.row.expires.value)
    {
      NewGrants(c, s, e, a, end);
    }
  }

  lemma {:induction false} RunCovers(c: Setting, start: State, es: seq<Event>)
    requires Covered(c, start) && FairRun(c, start, es, {})
    ensures Covered(c, Exec(c, start, es))
    decreases |es|
  {
    if es != [] {
      var s, e := Exec(c, start, es[..|es| - 1]), es[|es| - 1];
      RunCovers(c, start, es[..|es| - 1]);
      hide Apply, Granted;
      assert Meets(c, s, e, NoRenewalLowers);
      assert Fair(c, s, e, {NoRenewalLowers});
      StepCovers(c, s, e);
    }
  }

  // ------------------------------------------------------------------------------------------
  // From an endangered grant to two agents at once
  // ------------------------------------------------------------------------------------------

  ghost predicate RunTo(c: Setting, start: State, es: seq<Event>, s: State) {
    FairRun(c, start, es, {}) && s == Exec(c, start, es)
  }

  lemma Further(c: Setting, start: State, es: seq<Event>, s: State, e: Event) returns (more: seq<Event>, t: State)
    requires RunTo(c, start, es, s) && Fair(c, s, e, {})
    ensures RunTo(c, start, more, t) && t == Apply(c, s, e)
  {
    more, t := es + [e], Apply(c, s, e);
    assert more[..|more| - 1] == es;
  }

  lemma {:induction false} Unused(used: set<nat>) returns (id: nat)
    ensures forall k :: k in used ==> k < id
    decreases used
  {
    id := 0;
    if used != {} {
      var some :| some in used;
      var rest := Unused(used - {some});
      assert forall k :: k in used ==> k == some || k in used - {some};
      id := if some < rest then rest else some + 1;
    }
  }

  /** The answer on its way arrives. */
  lemma GrantArrives(c: Setting, start: State, s: State, agent: AgentId, end: Time) returns (es: seq<Event>, t: State)
    requires RunTo(c, start, [], s) && Granted(c, s, agent, end) && end > CentralNow(c, s)
    ensures RunTo(c, start, es, t) && t.row == s.row && t.clock == s.clock
    ensures agent in t.deadline && ToCentral(c, agent, t.deadline[agent]) == end
  {
    es, t := [], s;
    if InFlight(c, s, agent, end) {
      var id :| id in s.wire && Carries(c, s.wire[id], agent, end);
      es, t := Further(c, start, es, s, Deliver(id));
    }
  }

  /** A new holder heartbeats, all at one instant, and is live. */
  lemma HolderGoesLive(c: Setting, start: State, es: seq<Event>, s: State, agent: AgentId)
    returns (more: seq<Event>, t: State)
    requires RunTo(c, start, es, s) && s.row.Redundant() && s.row.Eligible(agent) && s.row.holder == Some(agent)
    requires s.row.expires.Some?
    ensures RunTo(c, start, more, t) && Live(c, t, agent) && t.clock == s.clock
    ensures forall a :: a != agent && a in s.deadline ==> a in t.deadline && t.deadline[a] == s.deadline[a]
  {
    var id := Unused(s.wire.Keys);
    var now := CentralNow(c, s);
    var ttl := if s.row.expires.value > now then s.row.expires.value - now else 1;
    more, t := Further(c, start, es, s, Send(agent, id));
    more, t := Further(c, start, more, t, Heartbeat(id, now, ttl));
    more, t := Further(c, start, more, t, Deliver(id));
  }

  /** Once the lowered expiry has passed, the worker hands the subnet to somebody else. */
  lemma LapsedIsTakenOver(c: Setting, start: State, es: seq<Event>, s: State, agent: AgentId, other: AgentId, wait: nat)
    returns (more: seq<Event>, t: State)
    requires RunTo(c, start, es, s) && s.row.holder == Some(agent) && s.row.expires.Some? && other != agent
    requires s.row.expires.value <= CentralNow(c, s) + wait
    ensures RunTo(c, start, more, t) && t.clock == s.clock + wait && t.deadline == s.deadline
    ensures t.row.holder == Some(other) && t.row.Redundant() && t.row.Eligible(other)
    ensures t.row.expires.Some?
  {
    more, t := Further(c, start, es, s, Reassign(agent, other));
    more, t := Further(c, start, more, t, Tick(wait));
    more, t := Further(c, start, more, t, Takeover(other, Some(agent), CentralNow(c, t), 1));
  }

  /** So an agent whose deadline lies beyond the row's expiry ends up collecting beside another. */
  lemma TakenOverWhileLive(c: Setting, start: State, es: seq<Event>, s: State, agent: AgentId, end: Time)
    returns (more: seq<Event>, t: State)
    requires RunTo(c, start, es, s) && s.row.holder == Some(agent) && s.row.expires.Some?
    requires agent in s.deadline && ToCentral(c, agent, s.deadline[agent]) == end
    requires end > CentralNow(c, s) && end > s.row.expires.value
    ensures RunTo(c, start, more, t) && !Exclusive(c, t)
  {
    hide RunTo;
    var other: AgentId := if agent == 0 then 1 else 0;
    var wait: nat := if s.row.expires.value > CentralNow(c, s) then s.row.expires.value - CentralNow(c, s) else 0;
    more, t := LapsedIsTakenOver(c, start, es, s, agent, other, wait);
    more, t := HolderGoesLive(c, start, more, t, other);
    assert Live(c, t, agent) && Live(c, t, other);
  }

  /** And so does an agent that still has time on its deadline while another is the holder. */
  lemma JoinedWhileLive(c: Setting, start: State, es: seq<Event>, s: State, agent: AgentId, holder: AgentId)
    returns (more: seq<Event>, t: State)
    requires RunTo(c, start, es, s) && s.row.holder == Some(holder) && s.row.expires.Some? && agent != holder
    requires Live(c, s, agent)
    ensures RunTo(c, start, more, t) && !Exclusive(c, t)
  {
    hide RunTo;
    more, t := Further(c, start, es, s, Reassign(holder, agent));
    more, t := HolderGoesLive(c, start, more, t, holder);
    assert Live(c, t, agent) && Live(c, t, holder);
  }

  // ------------------------------------------------------------------------------------------
  // The condition
  // ------------------------------------------------------------------------------------------

  /** Whatever happens next, as long as it respects every assumption, exclusion holds. */
  ghost predicate StaysExclusive(c: Setting, start: State) {
    forall es :: FairRun(c, start, es, {}) ==> Exclusive(c, Exec(c, start, es))
  }

  /** A row as a statement leaves it that gave or kept the lease. */
  predicate Held(s: State) {
    s.tenures != [] && s.row.Redundant() && s.row.expires.Some? && s.row.holder == Some(Last(s).agent)
  }

  /**
   * Of any state with a holder, however it came about: exclusion holds from there on iff every grant
   * with time on it is the holder's and within the row's expiry.
   */
  lemma StaysExclusiveIff(c: Setting, s: State)
    requires Held(s)
    ensures StaysExclusive(c, s) <==> Covered(c, s)
  {
    if Covered(c, s) {
      forall es | FairRun(c, s, es, {}) ensures Exclusive(c, Exec(c, s, es)) {
        RunCovers(c, s, es);
        CoveredIsExclusive(c, Exec(c, s, es));
      }
    } else {
      var holder := Last(s).agent;
      var a, end :| Granted(c, s, a, end) && end > CentralNow(c, s) && (a != holder || end > s.row.expires.value);
      assert FairRun(c, s, [], {}) && Exec(c, s, []) == s;
      hide Covered, Granted;
      var es, t := GrantArrives(c, s, s, a, end);
      if a != holder {
        es, t := JoinedWhileLive(c, s, es, t, a, holder);
      } else {
        es, t := TakenOverWhileLive(c, s, es, t, a, end);
      }
      assert FairRun(c, s, es, {}) && !Exclusive(c, Exec(c, s, es));
    }
  }

  // ------------------------------------------------------------------------------------------
  // Heartbeats
  // ------------------------------------------------------------------------------------------

  /** The grant in the answer to a heartbeat, counted from the instant its agent sampled. */
  function Answered(c: Setting, s: State, id: nat, ttl: int): Time
    requires id in s.wire
  {
    ToCentral(c, s.wire[id].agent, s.wire[id].anchor) + ttl
  }

  predicate Executes(s: State, id: nat, now: Time) {
    id in s.wire && s.wire[id].Request? && s.row.RenewApplies(s.wire[id].agent, now)
  }

  /** A grant after the statement: one there was, or the one in its answer. */
  predicate GrantedThen(c: Setting, s: State, id: nat, ttl: int, a: AgentId, end: Time)
    requires id in s.wire
  {
    Granted(c, s, a, end) || (a == s.wire[id].agent && end == Answered(c, s, id, ttl))
  }

  /** After the statement, a grant with time on it is another's or lies beyond the expiry it writes. */
  ghost predicate Uncovers(c: Setting, s: State, id: nat, now: Time, ttl: int)
    requires id in s.wire
  {
    exists a, end ::
      GrantedThen(c, s, id, ttl, a, end) && end > CentralNow(c, s) && (a != s.wire[id].agent || end > now + ttl)
  }

  lemma StillGranted(c: Setting, s: State, id: nat, now: Time, ttl: int, a: AgentId, end: Time)
    requires Executes(s, id, now) && GrantedThen(c, s, id, ttl, a, end)
    ensures Granted(c, Apply(c, s, Heartbeat(id, now, ttl)), a, end)
  {
    var t := Apply(c, s, Heartbeat(id, now, ttl));
    if InFlight(c, s, a, end) {
      var k :| k in s.wire && Carries(c, s.wire[k], a, end);
      assert k in t.wire && Carries(c, t.wire[k], a, end);
    } else {
      assert Carries(c, t.wire[id], s.wire[id].agent, Answered(c, s, id, ttl));
    }
  }

  lemma OldOrAnswered(c: Setting, s: State, id: nat, now: Time, ttl: int, a: AgentId, end: Time)
    requires Executes(s, id, now) && Granted(c, Apply(c, s, Heartbeat(id, now, ttl)), a, end)
    ensures GrantedThen(c, s, id, ttl, a, end)
  {
    NewGrants(c, s, Heartbeat(id, now, ttl), a, end);
  }

  /**
   * Whatever its time and lease length, a heartbeat that renews or picks up the lease is harmless iff
   * it leaves every grant with time on it, its own answer included, to its agent and within the new
   * expiry; otherwise some continuation has two agents collecting at once.
   */
  lemma HeartbeatSafeIff(c: Setting, s: State, id: nat, now: Time, ttl: int)
    requires Reachable(c, s) && Executes(s, id, now)
    ensures StaysExclusive(c, Apply(c, s, Heartbeat(id, now, ttl))) <==> !Uncovers(c, s, id, now, ttl)
  {
    hide Reachable, GrantInv, TenureInv, PredecessorInv, AdmittedInv, Granted, GrantedThen;
    ReachableInv(c, s);
    var t := Apply(c, s, Heartbeat(id, now, ttl));
    StaysExclusiveIff(c, t);
    forall a, end ensures Granted(c, t, a, end) <==> GrantedThen(c, s, id, ttl, a, end) {
      if Granted(c, t, a, end) {
        OldOrAnswered(c, s, id, now, ttl, a, end);
      }
      if GrantedThen(c, s, id, ttl, a, end) {
        StillGranted(c, s, id, now, ttl, a, end);
      }
    }
  }

  /**
   * Of a renewal that respects the other assumptions only the agent's own earlier grants matter: it is
   * harmless iff it endangers none of them.
   */
  lemma RenewalSafeIff(c: Setting, s: State, id: nat, now: Time, ttl: int)
    requires Reachable(c, s)
    requires Renews(s, Heartbeat(id, now, ttl)) && Fair(c, s, Heartbeat(id, now, ttl), {NoRenewalLowers})
    ensures StaysExclusive(c, Apply(c, s, Heartbeat(id, now, ttl))) <==> !Endangers(c, s, s.wire[id].agent, now + ttl)
  {
    HeartbeatSafeIff(c, s, id, now, ttl);
    assert Meets(c, s, Heartbeat(id, now, ttl), NowAfterArrival);
    ReachableInv(c, s);
    InvIsCovered(c, s);
    hide Inv, AdmittedInv, Reachable, Granted;
    var agent := s.wire[id].agent;
    if Endangers(c, s, agent, now + ttl) {
      var end :| Granted(c, s, agent, end) && end > now + ttl && end > CentralNow(c, s);
      assert GrantedThen(c, s, id, ttl, agent, end);
    }
  }

  /** What central can check on the row before the statement: an expiry that is not lowered. */
  lemma NotLoweringIsSafe(c: Setting, s: State, id: nat, now: Time, ttl: int)
    requires Reachable(c, s) && Renews(s, Heartbeat(id, now, ttl))
    requires s.row.expires.Some? && s.row.expires.value <= now + ttl
    ensures !Endangers(c, s, s.wire[id].agent, now + ttl)
  {
    ReachableInv(c, s);
    InvIsCovered(c, s);
  }

  // ------------------------------------------------------------------------------------------
  // Takeovers
  // ------------------------------------------------------------------------------------------

  /** Some agent but this one has time left on a grant. */
  ghost predicate OthersRunning(c: Setting, s: State, to: AgentId) {
    exists a, end :: a != to && Granted(c, s, a, end) && end > CentralNow(c, s)
  }

  lemma SameGrants(c: Setting, s: State, e: Event, a: AgentId, end: Time)
    requires e.Takeover? || e.Reseed?
    ensures Granted(c, Apply(c, s, e), a, end) <==> Granted(c, s, a, end)
  {
    var t := Apply(c, s, e);
    assert t.wire == s.wire && t.deadline == s.deadline && InFlight(c, t, a, end) == InFlight(c, s, a, end);
  }

  /** A takeover stamped at any time, ahead of real time too, is harmless iff nobody else's grant is still running. */
  lemma TakeoverSafeIff(c: Setting, s: State, to: AgentId, previous: Option<AgentId>, now: Time, ttl: int)
    requires Reachable(c, s) && s.row.GrantApplies(to, previous, now) && ttl > 0
    ensures StaysExclusive(c, Apply(c, s, Takeover(to, previous, now, ttl))) <==> !OthersRunning(c, s, to)
  {
    ReachableInv(c, s);
    InvIsCovered(c, s);
    hide Reachable, GrantInv, TenureInv, PredecessorInv, AdmittedInv, Granted, StaysExclusive;
    var e := Takeover(to, previous, now, ttl);
    var t := Apply(c, s, e);
    StaysExclusiveIff(c, t);
    forall a, end ensures Granted(c, t, a, end) <==> Granted(c, s, a, end) {
      SameGrants(c, s, e, a, end);
    }
  }

  // ------------------------------------------------------------------------------------------
  // Turning redundancy off and on again
  // ------------------------------------------------------------------------------------------

  /** A grant still running that a seeded lease does not account for. */
  ghost predicate Orphans(c: Setting, s: State, primary: AgentId, expiry: Time) {
    exists a, end :: Granted(c, s, a, end) && end > CentralNow(c, s) && (a != primary || end > expiry)
  }

  /**
   * Seeding the lease again after redundancy was off is harmless iff no other agent's grant is still
   * running, nor one of the primary's beyond the seeded expiry.
   */
  lemma ReseedSafeIff(c: Setting, s: State, standby: AgentId, now: Time, ttl: int)
    requires s.row.primary.Some?
    ensures StaysExclusive(c, Apply(c, s, Reseed(standby, now, ttl)))
       <==> !Orphans(c, s, s.row.primary.value, now + ttl)
  {
    hide Granted;
    var e := Reseed(standby, now, ttl);
    StaysExclusiveIff(c, Apply(c, s, e));
    forall a, end ensures Granted(c, Apply(c, s, e), a, end) <==> Granted(c, s, a, end) {
      SameGrants(c, s, e, a, end);
    }
  }
}
