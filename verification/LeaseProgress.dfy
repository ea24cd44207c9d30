/**
 * The lease does move on (central/collector.py, `renew_lease` and `grant_lease`): who may hold it gets
 * it once it has lapsed, in one round trip, and nobody else does.
 */
module LeaseProgress {
  import opened Options
  import opened CollectorLease
  import opened LeaseProtocol

  /** A heartbeat sent now, executed after one delay and answered after another, at central's own times. */
  function RoundTrip(c: Setting, s: State, agent: AgentId, id: nat, there: nat, back: nat, ttl: int): State {
    var sent := Apply(c, Apply(c, s, Send(agent, id)), Tick(there));
    var executed := Apply(c, sent, Heartbeat(id, CentralNow(c, sent), ttl));
    Apply(c, Apply(c, executed, Tick(back)), Deliver(id))
  }

  /** The two agents of a redundant subnet. */
  predicate IsPrimaryOrStandby(row: Row, agent: AgentId) {
    row.primary == Some(agent) || row.standby == Some(agent)
  }

  predicate Over(row: Row, at: Time) {
    row.expires.None? || row.expires.value <= at
  }

  /** The agent holds the lease for `ttl` from its statement, and is live unless the answer took that long. */
  predicate HoldsAfter(c: Setting, s: State, t: State, agent: AgentId, there: nat, back: nat, ttl: int) {
    && t.row.holder == Some(agent)
    && t.row.expires == Some(s.clock + c.central + there + ttl)
    && t.clock == s.clock + there + back
    && agent in t.deadline && t.deadline[agent] == s.clock + c.offset(agent) + ttl
    && (Live(c, t, agent) <==> there + back < ttl)
  }

  /**
   * A released subnet goes to whichever of its two agents heartbeats once the old expiry has passed:
   * the primary as well as the standby, whoever was released.
   */
  lemma UnheldIsPickedUp(c: Setting, s: State, agent: AgentId, id: nat, there: nat, back: nat, ttl: int)
    requires Reachable(c, s) && s.row.holder.None? && IsPrimaryOrStandby(s.row, agent) && id !in s.wire
    requires Over(s.row, s.clock + c.central + there)
    ensures var t := RoundTrip(c, s, agent, id, there, back, ttl);
            && HoldsAfter(c, s, t, agent, there, back, ttl)
            && t.row.since == Some(s.clock + c.central + there)
            && t.row.prev == s.row.prev && t.row.prevUntil == s.row.prevUntil
  {
    hide Reachable, GrantInv, TenureInv, PredecessorInv, AdmittedInv;
    ReachableInv(c, s);
  }

  /** A holder keeps the lease however late it heartbeats, if nobody took it over first. */
  lemma HolderRenews(c: Setting, s: State, agent: AgentId, id: nat, there: nat, back: nat, ttl: int)
    requires Reachable(c, s) && s.row.holder == Some(agent) && IsPrimaryOrStandby(s.row, agent) && id !in s.wire
    ensures var t := RoundTrip(c, s, agent, id, there, back, ttl);
            && HoldsAfter(c, s, t, agent, there, back, ttl)
            && t.row.since == s.row.since && t.row.prev == s.row.prev && t.row.prevUntil == s.row.prevUntil
  {
    hide Reachable, GrantInv, TenureInv, PredecessorInv, AdmittedInv;
    ReachableInv(c, s);
  }

  /** Otherwise a heartbeat of anybody but the holder gets nothing, and a deadline it still believed in is withdrawn. */
  lemma UnlapsedIsNotPickedUp(c: Setting, s: State, agent: AgentId, id: nat, there: nat, back: nat, ttl: int)
    requires Reachable(c, s) && s.row.holder != Some(agent) && id !in s.wire
    requires !Over(s.row, s.clock + c.central + there) || s.row.holder.Some? || !IsPrimaryOrStandby(s.row, agent)
    ensures var t := RoundTrip(c, s, agent, id, there, back, ttl);
            t.row == s.row && agent !in t.deadline
  {
    hide Reachable, GrantInv, TenureInv, PredecessorInv, AdmittedInv;
    ReachableInv(c, s);
  }

  /** Once lapsed, the worker's takeover gives the lease to either agent, from a holder or from nobody. */
  lemma LapsedIsGranted(c: Setting, s: State, to: AgentId, ttl: int)
    requires Reachable(c, s) && IsPrimaryOrStandby(s.row, to) && s.row.holder != Some(to)
    requires Over(s.row, s.clock + c.central)
    ensures var now := s.clock + c.central;
            var t := Apply(c, s, Takeover(to, s.row.holder, now, ttl));
            && t.row.holder == Some(to) && t.row.expires == Some(now + ttl) && t.row.since == Some(now)
            && t.row.prev == (if s.row.holder.Some? then s.row.holder else s.row.prev)
            && t.row.prevUntil == (if s.row.holder.Some? then s.row.expires else s.row.prevUntil)
            && t.wire == s.wire && t.deadline == s.deadline
  {
    hide Reachable, GrantInv, TenureInv, PredecessorInv, AdmittedInv;
    ReachableInv(c, s);
  }

  /** And the new holder's first heartbeat makes it live. */
  lemma TakeoverGoesLive(c: Setting, s: State, to: AgentId, id: nat, there: nat, back: nat, ttl: int)
    requires Reachable(c, s) && IsPrimaryOrStandby(s.row, to) && s.row.holder != Some(to) && id !in s.wire
    requires Over(s.row, s.clock + c.central) && ttl > 0
    ensures var t := Apply(c, s, Takeover(to, s.row.holder, s.clock + c.central, ttl));
            HoldsAfter(c, t, RoundTrip(c, t, to, id, there, back, ttl), to, there, back, ttl)
  {
    var e := Takeover(to, s.row.holder, s.clock + c.central, ttl);
    LapsedIsGranted(c, s, to, ttl);
    StillReachable(c, s, e);
    HolderRenews(c, Apply(c, s, e), to, id, there, back, ttl);
  }

  lemma StillReachable(c: Setting, s: State, e: Event)
    requires Reachable(c, s) && Fair(c, s, e, {})
    ensures Reachable(c, Apply(c, s, e))
  {
    var primary, standby, clock, ttl, es :|
      && ttl > 0 && FairRun(c, Start(c, primary, standby, clock, ttl), es, {})
      && s == Exec(c, Start(c, primary, standby, clock, ttl), es);
    var more := es + [e];
    assert more[..|es|] == es;
    assert FairRun(c, Start(c, primary, standby, clock, ttl), more, {});
  }

  /** A takeover misses unless the lease lapsed, the holder is the one named, and the heir is primary or standby. */
  lemma TakeoverMisses(c: Setting, s: State, to: AgentId, named: Option<AgentId>, now: Time, ttl: int)
    requires Reachable(c, s)
    requires !Over(s.row, now) || s.row.holder != named || !IsPrimaryOrStandby(s.row, to)
    ensures Apply(c, s, Takeover(to, named, now, ttl)) == s
  {
    hide Reachable, GrantInv, TenureInv, PredecessorInv, AdmittedInv;
    ReachableInv(c, s);
  }

  /**
   * Reassignment takes effect on its own: a holder that is neither primary nor standby any more cannot
   * renew, so the expiry stands and the lease lapses.
   */
  lemma OutsiderCannotRenew(c: Setting, s: State, agent: AgentId, id: nat, there: nat, back: nat, ttl: int)
    requires Reachable(c, s) && !IsPrimaryOrStandby(s.row, agent) && id !in s.wire
    ensures var t := RoundTrip(c, s, agent, id, there, back, ttl);
            t.row == s.row && agent !in t.deadline
  {
    hide Reachable, GrantInv, TenureInv, PredecessorInv, AdmittedInv;
    ReachableInv(c, s);
  }

  /** Nobody but the primary or the standby ever becomes the holder. */
  lemma NewHolderIsOneOfTheTwo(c: Setting, s: State, e: Event, agent: AgentId)
    requires Reachable(c, s) && Fair(c, s, e, {})
    requires Apply(c, s, e).row.holder == Some(agent) && s.row.holder != Some(agent)
    ensures IsPrimaryOrStandby(Apply(c, s, e).row, agent)
  {
    hide Reachable, GrantInv, TenureInv, PredecessorInv, AdmittedInv;
    ReachableInv(c, s);
  }

  /** Without a standby there is no lease: no statement takes one, every agent collects, and every reading is admitted. */
  lemma UnredundantAdmitsAll(row: Row, agent: AgentId, named: Option<AgentId>, now: Time, ts: Option<Time>)
    requires row.standby.None?
    ensures !row.RenewApplies(agent, now) && !row.GrantApplies(agent, named, now)
    ensures row.MayCollect(agent) && row.Admits(agent, ts)
  {
  }
}
