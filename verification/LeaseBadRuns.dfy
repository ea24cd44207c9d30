/**
 * What goes wrong without each assumption of `LeaseProtocol`: for every one of them a run that keeps
 * all the others and ends with two agents collecting the subnet at one instant.
 */
module LeaseBadRuns {
  import opened Options
  import opened CollectorLease
  import opened LeaseProtocol
  import opened LeaseRenewals

  const PRIMARY: AgentId := 1
  const STANDBY: AgentId := 2

  /** `DEFAULT_LEASE_SECONDS`; every clock reads the same, which no assumption asks for. */
  function Plain(): Setting {
    Setting((a: AgentId) => 0, 0)
  }

  function Init(): State {
    Start(Plain(), PRIMARY, STANDBY, 0, 900)
  }

  ghost predicate Run(es: seq<Event>, dropped: Assumption, s: State) {
    FairRun(Plain(), Init(), es, {dropped}) && s == Exec(Plain(), Init(), es)
  }

  /** One more event at the end of a run. */
  lemma Extend(es: seq<Event>, dropped: Assumption, s: State, e: Event) returns (more: seq<Event>, t: State)
    requires Run(es, dropped, s) && CallersRule(e)
    requires forall a :: a != dropped ==> Meets(Plain(), s, e, a)
    ensures Run(more, dropped, t) && t == Apply(Plain(), s, e)
  {
    more, t := es + [e], Apply(Plain(), s, e);
    assert more[..|more| - 1] == es;
  }

  /** A heartbeat sent, executed at central's `now` and answered, all at one instant. */
  lemma ExtendHeartbeat(es: seq<Event>, dropped: Assumption, s: State, agent: AgentId, id: nat, now: Time)
    returns (more: seq<Event>, t: State)
    requires Run(es, dropped, s) && id !in s.wire
    requires dropped == NowNotAhead || now <= s.clock
    requires dropped == NowAfterArrival || s.clock <= now
    requires s.row.expires.Some? && (dropped == NoRenewalLowers || s.row.expires.value <= now + 900)
    requires s.row.Redundant() && s.row.Eligible(agent) && s.row.holder == Some(agent)
    ensures Run(more, dropped, t)
    ensures t == s.(row := s.row.(expires := Some(now + 900)),
                    deadline := s.deadline[agent := s.clock + 900])
  {
    more, t := Extend(es, dropped, s, Send(agent, id));
    more, t := Extend(more, dropped, t, Heartbeat(id, now, 900));
    more, t := Extend(more, dropped, t, Deliver(id));
    assert t.wire == s.wire;
  }

  ghost predicate Overlap(s: State) {
    Live(Plain(), s, PRIMARY) && Live(Plain(), s, STANDBY)
  }

  /** The worker hands the lapsed lease to the standby, which heartbeats at once. */
  lemma StandbyTakesOver(es: seq<Event>, dropped: Assumption, s: State, now: Time)
    returns (more: seq<Event>, t: State)
    requires Run(es, dropped, s) && s.wire == map[]
    requires s.row.primary == Some(PRIMARY) && s.row.standby == Some(STANDBY) && s.row.holder == Some(PRIMARY)
    requires s.row.Lapsed(now) && s.clock <= now
    requires dropped == NowNotAhead || now <= s.clock
    requires PRIMARY in s.deadline && s.clock < s.deadline[PRIMARY]
    ensures Run(more, dropped, t) && Overlap(t)
  {
    var e := Takeover(STANDBY, Some(PRIMARY), now, 900);
    more, t := Extend(es, dropped, s, e);
    more, t := ExtendHeartbeat(more, dropped, t, STANDBY, 0, now);
  }

  /** An operator shortens the lease: the next renewal pulls the expiry below a deadline already granted. */
  lemma ShorterTtl() returns (es: seq<Event>, s: State)
    ensures Run(es, NoRenewalLowers, s) && Overlap(s)
  {
    es, s := ExtendHeartbeat([], NoRenewalLowers, Init(), PRIMARY, 0, 0);
    es, s := Extend(es, NoRenewalLowers, s, Send(PRIMARY, 1));
    es, s := Extend(es, NoRenewalLowers, s, Heartbeat(1, 0, 60));
    es, s := Extend(es, NoRenewalLowers, s, Lose(1));
    es, s := Extend(es, NoRenewalLowers, s, Tick(60));
    assert s.wire == map[];
    es, s := StandbyTakesOver(es, NoRenewalLowers, s, 60);
  }

  /** A heartbeat that stalled before its UPDATE executes late, with the `now` it sampled early. */
  lemma StalledStatement() returns (es: seq<Event>, s: State)
    ensures Run(es, NoRenewalLowers, s) && Overlap(s)
  {
    es, s := [], Init();
    es, s := Extend(es, NoRenewalLowers, s, Send(PRIMARY, 7));
    es, s := Extend(es, NoRenewalLowers, s, Tick(100));
    es, s := ExtendHeartbeat(es, NoRenewalLowers, s, PRIMARY, 0, 100);
    es, s := Extend(es, NoRenewalLowers, s, Heartbeat(7, 0, 900));
    es, s := Extend(es, NoRenewalLowers, s, Lose(7));
    es, s := Extend(es, NoRenewalLowers, s, Tick(800));
    assert s.wire == map[];
    es, s := StandbyTakesOver(es, NoRenewalLowers, s, 900);
  }

  /** A worker whose clock runs ahead judges a live lease lapsed. */
  lemma FastWorker() returns (es: seq<Event>, s: State)
    ensures Run(es, NowNotAhead, s) && Overlap(s)
  {
    es, s := ExtendHeartbeat([], NowNotAhead, Init(), PRIMARY, 0, 0);
    es, s := StandbyTakesOver(es, NowNotAhead, s, 900);
  }

  /** A replica whose clock runs behind stamps a renewal earlier than the agent sent it. */
  lemma SlowReplica() returns (es: seq<Event>, s: State)
    ensures Run(es, NowAfterArrival, s) && Overlap(s)
  {
    es, s := Extend([], NowAfterArrival, Init(), Tick(100));
    es, s := ExtendHeartbeat(es, NowAfterArrival, s, PRIMARY, 0, 0);
    es, s := Extend(es, NowAfterArrival, s, Tick(800));
    es, s := StandbyTakesOver(es, NowAfterArrival, s, 900);
  }

  /** Redundancy turned off and on again seeds the primary while the standby's own deadline is live. */
  lemma OffAndOnAgain() returns (es: seq<Event>, s: State)
    ensures Run(es, StaysRedundant, s) && Overlap(s)
  {
    es, s := Extend([], StaysRedundant, Init(), Tick(900));
    var takeover := Takeover(STANDBY, Some(PRIMARY), 900, 900);
    es, s := Extend(es, StaysRedundant, s, takeover);
    es, s := ExtendHeartbeat(es, StaysRedundant, s, STANDBY, 0, 900);
    es, s := Extend(es, StaysRedundant, s, Reseed(STANDBY, 900, 900));
    es, s := ExtendHeartbeat(es, StaysRedundant, s, PRIMARY, 0, 900);
  }

  /** Drop any one assumption, keep the rest, and some run has two agents collecting at once. */
  lemma EveryAssumptionIsNeeded(dropped: Assumption)
    ensures exists es :: FairRun(Plain(), Init(), es, {dropped}) && !Exclusive(Plain(), Exec(Plain(), Init(), es))
  {
    var es, s;
    match dropped {
      case NoRenewalLowers => es, s := ShorterTtl();
      case NowNotAhead => es, s := FastWorker();
      case NowAfterArrival => es, s := SlowReplica();
      case StaysRedundant => es, s := OffAndOnAgain();
    }
    assert Run(es, dropped, s) && Overlap(s);
    assert FairRun(Plain(), Init(), es, {dropped}) && !Exclusive(Plain(), Exec(Plain(), Init(), es));
  }

  /** A stamp from inside the k-th tenure, pushed by somebody else, that the row admits. */
  ghost predicate AdmitsForeignStamp(s: State, agent: AgentId, ts: Time, k: nat) {
    && k + 1 < |s.tenures|
    && s.tenures[k].agent != agent
    && s.tenures[k].start <= ts < s.tenures[k + 1].start
    && s.row.Admits(agent, Some(ts))
  }

  /** The standby takes over at 900, and the primary takes the lease back at 1800. */
  lemma BackAndForth() returns (s: State, t: State)
    ensures Reachable(Plain(), s) && Reachable(Plain(), t)
    ensures s.tenures == [Tenure(PRIMARY, 0), Tenure(STANDBY, 900)] && s.row.Redundant() && s.row.holder == Some(STANDBY)
    ensures t.tenures == s.tenures + [Tenure(PRIMARY, 1800)] && t.row.Redundant() && t.row.holder == Some(PRIMARY)
    ensures t.row.prev == Some(STANDBY) && t.row.prevUntil == Some(1800)
  {
    var es, fs;
    s := Init();
    assert RunTo(Plain(), Init(), [], s);
    es, s := Further(Plain(), Init(), [], s, Tick(900));
    es, s := Further(Plain(), Init(), es, s, Takeover(STANDBY, Some(PRIMARY), 900, 900));
    fs, t := Further(Plain(), Init(), es, s, Tick(900));
    fs, t := Further(Plain(), Init(), fs, t, Takeover(PRIMARY, Some(STANDBY), 1800, 900));
    assert FairRun(Plain(), Start(Plain(), PRIMARY, STANDBY, 0, 900), es, {});
    assert FairRun(Plain(), Start(Plain(), PRIMARY, STANDBY, 0, 900), fs, {});
  }

  /**
   * Admission trusts the holder's stamps without a lower bound: in a reachable state the new holder
   * may push a stamp from inside its predecessor's tenure.
   */
  lemma HolderMayStampEarlierTenure()
    ensures exists s :: Reachable(Plain(), s) && s.row.holder == Some(STANDBY) && AdmitsForeignStamp(s, STANDBY, 500, 0)
  {
    var s, t := BackAndForth();
    assert AdmitsForeignStamp(s, STANDBY, 500, 0);
  }

  /** And the predecessor's up to its end only: it may push one from inside a tenure before its own. */
  lemma PredecessorMayStampEarlierTenure()
    ensures exists s :: Reachable(Plain(), s) && s.row.holder != Some(STANDBY) && AdmitsForeignStamp(s, STANDBY, 500, 0)
  {
    var s, t := BackAndForth();
    assert AdmitsForeignStamp(t, STANDBY, 500, 0);
  }
}
