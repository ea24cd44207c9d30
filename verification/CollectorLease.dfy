/**
 * The collection lease on one subnet row (central/collector.py).
 *
 * Every statement in the source is a single conditional UPDATE.  `Row` gives the meaning of each
 * statement as a guard (the WHERE clause) and a new row (the SET clause); the class `Subnet` is the
 * mutable row, and each of its methods is one statement whose result is the rowcount test.
 */
module CollectorLease {
  import opened Options

  type AgentId = nat
  type Time = int

  datatype Row = Row(
    primary: Option<AgentId>,
    standby: Option<AgentId>,
    holder: Option<AgentId>,
    expires: Option<Time>,
    since: Option<Time>,
    prev: Option<AgentId>,
    prevUntil: Option<Time>)
  {
    predicate Redundant() {
      standby.Some?
    }

    predicate Eligible(agent: AgentId) {
      primary == Some(agent) || standby == Some(agent)
    }

    predicate Lapsed(now: Time) {
      expires.None? || expires.value <= now
    }

    predicate RenewApplies(agent: AgentId, now: Time) {
      && Redundant()
      && Eligible(agent)
      && (holder == Some(agent) || (holder.None? && Lapsed(now)))
    }

    function Renewed(agent: AgentId, now: Time, ttl: int): Row {
      this.(holder := Some(agent),
            expires := Some(now + ttl),
            since := if holder == Some(agent) then since else Some(now))
    }

    predicate GrantApplies(to: AgentId, from: Option<AgentId>, now: Time) {
      Redundant() && Eligible(to) && Lapsed(now) && holder == from
    }

    function Granted(to: AgentId, now: Time, ttl: int): Row {
      var displaces := holder.Some? && holder != Some(to);
      Row(primary, standby, Some(to), Some(now + ttl), Some(now),
          if displaces then holder else prev,
          if displaces then expires else prevUntil)
    }

    function Released(): Row {
      Row(primary, standby, None, expires, None, holder, expires)
    }

    /** `seed_lease`: a no-op without a primary. */
    function Seeded(now: Time, ttl: int): Row {
      if primary.None? then this
      else Row(primary, standby, primary, Some(now + ttl), Some(now), None, None)
    }

    predicate MayCollect(agent: AgentId) {
      !Redundant() || holder == Some(agent)
    }

    predicate Admits(agent: AgentId, ts: Option<Time>) {
      || MayCollect(agent)
      || (prev == Some(agent) && prevUntil.Some? && ts.Some? && ts.value <= prevUntil.value)
    }
  }

  class Subnet {
    const cidr: string
    var primary: Option<AgentId>
    var standby: Option<AgentId>
    var holder: Option<AgentId>
    var expires: Option<Time>
    var since: Option<Time>
    var prev: Option<AgentId>
    var prevUntil: Option<Time>

    constructor (cidr: string, primary: Option<AgentId>)
      ensures this.cidr == cidr
      ensures Snapshot() == Row(primary, None, None, None, None, None, None)
    {
      this.cidr := cidr;
      this.primary := primary;
      standby, holder, expires, since, prev, prevUntil := None, None, None, None, None, None;
    }

    function Snapshot(): Row
      reads this
    {
      Row(primary, standby, holder, expires, since, prev, prevUntil)
    }

    /** `_displaced`: record the predecessor, unless this statement displaces nobody. */
    method RecordDisplaced(agent: AgentId)
      modifies this`prev, this`prevUntil
      ensures prev == if holder.None? || holder == Some(agent) then old(prev) else holder
      ensures prevUntil == if holder.None? || holder == Some(agent) then old(prevUntil) else expires
    {
      var untouched := holder.None? || holder == Some(agent);
      if !untouched {
        prev, prevUntil := holder, expires;
      }
    }

    method RenewLease(agent: AgentId, now: Time, ttl: int) returns (renewed: bool)
      modifies this
      ensures renewed == old(Snapshot()).RenewApplies(agent, now)
      ensures Snapshot() == if renewed then old(Snapshot()).Renewed(agent, now, ttl) else old(Snapshot())
      ensures renewed <==>
        && standby.Some? && (primary == Some(agent) || standby == Some(agent))
        && (old(holder == Some(agent)) || (old(holder.None?) && old(expires.None? || expires.value <= now)))
      ensures primary == old(primary) && standby == old(standby) && prev == old(prev) && prevUntil == old(prevUntil)
      ensures renewed ==>
        && holder == Some(agent) && expires == Some(now + ttl)
        && since == if old(holder) == Some(agent) then old(since) else Some(now)
      ensures !renewed ==> holder == old(holder) && expires == old(expires) && since == old(since)
    {
      var eligible := primary == Some(agent) || standby == Some(agent);
      var free := holder.None? && (expires.None? || expires.value <= now);
      renewed := standby.Some? && eligible && (holder == Some(agent) || free);
      if renewed {
        RecordDisplaced(agent);
        if holder != Some(agent) {
          since := Some(now);
        }
        holder, expires := Some(agent), Some(now + ttl);
      }
    }

    method GrantLease(to: AgentId, from: Option<AgentId>, now: Time, ttl: int) returns (granted: bool)
      modifies this
      ensures granted == old(Snapshot()).GrantApplies(to, from, now)
      ensures Snapshot() == if granted then old(Snapshot()).Granted(to, now, ttl) else old(Snapshot())
      ensures granted <==>
        && standby.Some? && (primary == Some(to) || standby == Some(to))
        && old(expires.None? || expires.value <= now) && old(holder) == from
      ensures primary == old(primary) && standby == old(standby)
      ensures granted ==>
        && holder == Some(to) && expires == Some(now + ttl) && since == Some(now)
        && (if from.Some? && from != Some(to) then prev == from && prevUntil == old(expires)
            else prev == old(prev) && prevUntil == old(prevUntil))
      ensures !granted ==>
        holder == old(holder) && expires == old(expires) && since == old(since) && prev == old(prev) && prevUntil == old(prevUntil)
    {
      var eligible := primary == Some(to) || standby == Some(to);
      granted := standby.Some? && eligible && (expires.None? || expires.value <= now) && holder == from;
      if granted {
        RecordDisplaced(to);
        holder, expires, since := Some(to), Some(now + ttl), Some(now);
      }
    }

    method ReleaseLease(from: AgentId) returns (released: bool)
      modifies this
      ensures released == (old(holder) == Some(from))
      ensures Snapshot() == if released then old(Snapshot()).Released() else old(Snapshot())
      ensures primary == old(primary) && standby == old(standby) && expires == old(expires)
      ensures released ==> holder == None && since == None && prev == Some(from) && prevUntil == expires
    {
      released := holder == Some(from);
      if released {
        prev, prevUntil := holder, expires;
        holder, since := None, None;
      }
    }

    method SeedLease(now: Time, ttl: int)
      modifies this
      ensures Snapshot() == old(Snapshot()).Seeded(now, ttl)
      ensures primary == old(primary) && standby == old(standby)
      ensures if primary.None? then holder == old(holder) && expires == old(expires) && since == old(since)
              else holder == primary && expires == Some(now + ttl) && since == Some(now) && prev == None && prevUntil == None
    {
      if primary.Some? {
        holder, expires, since := primary, Some(now + ttl), Some(now);
        prev, prevUntil := None, None;
      }
    }
  }

  /** The subnets a heartbeat tries: redundant, and naming the agent as primary or standby. */
  predicate Candidate(row: Row, agent: AgentId) {
    row.Redundant() && row.Eligible(agent)
  }

  /** What one heartbeat makes of one row. */
  function AfterHeartbeat(row: Row, agent: AgentId, now: Time, ttl: int): Row {
    if row.RenewApplies(agent, now) then row.Renewed(agent, now, ttl) else row
  }

  datatype Beat = Beat(agent: AgentId, now: Time, ttl: int)

  /** The row after heartbeats by any agents, however timed. */
  function AfterHeartbeats(row: Row, beats: seq<Beat>): Row {
    if beats == [] then row
    else
      var last := beats[|beats| - 1];
      AfterHeartbeat(AfterHeartbeats(row, beats[..|beats| - 1]), last.agent, last.now, last.ttl)
  }

  predicate WrittenByHolder(row: Row, beats: seq<Beat>, expires: Option<Time>) {
    exists i ::
      0 <= i < |beats| && Some(beats[i].agent) == row.holder && expires == Some(beats[i].now + beats[i].ttl)
  }

  /**
   * No number of heartbeats displaces a holder, whoever sends them and whatever time they carry; the
   * expiry is the original one or one that the holder's own heartbeat wrote.
   */
  lemma {:induction false} HeartbeatsNeverDisplace(row: Row, beats: seq<Beat>)
    requires row.holder.Some?
    ensures var after := AfterHeartbeats(row, beats);
            && after == row.(expires := after.expires)
            && (after.expires == row.expires || WrittenByHolder(row, beats, after.expires))
  {
    if beats != [] {
      HeartbeatsNeverDisplace(row, beats[..|beats| - 1]);
    }
  }

  predicate Holds(subnet: Subnet, agent: AgentId)
    reads subnet
  {
    Candidate(subnet.Snapshot(), agent) && subnet.holder == Some(agent)
  }

  /** The CIDRs, in order, of the candidate subnets whose holder is the agent. */
  function HeldCidrs(subnets: seq<Subnet>, agent: AgentId): seq<string>
    reads subnets
  {
    if subnets == [] then []
    else
      var last := subnets[|subnets| - 1];
      HeldCidrs(subnets[..|subnets| - 1], agent)
      + if Holds(last, agent) then [last.cidr] else []
  }

  lemma HeldAppend(subnets: seq<Subnet>, subnet: Subnet, agent: AgentId)
    ensures HeldCidrs(subnets + [subnet], agent)
         == if Holds(subnet, agent) then HeldCidrs(subnets, agent) + [subnet.cidr] else HeldCidrs(subnets, agent)
  {
  }

  /** A redundant subnet of which the agent is primary or standby, and the holder. */
  predicate HeldBy(subnet: Subnet, agent: AgentId)
    reads subnet
  {
    && subnet.standby.Some? && (subnet.primary == Some(agent) || subnet.standby == Some(agent))
    && subnet.holder == Some(agent)
  }

  lemma {:induction false} HeldMeaning(subnets: seq<Subnet>, agent: AgentId, cidr: string)
    ensures cidr in HeldCidrs(subnets, agent) <==> exists s :: s in subnets && s.cidr == cidr && HeldBy(s, agent)
  {
    if subnets != [] {
      var before, last := subnets[..|subnets| - 1], subnets[|subnets| - 1];
      assert subnets == before + [last];
      HeldMeaning(before, agent, cidr);
    }
  }

  lemma HeldNone(agent: AgentId)
    ensures HeldCidrs([], agent) == []
  {
  }

  /** One subnet of the loop; no heartbeat statement for one that is not a candidate. */
  method RenewOne(subnet: Subnet, agent: AgentId, now: Time, ttl: int) returns (renewed: bool)
    modifies subnet
    ensures subnet.Snapshot() == AfterHeartbeat(old(subnet.Snapshot()), agent, now, ttl)
    ensures renewed == Holds(subnet, agent)
  {
    renewed := false;
    if subnet.standby.Some? && (subnet.primary == Some(agent) || subnet.standby == Some(agent)) {
      renewed := subnet.RenewLease(agent, now, ttl);
    }
  }

  /**
   * `renew_all`: the answer is exactly the set of CIDRs the agent holds once the loop is done, which
   * is all a heartbeat response may say.
   */
  method RenewAll(subnets: seq<Subnet>, agent: AgentId, now: Time, ttl: int) returns (held: seq<string>)
    requires forall i, j :: 0 <= i < j < |subnets| ==> subnets[i] != subnets[j]
    modifies subnets
    ensures forall i :: 0 <= i < |subnets| ==>
      subnets[i].Snapshot() == AfterHeartbeat(old(subnets[i].Snapshot()), agent, now, ttl)
    ensures held == HeldCidrs(subnets, agent)
    ensures forall cidr :: cidr in held <==> exists s :: s in subnets && s.cidr == cidr && HeldBy(s, agent)
  {
    hide AfterHeartbeat, Holds, HeldBy, HeldCidrs;
    held := [];
    HeldNone(agent);
    for k := 0 to |subnets|
      invariant forall i :: 0 <= i < k ==>
        subnets[i].Snapshot() == AfterHeartbeat(old(subnets[i].Snapshot()), agent, now, ttl)
      invariant forall i :: k <= i < |subnets| ==> subnets[i].Snapshot() == old(subnets[i].Snapshot())
      invariant held == HeldCidrs(subnets[..k], agent)
    {
      var subnet := subnets[k];
      ghost var before := subnets[..k];
      var renewed := RenewOne(subnet, agent, now, ttl);
      if renewed {
        held := held + [subnet.cidr];
      }
      HeldAppend(before, subnet, agent);
      assert subnets[..k + 1] == before + [subnet];
    }
    assert subnets[..|subnets|] == subnets;
    forall cidr ensures cidr in held <==> exists s :: s in subnets && s.cidr == cidr && HeldBy(s, agent) {
      HeldMeaning(subnets, agent, cidr);
    }
  }
}
