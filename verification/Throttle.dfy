/**
 * The failed-sign-in throttle (central/ratelimit.py): a table of failures, two buckets per
 * sign-in, and a budget over a trailing window.  Times are microseconds; keys are already
 * normalised.
 */
module Throttle {
  import opened Options
  import opened Sorting

  const SECOND := 1_000_000
  const PRUNE_MARGIN := 2

  datatype Scope = User | Ip

  datatype Attempt = Attempt(scope: Scope, key: string, ts: int)

  datatype Policy = Policy(enabled: bool, userThreshold: int, ipThreshold: int, windowMinutes: int) {
    function Window(): int { windowMinutes * 60 * SECOND }

    function Threshold(scope: Scope): int {
      if scope.User? then userThreshold else ipThreshold
    }
  }

  const DEFAULT_POLICY := Policy(true, 10, 50, 15)

  datatype Throttled = Throttled(scope: Scope, failures: nat, retryAfterSeconds: int)

  /** Who is trying to sign in: the key of each scope's bucket. */
  datatype Source = Source(username: string, ip: string) {
    function Key(scope: Scope): string {
      if scope.User? then username else ip
    }

    predicate Owns(a: Attempt) {
      a.key == Key(a.scope)
    }
  }

  // ------------------------------------------------------------------------------------------
  // Queries and deletions
  // ------------------------------------------------------------------------------------------

  /** When a bucket's failures since a time happened, in table order. */
  function Times(rows: seq<Attempt>, scope: Scope, key: string, since: int): seq<int> {
    if rows == [] then []
    else
      var earlier, a := Times(rows[..|rows| - 1], scope, key, since), rows[|rows| - 1];
      if a.scope == scope && a.key == key && a.ts >= since then earlier + [a.ts] else earlier
  }

  function Failures(rows: seq<Attempt>, scope: Scope, key: string, since: int): nat {
    |Times(rows, scope, key, since)|
  }

  /** A conditional DELETE. */
  function Without(rows: seq<Attempt>, doomed: Attempt -> bool): seq<Attempt> {
    if rows == [] then []
    else
      var kept, a := Without(rows[..|rows| - 1], doomed), rows[|rows| - 1];
      if doomed(a) then kept else kept + [a]
  }

  predicate OverBudget(rows: seq<Attempt>, scope: Scope, key: string, policy: Policy, now: int) {
    Failures(rows, scope, key, now - policy.Window()) >= policy.Threshold(scope)
  }

  predicate Refuses(rows: seq<Attempt>, source: Source, policy: Policy, now: int) {
    policy.enabled && (OverBudget(rows, User, source.username, policy, now) || OverBudget(rows, Ip, source.ip, policy, now))
  }

  /** The failures of a bucket since a time, by their place in the table. */
  function FailedAt(rows: seq<Attempt>, scope: Scope, key: string, since: int): set<nat> {
    set i | 0 <= i < |rows| && rows[i].scope == scope && rows[i].key == key && rows[i].ts >= since
  }

  lemma FailedAtStep(rows: seq<Attempt>, scope: Scope, key: string, since: int)
    requires rows != []
    ensures var last := |rows| - 1;
            var before, a := FailedAt(rows[..last], scope, key, since), rows[last];
            && last !in before
            && FailedAt(rows, scope, key, since)
               == if a.scope == scope && a.key == key && a.ts >= since then before + {last} else before
  {
    var last := |rows| - 1;
    assert forall i :: 0 <= i < last ==> rows[..last][i] == rows[i];
  }

  lemma {:induction false} FailuresCount(rows: seq<Attempt>, scope: Scope, key: string, since: int)
    ensures Failures(rows, scope, key, since) == |FailedAt(rows, scope, key, since)|
  {
    if rows != [] {
      FailuresCount(rows[..|rows| - 1], scope, key, since);
      FailedAtStep(rows, scope, key, since);
      hide FailedAt;
    }
  }

  /** In the policy's own numbers: so many of the user's or of the address's failures within so many minutes. */
  lemma RefusesIff(rows: seq<Attempt>, source: Source, policy: Policy, now: int)
    ensures var since := now - policy.windowMinutes * 60 * 1_000_000;
            Refuses(rows, source, policy, now) <==>
              && policy.enabled
              && (|FailedAt(rows, User, source.username, since)| >= policy.userThreshold
                  || |FailedAt(rows, Ip, source.ip, since)| >= policy.ipThreshold)
  {
    hide FailedAt, Failures;
    FailuresCount(rows, User, source.username, now - policy.Window());
    FailuresCount(rows, Ip, source.ip, now - policy.Window());
  }

  function OlderThan(cutoff: int): Attempt -> bool {
    (a: Attempt) => a.ts < cutoff
  }

  function OwnedBy(username: Option<string>, ip: Option<string>): Attempt -> bool {
    (a: Attempt) => Some(a.key) == if a.scope.User? then username else ip
  }

  function Stale(source: Source, cutoff: int): Attempt -> bool {
    (a: Attempt) => a.ts < cutoff && source.Owns(a)
  }

  /** The table after a failure is recorded. */
  function Recorded(rows: seq<Attempt>, source: Source, policy: Policy, now: int): seq<Attempt> {
    var added := rows + [Attempt(User, source.username, now), Attempt(Ip, source.ip, now)];
    Without(added, Stale(source, now - policy.Window() * PRUNE_MARGIN))
  }

  function Pruned(rows: seq<Attempt>, cutoff: int): seq<Attempt> {
    Without(rows, OlderThan(cutoff))
  }

  function Cleared(rows: seq<Attempt>, username: Option<string>, ip: Option<string>): seq<Attempt> {
    Without(rows, OwnedBy(username, ip))
  }

  lemma TimesAppend(rows: seq<Attempt>, a: Attempt, scope: Scope, key: string, since: int)
    ensures Times(rows + [a], scope, key, since)
         == Times(rows, scope, key, since) + if a.scope == scope && a.key == key && a.ts >= since then [a.ts] else []
  {
  }

  /** A deletion that spares every failure a query would see leaves the query's answer alone. */
  lemma {:induction false} DeletionSpares(rows: seq<Attempt>, doomed: Attempt -> bool, scope: Scope, key: string, since: int)
    requires forall a :: a in rows && doomed(a) ==> !(a.scope == scope && a.key == key && a.ts >= since)
    ensures Times(Without(rows, doomed), scope, key, since) == Times(rows, scope, key, since)
  {
    if rows != [] {
      var before, a := rows[..|rows| - 1], rows[|rows| - 1];
      DeletionSpares(before, doomed, scope, key, since);
      if !doomed(a) {
        TimesAppend(Without(before, doomed), a, scope, key, since);
      }
    }
  }

  lemma {:induction false} SurvivorsOf(rows: seq<Attempt>, doomed: Attempt -> bool)
    ensures forall a :: a in Without(rows, doomed) <==> a in rows && !doomed(a)
    ensures |Without(rows, doomed)| <= |rows|
  {
    if rows != [] {
      SurvivorsOf(rows[..|rows| - 1], doomed);
      assert rows == rows[..|rows| - 1] + [rows[|rows| - 1]];
    }
  }

  lemma {:induction false} TimesAreOfRows(rows: seq<Attempt>, scope: Scope, key: string, since: int, ts: int)
    ensures ts in Times(rows, scope, key, since) <==> ts >= since && Attempt(scope, key, ts) in rows
  {
    if rows != [] {
      TimesAreOfRows(rows[..|rows| - 1], scope, key, since, ts);
      assert rows == rows[..|rows| - 1] + [rows[|rows| - 1]];
    }
  }

  // ------------------------------------------------------------------------------------------
  // When a full bucket has room again
  // ------------------------------------------------------------------------------------------

  predicate Earlier(a: int, b: int) { a <= b }

  lemma EarlierIsTotal()
    ensures TotalPreorder(Earlier)
  {
  }

  /** The (failures - threshold + 1)-th oldest failure in the window, if the window reaches it. */
  function Blocking(rows: seq<Attempt>, scope: Scope, key: string, policy: Policy, now: int): Option<int> {
    var times := Sort(Times(rows, scope, key, now - policy.Window()), Earlier);
    var offset := if |times| > policy.Threshold(scope) then |times| - policy.Threshold(scope) else 0;
    if offset < |times| then Some(times[offset]) else None
  }

  function RetryAfterSeconds(rows: seq<Attempt>, scope: Scope, key: string, policy: Policy, now: int): int {
    match Blocking(rows, scope, key, policy, now)
    case None => policy.windowMinutes * 60
    case Some(oldest) =>
      var seconds := (oldest + policy.Window() - now) / SECOND;
      if seconds > 1 then seconds else 1
  }

  /** How many of some times are no earlier than a given one. */
  function CountFrom(times: seq<int>, since: int): nat {
    if times == [] then 0 else (if times[0] >= since then 1 else 0) + CountFrom(times[1..], since)
  }

  lemma {:induction false} CountFromSplits(a: seq<int>, b: seq<int>, since: int)
    ensures CountFrom(a + b, since) == CountFrom(a, since) + CountFrom(b, since)
  {
    if a == [] {
      assert a + b == b;
    } else {
      assert (a + b)[1..] == a[1..] + b;
      CountFromSplits(a[1..], b, since);
    }
  }

  lemma {:induction false} InsertCounts(item: int, times: seq<int>, since: int)
    ensures CountFrom(Insert(item, times, Earlier), since) == (if item >= since then 1 else 0) + CountFrom(times, since)
  {
    if times != [] && item > times[0] {
      InsertCounts(item, times[1..], since);
    }
  }

  lemma {:induction false} SortCounts(times: seq<int>, since: int)
    ensures CountFrom(Sort(times, Earlier), since) == CountFrom(times, since)
  {
    if times != [] {
      SortCounts(times[1..], since);
      InsertCounts(times[0], Sort(times[1..], Earlier), since);
    }
  }

  /** A later window counts those of an earlier window's failures that it still reaches. */
  lemma {:induction false} LaterWindow(rows: seq<Attempt>, scope: Scope, key: string, since: int, later: int)
    requires since <= later
    ensures Failures(rows, scope, key, later) == CountFrom(Times(rows, scope, key, since), later)
  {
    if rows != [] {
      var before, a := rows[..|rows| - 1], rows[|rows| - 1];
      LaterWindow(before, scope, key, since, later);
      if a.scope == scope && a.key == key && a.ts >= since {
        CountFromSplits(Times(before, scope, key, since), [a.ts], later);
      }
    }
  }

  lemma {:induction false} CountFromNone(times: seq<int>, since: int)
    requires forall i :: 0 <= i < |times| ==> times[i] < since
    ensures CountFrom(times, since) == 0
  {
    if times != [] {
      CountFromNone(times[1..], since);
    }
  }

  lemma {:induction false} CountFromAll(times: seq<int>, since: int)
    requires forall i :: 0 <= i < |times| ==> times[i] >= since
    ensures CountFrom(times, since) == |times|
  {
    if times != [] {
      CountFromAll(times[1..], since);
    }
  }

  lemma {:induction false} CountFromBound(times: seq<int>, since: int)
    ensures CountFrom(times, since) <= |times|
  {
    if times != [] {
      CountFromBound(times[1..], since);
    }
  }

  /** Of sorted times, at least k are recent enough iff the k-th from the end is. */
  lemma SortedCount(times: seq<int>, since: int, k: nat)
    requires SortedBy(times, Earlier) && 1 <= k <= |times|
    ensures CountFrom(times, since) >= k <==> times[|times| - k] >= since
  {
    var cut := |times| - k;
    if times[cut] >= since {
      assert times == times[..cut] + times[cut..];
      forall i | 0 <= i < k ensures times[cut..][i] >= since {
        assert Earlier(times[cut], times[cut..][i]);
      }
      CountFromSplits(times[..cut], times[cut..], since);
      CountFromAll(times[cut..], since);
    } else {
      var early, recent := times[..cut + 1], times[cut + 1..];
      assert times == early + recent;
      forall i | 0 <= i < |early| ensures early[i] < since {
        assert Earlier(early[i], times[cut]);
      }
      CountFromSplits(early, recent, since);
      CountFromNone(early, since);
      CountFromBound(recent, since);
    }
  }

  /**
   * With no further failures, a full bucket stays full at exactly the times up to the blocking
   * failure's plus the window.
   */
  lemma ExactRelease(rows: seq<Attempt>, scope: Scope, key: string, policy: Policy, now: int, at: int)
    requires policy.Threshold(scope) >= 1 && now <= at
    requires OverBudget(rows, scope, key, policy, now)
    ensures Blocking(rows, scope, key, policy, now).Some?
    ensures OverBudget(rows, scope, key, policy, at) <==> at <= Blocking(rows, scope, key, policy, now).value + policy.Window()
  {
    hide Times, Sort, CountFrom, SortedBy, TotalPreorder;
    var since, later := now - policy.Window(), at - policy.Window();
    var times := Times(rows, scope, key, since);
    EarlierIsTotal();
    LaterWindow(rows, scope, key, since, later);
    SortCounts(times, later);
    SortPermutes(times, Earlier);
    SameMembers(Sort(times, Earlier), times);
    SortSorts(times, Earlier);
    SortedCount(Sort(times, Earlier), later, policy.Threshold(scope));
  }

  /** The blocking failure is in the window, so the wait is from nothing to the whole window. */
  lemma BlockingInWindow(rows: seq<Attempt>, scope: Scope, key: string, policy: Policy, now: int)
    requires Blocking(rows, scope, key, policy, now).Some?
    ensures now <= Blocking(rows, scope, key, policy, now).value + policy.Window()
    ensures Attempt(scope, key, Blocking(rows, scope, key, policy, now).value) in rows
  {
    var times := Times(rows, scope, key, now - policy.Window());
    SortPermutes(times, Earlier);
    SameMembers(Sort(times, Earlier), times);
    TimesAreOfRows(rows, scope, key, now - policy.Window(), Blocking(rows, scope, key, policy, now).value);
  }

  /**
   * The reported wait is that distance in whole seconds, rounded down but never below one: the bucket
   * has room a second after it, and is still full when it is over iff a whole second was left.
   */
  lemma RetryTimeMeaning(rows: seq<Attempt>, scope: Scope, key: string, policy: Policy, now: int)
    requires policy.Threshold(scope) >= 1 && OverBudget(rows, scope, key, policy, now)
    ensures var retry := RetryAfterSeconds(rows, scope, key, policy, now);
            && 1 <= retry
            && Blocking(rows, scope, key, policy, now).Some?
            && (OverBudget(rows, scope, key, policy, now + retry * SECOND) <==>
                  Blocking(rows, scope, key, policy, now).value + policy.Window() - now >= SECOND)
            && (Blocking(rows, scope, key, policy, now).value + policy.Window() - now < SECOND ==> retry == 1)
            && !OverBudget(rows, scope, key, policy, now + (retry + 1) * SECOND)
  {
    var retry := RetryAfterSeconds(rows, scope, key, policy, now);
    BlockingInWindow(rows, scope, key, policy, now);
    ExactRelease(rows, scope, key, policy, now, now);
    var left := Blocking(rows, scope, key, policy, now).value + policy.Window() - now;
    assert retry * SECOND <= left <==> left >= SECOND;
    assert left < (retry + 1) * SECOND;
    ExactRelease(rows, scope, key, policy, now, now + (if retry >= 1 then retry else 0) * SECOND);
    ExactRelease(rows, scope, key, policy, now, now + (if retry >= 1 then retry + 1 else 0) * SECOND);
  }

  /** However full, a bucket has room again once a window has passed since its last failure. */
  lemma BlockNeverOutlastsWindow(rows: seq<Attempt>, scope: Scope, key: string, policy: Policy, now: int, at: int)
    requires policy.Threshold(scope) >= 1 && (forall a :: a in rows ==> a.ts <= now) && at > now + policy.Window()
    ensures !OverBudget(rows, scope, key, policy, at)
  {
    var times := Times(rows, scope, key, at - policy.Window());
    if times != [] {
      TimesAreOfRows(rows, scope, key, at - policy.Window(), times[0]);
      assert false;
    }
  }

  // ------------------------------------------------------------------------------------------
  // Pruning
  // ------------------------------------------------------------------------------------------

  /** Two tables no query whose window opens at `start` or later can tell apart. */
  ghost predicate Agree(a: seq<Attempt>, b: seq<Attempt>, start: int) {
    forall scope, key, since :: start <= since ==> Times(a, scope, key, since) == Times(b, scope, key, since)
  }

  /** Deleting what is older than a cutoff is invisible from a time on iff the time is no earlier. */
  lemma PruneInvisibleIff(cutoff: int, start: int)
    ensures (forall rows :: Agree(Pruned(rows, cutoff), rows, start)) <==> cutoff <= start
  {
    if cutoff <= start {
      forall rows ensures Agree(Pruned(rows, cutoff), rows, start) {
        PruneKeepsTimes(rows, cutoff, start);
      }
    } else {
      var rows := [Attempt(User, "", start)];
      assert Without(rows[..0], OlderThan(cutoff)) == [];
      assert Pruned(rows, cutoff) == [];
      assert Times(rows[..0], User, "", start) == [];
      assert Times(rows, User, "", start) == [start];
      assert Times([], User, "", start) == [];
    }
  }

  lemma PruneKeepsTimes(rows: seq<Attempt>, cutoff: int, start: int)
    requires cutoff <= start
    ensures Agree(Pruned(rows, cutoff), rows, start)
  {
    forall scope, key, since | start <= since
      ensures Times(Pruned(rows, cutoff), scope, key, since) == Times(rows, scope, key, since)
    {
      DeletionSpares(rows, OlderThan(cutoff), scope, key, since);
    }
  }

  /** The deletion inside `record_failure` is invisible to every window from now on. */
  lemma RecordedTimes(rows: seq<Attempt>, source: Source, policy: Policy, now: int, scope: Scope, key: string, since: int)
    requires policy.windowMinutes >= 0
    requires since >= now - policy.Window() * PRUNE_MARGIN
    ensures Times(Recorded(rows, source, policy, now), scope, key, since)
         == Times(rows, scope, key, since) + if key == source.Key(scope) && now >= since then [now] else []
  {
    var one, two := Attempt(User, source.username, now), Attempt(Ip, source.ip, now);
    DeletionSpares(rows + [one, two], Stale(source, now - policy.Window() * PRUNE_MARGIN), scope, key, since);
    assert rows + [one, two] == rows + [one] + [two];
    TimesAppend(rows, one, scope, key, since);
    TimesAppend(rows + [one], two, scope, key, since);
  }

  /** Clearing forgets its buckets and no other. */
  lemma {:induction false} ClearedTimes(rows: seq<Attempt>, username: Option<string>, ip: Option<string>,
                                        scope: Scope, key: string, since: int)
    ensures Times(Cleared(rows, username, ip), scope, key, since)
         == if Some(key) == (if scope.User? then username else ip) then [] else Times(rows, scope, key, since)
  {
    if rows != [] {
      var before, a := rows[..|rows| - 1], rows[|rows| - 1];
      ClearedTimes(before, username, ip, scope, key, since);
      if !OwnedBy(username, ip)(a) {
        TimesAppend(Cleared(before, username, ip), a, scope, key, since);
      }
    }
  }

  // ------------------------------------------------------------------------------------------
  // The operations
  // ------------------------------------------------------------------------------------------

  /**
   * A wait after `now`: until the failure which the threshold is counted back to leaves the window, in whole
   * seconds; without a threshold the whole window.
   */
  ghost predicate IsWait(seconds: int, rows: seq<Attempt>, scope: Scope, key: string, threshold: int, minutes: int, now: int) {
    if threshold < 1 then seconds == minutes * 60
    else
      exists t ::
        && |FailedAt(rows, scope, key, t)| >= threshold > |FailedAt(rows, scope, key, t + 1)|
        && var left := (t + minutes * 60 * 1_000_000 - now) / 1_000_000;
           seconds == if left > 1 then left else 1
  }

  lemma RetryIsWait(rows: seq<Attempt>, scope: Scope, key: string, policy: Policy, now: int)
    requires OverBudget(rows, scope, key, policy, now)
    ensures IsWait(RetryAfterSeconds(rows, scope, key, policy, now), rows, scope, key, policy.Threshold(scope),
                   policy.windowMinutes, now)
  {
    if policy.Threshold(scope) >= 1 {
      BlockingInWindow(rows, scope, key, policy, now);
      var t := Blocking(rows, scope, key, policy, now).value;
      hide Blocking, FailedAt, Failures, Times, Sort;
      ExactRelease(rows, scope, key, policy, now, t + policy.Window());
      ExactRelease(rows, scope, key, policy, now, t + policy.Window() + 1);
      FailuresCount(rows, scope, key, t);
      FailuresCount(rows, scope, key, t + 1);
    }
  }

  /** The scope whose count stands exactly at its threshold, the user's first. */
  function JustFilled(rows: seq<Attempt>, source: Source, policy: Policy, now: int): Option<Scope> {
    var since := now - policy.Window();
    if Failures(rows, User, source.username, since) == policy.userThreshold then Some(User)
    else if Failures(rows, Ip, source.ip, since) == policy.ipThreshold then Some(Ip)
    else None
  }

  /** After a failure: two more, and of their two buckets what is older than twice the window is gone. */
  lemma RecordedMembers(before: seq<Attempt>, source: Source, policy: Policy, now: int)
    ensures forall a :: a in Recorded(before, source, policy, now) <==>
      && (a in before || a == Attempt(User, source.username, now) || a == Attempt(Ip, source.ip, now))
      && (a.key == (if a.scope.User? then source.username else source.ip) ==>
            a.ts >= now - 2 * (policy.windowMinutes * 60 * 1_000_000))
  {
    var doomed := Stale(source, now - policy.Window() * PRUNE_MARGIN);
    SurvivorsOf(before + [Attempt(User, source.username, now), Attempt(Ip, source.ip, now)], doomed);
    hide Without;
  }

  class LoginAttempts {
    var rows: seq<Attempt>

    constructor ()
      ensures rows == []
    {
      rows := [];
    }

    method Check(source: Source, policy: Policy, now: int) returns (refusal: Option<Throttled>)
      ensures refusal.Some? <==> Refuses(rows, source, policy, now)
      ensures refusal.Some? ==>
        var since := now - policy.windowMinutes * 60 * 1_000_000;
        match refusal.value {
          case Throttled(User, failures, seconds) =>
            && failures == |FailedAt(rows, User, source.username, since)| >= policy.userThreshold
            && IsWait(seconds, rows, User, source.username, policy.userThreshold, policy.windowMinutes, now)
          case Throttled(Ip, failures, seconds) =>
            && |FailedAt(rows, User, source.username, since)| < policy.userThreshold
            && failures == |FailedAt(rows, Ip, source.ip, since)| >= policy.ipThreshold
            && IsWait(seconds, rows, Ip, source.ip, policy.ipThreshold, policy.windowMinutes, now)
        }
    {
      if !policy.enabled {
        return None;
      }
      var since, scopes := now - policy.Window(), [User, Ip];
      for i := 0 to |scopes|
        invariant forall j :: 0 <= j < i ==> !OverBudget(rows, scopes[j], source.Key(scopes[j]), policy, now)
      {
        var scope, key := scopes[i], source.Key(scopes[i]);
        var failures := Failures(rows, scope, key, since);
        if failures < policy.Threshold(scope) {
          continue;
        }
        assert i == 1 ==> !OverBudget(rows, scopes[0], source.Key(scopes[0]), policy, now);
        FailuresCount(rows, User, source.username, since);
        FailuresCount(rows, scope, key, since);
        RetryIsWait(rows, scope, key, policy, now);
        return Some(Throttled(scope, failures, RetryAfterSeconds(rows, scope, key, policy, now)));
      }
      assert !OverBudget(rows, scopes[0], source.Key(scopes[0]), policy, now);
      assert !OverBudget(rows, scopes[1], source.Key(scopes[1]), policy, now);
      return None;
    }

    method RecordFailure(source: Source, policy: Policy, now: int) returns (filled: Option<Scope>)
      modifies this
      ensures rows == if policy.enabled then Recorded(old(rows), source, policy, now) else old(rows)
      ensures policy.enabled ==> forall a :: a in rows <==>
        && (a in old(rows) || a == Attempt(User, source.username, now) || a == Attempt(Ip, source.ip, now))
        && (a.key == (if a.scope.User? then source.username else source.ip) ==>
              a.ts >= now - 2 * (policy.windowMinutes * 60 * 1_000_000))
      ensures filled == if policy.enabled then JustFilled(rows, source, policy, now) else None
      ensures policy.enabled ==>
        var since := now - policy.windowMinutes * 60 * 1_000_000;
        var byUser := |FailedAt(rows, User, source.username, since)| == policy.userThreshold;
        && (filled == Some(User) <==> byUser)
        && (filled == Some(Ip) <==> !byUser && |FailedAt(rows, Ip, source.ip, since)| == policy.ipThreshold)
    {
      if !policy.enabled {
        return None;
      }
      rows := rows + [Attempt(User, source.username, now)];
      rows := rows + [Attempt(Ip, source.ip, now)];
      assert rows == old(rows) + [Attempt(User, source.username, now), Attempt(Ip, source.ip, now)];
      RecordedMembers(old(rows), source, policy, now);
      rows := Without(rows, Stale(source, now - policy.Window() * PRUNE_MARGIN));
      filled := JustFilled(rows, source, policy, now);
      FailuresCount(rows, User, source.username, now - policy.Window());
      FailuresCount(rows, Ip, source.ip, now - policy.Window());
    }

    /** The named buckets are empty afterwards, every other failure is still there. */
    method Clear(username: Option<string>, ip: Option<string>) returns (removed: int)
      modifies this
      ensures rows == Cleared(old(rows), username, ip)
      ensures forall a :: a in rows <==> a in old(rows) && Some(a.key) != (if a.scope.User? then username else ip)
      ensures forall scope, key, since ::
        Times(rows, scope, key, since)
        == if Some(key) == (if scope.User? then username else ip) then [] else Times(old(rows), scope, key, since)
      ensures removed == |old(rows)| - |rows| >= 0
    {
      ghost var before := rows;
      removed := |rows|;
      rows := Cleared(rows, username, ip);
      removed := removed - |rows|;
      SurvivorsOf(before, OwnedBy(username, ip));
      forall scope, key, since
        ensures Times(rows, scope, key, since)
             == if Some(key) == (if scope.User? then username else ip) then [] else Times(before, scope, key, since)
      {
        ClearedTimes(before, username, ip, scope, key, since);
      }
    }

    /** What is left is no older than the cutoff, and no window that opens at it or later has changed. */
    method Prune(olderThan: Option<int>, policy: Option<Policy>, now: int) returns (removed: int)
      modifies this
      ensures var minutes := if policy.Some? then policy.value.windowMinutes else 15;
              var cutoff := if olderThan.Some? then olderThan.value else now - 2 * minutes * 60 * 1_000_000;
              && rows == Pruned(old(rows), cutoff)
              && (forall a :: a in rows <==> a in old(rows) && a.ts >= cutoff)
              && Agree(rows, old(rows), cutoff)
      ensures removed == |old(rows)| - |rows| >= 0
    {
      ghost var before := rows;
      removed := |rows|;
      var cutoff := now - GetOr(policy, DEFAULT_POLICY).Window() * PRUNE_MARGIN;
      if olderThan.Some? {
        cutoff := olderThan.value;
      }
      rows := Pruned(rows, cutoff);
      removed := removed - |rows|;
      SurvivorsOf(before, OlderThan(cutoff));
      PruneKeepsTimes(before, cutoff, cutoff);
    }
  }

  /** A budget that was not used up is not at a later moment without new failures. */
  lemma BudgetOnlyFrees(rows: seq<Attempt>, scope: Scope, key: string, policy: Policy, now: int, later: int)
    requires now <= later
    ensures Failures(rows, scope, key, later - policy.Window()) <= Failures(rows, scope, key, now - policy.Window())
  {
    LaterWindow(rows, scope, key, now - policy.Window(), later - policy.Window());
    CountFromBound(Times(rows, scope, key, now - policy.Window()), later - policy.Window());
  }

  /**
   * A failure recorded after a passed check, however long after, reports a scope iff the next sign-in
   * from there would be refused, and names the scope the refusal would: only the transition is audited.
   */
  lemma FilledIffNextRefused(rows: seq<Attempt>, source: Source, policy: Policy, checkedAt: int, now: int)
    requires policy.enabled && policy.windowMinutes >= 0
    requires checkedAt <= now && !Refuses(rows, source, policy, checkedAt)
    ensures var after := Recorded(rows, source, policy, now);
            var filled := JustFilled(after, source, policy, now);
            && (filled.Some? <==> Refuses(after, source, policy, now))
            && (filled == Some(Ip) ==> !OverBudget(after, User, source.username, policy, now))
            && (filled == Some(User) <==> OverBudget(after, User, source.username, policy, now))
  {
    hide Times, Recorded;
    BudgetOnlyFrees(rows, User, source.username, policy, checkedAt, now);
    BudgetOnlyFrees(rows, Ip, source.ip, policy, checkedAt, now);
    RecordedTimes(rows, source, policy, now, User, source.username, now - policy.Window());
    RecordedTimes(rows, source, policy, now, Ip, source.ip, now - policy.Window());
  }

  // ------------------------------------------------------------------------------------------
  // Runs
  // ------------------------------------------------------------------------------------------

  /** One serial request or job: a wrong password, a clearing of buckets, the pruning job. */
  datatype Step =
    | Failed(source: Source, checkedAt: int, at: int)
    | Forgiven(username: Option<string>, ip: Option<string>, at: int)
    | PruneJob(at: int)
  {
    /** A sign-in reads the clock for the check and again for the record. */
    function Began(): int {
      if Failed? then checkedAt else at
    }
  }

  /** The table, and beside it every failure counted and not since forgiven, never pruned. */
  datatype Ledger = Ledger(rows: seq<Attempt>, log: seq<Attempt>)

  function Next(s: Ledger, step: Step, policy: Policy): Ledger {
    match step
    case Failed(source, checkedAt, now) =>
      if Refuses(s.rows, source, policy, checkedAt) || !policy.enabled then s
      else Ledger(Recorded(s.rows, source, policy, now),
                  s.log + [Attempt(User, source.username, now)] + [Attempt(Ip, source.ip, now)])
    case Forgiven(username, ip, _) => Ledger(Cleared(s.rows, username, ip), Cleared(s.log, username, ip))
    case PruneJob(now) => Ledger(Pruned(s.rows, now - policy.Window() * PRUNE_MARGIN), s.log)
  }

  function Run(steps: seq<Step>, policy: Policy): Ledger {
    if steps == [] then Ledger([], [])
    else Next(Run(steps[..|steps| - 1], policy), steps[|steps| - 1], policy)
  }

  /** Time moves forward, and one step is over when the next begins. */
  predicate InOrder(steps: seq<Step>) {
    && (forall i :: 0 <= i < |steps| ==> steps[i].Began() <= steps[i].at)
    && (forall i, j :: 0 <= i < j < |steps| ==> steps[i].at <= steps[j].Began())
  }

  /** A bucket's failures in a closed stretch of time. */
  function Within(rows: seq<Attempt>, scope: Scope, key: string, first: int, last: int): nat {
    if rows == [] then 0
    else
      var a := rows[|rows| - 1];
      Within(rows[..|rows| - 1], scope, key, first, last)
      + if a.scope == scope && a.key == key && first <= a.ts <= last then 1 else 0
  }

  lemma WithinAppend(rows: seq<Attempt>, a: Attempt, scope: Scope, key: string, first: int, last: int)
    ensures Within(rows + [a], scope, key, first, last)
         == Within(rows, scope, key, first, last) + if a.scope == scope && a.key == key && first <= a.ts <= last then 1 else 0
  {
  }

  lemma {:induction false} WithinFailures(rows: seq<Attempt>, scope: Scope, key: string, first: int, last: int, since: int)
    requires since <= first
    ensures Within(rows, scope, key, first, last) <= Failures(rows, scope, key, since)
  {
    if rows != [] {
      WithinFailures(rows[..|rows| - 1], scope, key, first, last, since);
    }
  }

  lemma {:induction false} DeletionLowers(rows: seq<Attempt>, doomed: Attempt -> bool, scope: Scope, key: string,
                                          first: int, last: int)
    ensures Within(Without(rows, doomed), scope, key, first, last) <= Within(rows, scope, key, first, last)
  {
    if rows != [] {
      var before, a := rows[..|rows| - 1], rows[|rows| - 1];
      DeletionLowers(before, doomed, scope, key, first, last);
      if !doomed(a) {
        WithinAppend(Without(before, doomed), a, scope, key, first, last);
      }
    }
  }

  function InWindow(log: seq<Attempt>, scope: Scope, key: string, policy: Policy, first: int): nat {
    Within(log, scope, key, first, first + policy.Window())
  }

  /** No bucket ever holds more than its budget in any window. */
  ghost predicate Bounded(log: seq<Attempt>, policy: Policy) {
    forall scope, key, first :: InWindow(log, scope, key, policy, first) <= policy.Threshold(scope)
  }

  ghost predicate Invariant(s: Ledger, policy: Policy, now: int) {
    && Agree(s.rows, s.log, now - policy.Window())
    && Bounded(s.log, policy)
  }

  lemma FailureKeepsAgreement(s: Ledger, source: Source, policy: Policy, now: int)
    requires policy.windowMinutes >= 0 && Agree(s.rows, s.log, now - policy.Window())
    ensures Agree(Recorded(s.rows, source, policy, now),
                  s.log + [Attempt(User, source.username, now)] + [Attempt(Ip, source.ip, now)], now - policy.Window())
  {
    hide Times, Recorded;
    var one, two := Attempt(User, source.username, now), Attempt(Ip, source.ip, now);
    forall scope, key, since | now - policy.Window() <= since
      ensures Times(Recorded(s.rows, source, policy, now), scope, key, since)
           == Times(s.log + [one] + [two], scope, key, since)
    {
      RecordedTimes(s.rows, source, policy, now, scope, key, since);
      TimesAppend(s.log, one, scope, key, since);
      TimesAppend(s.log + [one], two, scope, key, since);
    }
  }

  lemma FailureKeepsBound(s: Ledger, source: Source, policy: Policy, checkedAt: int, now: int)
    requires policy.windowMinutes >= 0 && Invariant(s, policy, checkedAt) && checkedAt <= now
    requires policy.enabled && !Refuses(s.rows, source, policy, checkedAt)
    ensures Bounded(s.log + [Attempt(User, source.username, now)] + [Attempt(Ip, source.ip, now)], policy)
  {
    hide Times, Within;
    var one, two := Attempt(User, source.username, now), Attempt(Ip, source.ip, now);
    forall scope, key, first
      ensures InWindow(s.log + [one] + [two], scope, key, policy, first) <= policy.Threshold(scope)
    {
      assert InWindow(s.log, scope, key, policy, first) <= policy.Threshold(scope);
      WithinAppend(s.log, one, scope, key, first, first + policy.Window());
      WithinAppend(s.log + [one], two, scope, key, first, first + policy.Window());
      if key == source.Key(scope) && first <= now <= first + policy.Window() {
        WithinFailures(s.log, scope, key, first, first + policy.Window(), checkedAt - policy.Window());
        assert !OverBudget(s.rows, scope, key, policy, checkedAt);
      }
    }
  }

  lemma StepKeepsInvariant(s: Ledger, step: Step, policy: Policy)
    requires policy.windowMinutes >= 0 && Invariant(s, policy, step.Began()) && step.Began() <= step.at
    ensures Invariant(Next(s, step, policy), policy, step.at)
  {
    hide Times, Within, Recorded, Cleared, Pruned, Refuses;
    var start := step.at - policy.Window();
    match step {
      case Failed(source, checkedAt, now) =>
        if !Refuses(s.rows, source, policy, checkedAt) && policy.enabled {
          FailureKeepsAgreement(s, source, policy, now);
          FailureKeepsBound(s, source, policy, checkedAt, now);
        }
      case Forgiven(username, ip, _) =>
        var rows, log := Cleared(s.rows, username, ip), Cleared(s.log, username, ip);
        forall scope, key, since | start <= since
          ensures Times(rows, scope, key, since) == Times(log, scope, key, since)
        {
          ClearedTimes(s.rows, username, ip, scope, key, since);
          ClearedTimes(s.log, username, ip, scope, key, since);
        }
        forall scope, key, first
          ensures InWindow(log, scope, key, policy, first) <= policy.Threshold(scope)
        {
          assert InWindow(s.log, scope, key, policy, first) <= policy.Threshold(scope);
          ClearedLowers(s.log, username, ip, scope, key, first, first + policy.Window());
        }
      case PruneJob(now) =>
        PruneKeepsTimes(s.rows, now - policy.Window() * PRUNE_MARGIN, start);
    }
  }

  lemma ClearedLowers(rows: seq<Attempt>, username: Option<string>, ip: Option<string>, scope: Scope, key: string,
                      first: int, last: int)
    ensures Within(Cleared(rows, username, ip), scope, key, first, last) <= Within(rows, scope, key, first, last)
  {
    DeletionLowers(rows, OwnedBy(username, ip), scope, key, first, last);
  }

  /**
   * In every serial run with time moving forward and one policy, each bucket has at most its
   * threshold of failures in any closed window since it was last cleared, and the pruned table
   * agrees with the full history at every later moment.
   */
  lemma {:induction false} RunInvariant(steps: seq<Step>, policy: Policy, now: int)
    requires policy.windowMinutes >= 0 && policy.userThreshold >= 0 && policy.ipThreshold >= 0
    requires InOrder(steps) && (steps != [] ==> steps[|steps| - 1].at <= now)
    ensures Invariant(Run(steps, policy), policy, now)
  {
    if steps != [] {
      var before, last := steps[..|steps| - 1], steps[|steps| - 1];
      RunInvariant(before, policy, last.Began());
      StepKeepsInvariant(Run(before, policy), last, policy);
    }
  }

  /** A bucket's failures in a closed stretch of time, by their place in the log. */
  function FailedBetween(log: seq<Attempt>, scope: Scope, key: string, first: int, last: int): set<nat> {
    set i | 0 <= i < |log| && log[i].scope == scope && log[i].key == key && first <= log[i].ts <= last
  }

  lemma FailedBetweenStep(log: seq<Attempt>, scope: Scope, key: string, first: int, last: int)
    requires log != []
    ensures var end := |log| - 1;
            var before, a := FailedBetween(log[..end], scope, key, first, last), log[end];
            && end !in before
            && FailedBetween(log, scope, key, first, last)
               == if a.scope == scope && a.key == key && first <= a.ts <= last then before + {end} else before
  {
    var end := |log| - 1;
    assert forall i :: 0 <= i < end ==> log[..end][i] == log[i];
  }

  lemma {:induction false} WithinCounts(log: seq<Attempt>, scope: Scope, key: string, first: int, last: int)
    ensures Within(log, scope, key, first, last) == |FailedBetween(log, scope, key, first, last)|
  {
    if log != [] {
      WithinCounts(log[..|log| - 1], scope, key, first, last);
      FailedBetweenStep(log, scope, key, first, last);
      hide FailedBetween;
    }
  }

  /** In every window of the policy's minutes, at most its two thresholds of failures that were not forgiven. */
  lemma RunBound(steps: seq<Step>, policy: Policy, key: string, first: int)
    requires policy.windowMinutes >= 0 && policy.userThreshold >= 0 && policy.ipThreshold >= 0 && InOrder(steps)
    ensures var log, last := Run(steps, policy).log, first + policy.windowMinutes * 60 * 1_000_000;
            && |FailedBetween(log, User, key, first, last)| <= policy.userThreshold
            && |FailedBetween(log, Ip, key, first, last)| <= policy.ipThreshold
  {
    var log := Run(steps, policy).log;
    RunInvariant(steps, policy, if steps == [] then 0 else steps[|steps| - 1].at);
    hide Run, FailedBetween, Agree, Within;
    assert InWindow(log, User, key, policy, first) <= policy.Threshold(User);
    assert InWindow(log, Ip, key, policy, first) <= policy.Threshold(Ip);
    WithinCounts(log, User, key, first, first + policy.Window());
    WithinCounts(log, Ip, key, first, first + policy.Window());
  }

  /** So pruning never changes a later verdict, count or wait. */
  lemma PruningChangesNothing(steps: seq<Step>, policy: Policy, source: Source, scope: Scope, now: int)
    requires policy.windowMinutes >= 0 && policy.userThreshold >= 0 && policy.ipThreshold >= 0
    requires InOrder(steps) && (steps != [] ==> steps[|steps| - 1].at <= now)
    ensures var s, key, since := Run(steps, policy), source.Key(scope), now - policy.Window();
            && (Refuses(s.rows, source, policy, now) <==> Refuses(s.log, source, policy, now))
            && Failures(s.rows, scope, key, since) == Failures(s.log, scope, key, since)
            && RetryAfterSeconds(s.rows, scope, key, policy, now) == RetryAfterSeconds(s.log, scope, key, policy, now)
  {
    hide Times, Run, Sort, Bounded;
    RunInvariant(steps, policy, now);
    var s, since := Run(steps, policy), now - policy.Window();
    assert Times(s.rows, scope, source.Key(scope), since) == Times(s.log, scope, source.Key(scope), since);
    assert Times(s.rows, User, source.username, since) == Times(s.log, User, source.username, since);
    assert Times(s.rows, Ip, source.ip, since) == Times(s.log, Ip, source.ip, since);
    hide Agree;
  }
}
