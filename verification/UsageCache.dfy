/** The usage cache of internal/usage/usage.go: one record per project, refreshed under conditions and
    written only when it changed. */
module UsageCache {
  import opened Folds
  import opened Options

  datatype Usage = Usage(cpu: nat, memory: nat, clusters: nat, users: nat)

  /** Instants, in nanoseconds. */
  type Time = int

  const HOUR: Time := 3_600_000_000_000

  const TWO_64: nat := 0x1_0000_0000_0000_0000

  datatype Cache = Cache(usage: Usage, exceeded: bool, exceededSince: Option<Time>, updatedAt: Time)

  /** A linked cluster's allocatable CPU and memory, or None if it cannot be reached. */
  type ClusterReading = Option<(nat, nat)>

  /** What one call meets: the project's limit, its clusters and members, the whitelist, the instants at
      which the clock is read (for the age of the cache, for ExceededSince, and by the database when it
      writes), and whether the reads and the write succeed. */
  datatype Call = Call(
    limit: Usage, clusters: seq<ClusterReading>, roles: seq<nat>, whitelist: set<nat>,
    now: Time, exceededAt: Time, writtenAt: Time, readsOk: bool, writeOk: bool)

  datatype Result = Failed | Returned(cache: Cache)

  // ---- The pure parts ------------------------------------------------------------------------

  predicate IsUsageExceeded(u: Usage, limit: Usage) {
    var cpu := limit.cpu != 0 && u.cpu > limit.cpu;
    var memory := limit.memory != 0 && u.memory > limit.memory;
    var users := limit.users != 0 && u.users > limit.users;
    var clusters := limit.clusters != 0 && u.clusters > limit.clusters;
    cpu || memory || users || clusters
  }

  /** ExceededSince is not compared. */
  predicate IsUsageChanged(a: Cache, b: Cache) {
    a.exceeded != b.exceeded || a.usage != b.usage
  }

  function CountedUsers(roles: seq<nat>, whitelist: set<nat>): nat {
    if roles == [] then 0
    else CountedUsers(roles[..|roles| - 1], whitelist) + if roles[|roles| - 1] in whitelist then 0 else 1
  }

  /** The sums over the clusters that can be read, as 64-bit numbers. */
  function Totals(clusters: seq<ClusterReading>): (nat, nat) {
    if clusters == [] then (0, 0)
    else
      var (cpu, memory) := Totals(clusters[..|clusters| - 1]);
      match clusters[|clusters| - 1]
      case Some((c, m)) => ((cpu + c) % TWO_64, (memory + m) % TWO_64)
      case None => (cpu, memory)
  }

  function ResourceUsage(clusters: seq<ClusterReading>): (nat, nat) {
    (Totals(clusters).0 / 1000, Totals(clusters).1 / (1000 * 1000))
  }

  // ---- One call ------------------------------------------------------------------------------

  function InitialCache(stored: Option<Cache>): Cache {
    if stored.Some? then stored.value else Cache(Usage(0, 0, 0, 0), false, None, 0)
  }

  /** The cached usage with the counts of this call. */
  function Counted(stored: Option<Cache>, call: Call): Usage {
    InitialCache(stored).usage.(clusters := |call.clusters|, users := CountedUsers(call.roles, call.whitelist))
  }

  /** CPU and memory are queried again in this call. */
  predicate Requeries(stored: Option<Cache>, call: Call) {
    || stored.None?
    || call.now - stored.value.updatedAt > HOUR
    || IsUsageExceeded(Counted(stored, call), call.limit)
    || Counted(stored, call) != stored.value.usage
  }

  /** The usage this call is decided on. */
  function CurrentUsage(stored: Option<Cache>, call: Call): Usage {
    if Requeries(stored, call)
    then Counted(stored, call).(cpu := ResourceUsage(call.clusters).0, memory := ResourceUsage(call.clusters).1)
    else Counted(stored, call)
  }

  predicate Verdict(stored: Option<Cache>, call: Call) { IsUsageExceeded(CurrentUsage(stored, call), call.limit) }

  /** The simple form of a call: decide, and always write what is returned. */
  function Decide(stored: Option<Cache>, call: Call): Cache {
    var before := InitialCache(stored);
    var exceeded := Verdict(stored, call);
    Cache(CurrentUsage(stored, call), exceeded,
          if exceeded && !before.exceeded then Some(call.exceededAt) else before.exceededSince,
          call.writtenAt)
  }

  // ---- The program ---------------------------------------------------------------------------

  method CountRoles(roles: seq<nat>, whitelist: set<nat>) returns (n: nat)
    ensures n == CountedUsers(roles, whitelist)
  {
    n := 0;
    for i := 0 to |roles|
      invariant n == CountedUsers(roles[..i], whitelist)
    {
      assert roles[..i + 1][..i] == roles[..i];
      if roles[i] !in whitelist {
        n := n + 1;
      }
    }
    assert roles[..|roles|] == roles;
  }

  method GetResourceUsage(clusters: seq<ClusterReading>) returns (cpu: nat, memory: nat)
    ensures (cpu, memory) == ResourceUsage(clusters)
  {
    var totCPU, totMem := 0, 0;
    for i := 0 to |clusters|
      invariant (totCPU, totMem) == Totals(clusters[..i])
    {
      assert clusters[..i + 1][..i] == clusters[..i];
      if clusters[i].None? {
        continue;
      }
      totCPU := (totCPU + clusters[i].value.0) % TWO_64;
      totMem := (totMem + clusters[i].value.1) % TWO_64;
    }
    assert clusters[..|clusters|] == clusters;
    cpu, memory := totCPU / 1000, totMem / (1000 * 1000);
  }

  class ProjectUsageRepository {
    var stored: Option<Cache>

    constructor (stored: Option<Cache>)
      ensures this.stored == stored
    {
      this.stored := stored;
    }

    /** One call.  What it returns is what the simple form decides on, and afterwards that is also what
        is stored, although a record that did not change is not written: only its update time then
        stays what it was.  A call that fails changes nothing. */
    method GetUsage(call: Call) returns (r: Result)
      modifies this
      ensures (stored, r) == Step(old(stored), call)
    {
      if !call.readsOk {
        return Failed;
      }
      var found := stored.Some?;
      var users := CountRoles(call.roles, call.whitelist);
      var cache := InitialCache(stored);
      var before := cache;
      cache := cache.(usage := cache.usage.(clusters := |call.clusters|, users := users));
      if !found || call.now - cache.updatedAt > HOUR || IsUsageExceeded(cache.usage, call.limit) ||
        IsUsageChanged(before, cache)
      {
        var cpu, memory := GetResourceUsage(call.clusters);
        cache := cache.(usage := cache.usage.(cpu := cpu, memory := memory));
      }
      var isExceeded := IsUsageExceeded(cache.usage, call.limit);
      if !cache.exceeded && isExceeded {
        cache := cache.(exceededSince := Some(call.exceededAt));
      }
      cache := cache.(exceeded := isExceeded);
      if !found || IsUsageChanged(before, cache) {
        if !call.writeOk {
          return Failed;
        }
        cache := cache.(updatedAt := call.writtenAt);
        stored := Some(cache);
      }
      return Returned(cache);
    }
  }

  /** A call writes exactly if there is no record yet or the decided one differs. */
  predicate Writes(stored: Option<Cache>, call: Call) {
    stored.None? || IsUsageChanged(stored.value, Decide(stored, call))
  }

  function Step(stored: Option<Cache>, call: Call): (Option<Cache>, Result) {
    if !call.readsOk || (Writes(stored, call) && !call.writeOk) then (stored, Failed)
    else if Writes(stored, call) then (Some(Decide(stored, call)), Returned(Decide(stored, call)))
    else (stored, Returned(Decide(stored, call).(updatedAt := stored.value.updatedAt)))
  }

  // ---- What a call returns, number by number -------------------------------------------------

  function CPUOf(r: ClusterReading): nat { if r.Some? then r.value.0 else 0 }

  function MemoryOf(r: ClusterReading): nat { if r.Some? then r.value.1 else 0 }

  /** The sums wrap around at 64 bits; millicores become cores and bytes megabytes. */
  lemma ResourceUsageMeaning(clusters: seq<ClusterReading>)
    ensures ResourceUsage(clusters).0 == Total(clusters, CPUOf) % 18_446_744_073_709_551_616 / 1_000
    ensures ResourceUsage(clusters).1 == Total(clusters, MemoryOf) % 18_446_744_073_709_551_616 / 1_000_000
  {
    TotalsMeaning(clusters);
  }

  lemma {:induction false} TotalsMeaning(clusters: seq<ClusterReading>)
    ensures Totals(clusters).0 == Total(clusters, CPUOf) % TWO_64
    ensures Totals(clusters).1 == Total(clusters, MemoryOf) % TWO_64
  {
    if clusters != [] {
      var before, last := clusters[..|clusters| - 1], clusters[|clusters| - 1];
      assert clusters == before + [last];
      TotalsMeaning(before);
      TotalAppend(before, last, CPUOf);
      TotalAppend(before, last, MemoryOf);
      AddModulo(Total(before, CPUOf), CPUOf(last));
      AddModulo(Total(before, MemoryOf), MemoryOf(last));
    }
  }

  lemma AddModulo(a: nat, b: nat)
    ensures (a % TWO_64 + b) % TWO_64 == (a + b) % TWO_64
  {
    var q := a / TWO_64;
    assert a == q * TWO_64 + a % TWO_64;
    var r := (a % TWO_64 + b) / TWO_64;
    assert a % TWO_64 + b == r * TWO_64 + (a % TWO_64 + b) % TWO_64;
    assert a + b == (q + r) * TWO_64 + (a % TWO_64 + b) % TWO_64;
  }

  /** Users are the members whose ID is not whitelisted. */
  lemma {:induction false} CountedUsersMeaning(roles: seq<nat>, whitelist: set<nat>)
    ensures CountedUsers(roles, whitelist) == |set i | 0 <= i < |roles| && roles[i] !in whitelist|
  {
    if roles != [] {
      var n := |roles| - 1;
      CountedUsersMeaning(roles[..n], whitelist);
      var before := set i | 0 <= i < n && roles[..n][i] !in whitelist;
      var all := set i | 0 <= i < |roles| && roles[i] !in whitelist;
      assert all == if roles[n] in whitelist then before else before + {n};
    }
  }

  /** The usage is within each of the four limits, where a limit of 0 is none. */
  ghost predicate WithinLimits(u: Usage, limit: Usage) {
    && (limit.cpu == 0 || u.cpu <= limit.cpu)
    && (limit.memory == 0 || u.memory <= limit.memory)
    && (limit.clusters == 0 || u.clusters <= limit.clusters)
    && (limit.users == 0 || u.users <= limit.users)
  }

  /** Whether a call must query the clusters, in terms of what is stored and what it counts. */
  ghost predicate MustQuery(stored: Option<Cache>, call: Call, users: nat) {
    || stored.None?
    || call.now - stored.value.updatedAt > 3_600_000_000_000
    || |call.clusters| != stored.value.usage.clusters
    || users != stored.value.usage.users
    || !WithinLimits(stored.value.usage, call.limit)
  }

  /** What a successful call returns: the counts as they are, the resources as they are or as stored, and
      a verdict that is "exceeded" exactly if one of the four numbers is over its limit. */
  lemma ReturnedNumbers(stored: Option<Cache>, call: Call)
    requires Step(stored, call).1.Returned?
    ensures var cache := Step(stored, call).1.cache;
            var users := |set i | 0 <= i < |call.roles| && call.roles[i] !in call.whitelist|;
            && cache.usage.clusters == |call.clusters| && cache.usage.users == users
            && cache.usage.cpu == (if MustQuery(stored, call, users)
                                   then Total(call.clusters, CPUOf) % 18_446_744_073_709_551_616 / 1_000
                                   else stored.value.usage.cpu)
            && cache.usage.memory == (if MustQuery(stored, call, users)
                                      then Total(call.clusters, MemoryOf) % 18_446_744_073_709_551_616 / 1_000_000
                                      else stored.value.usage.memory)
            && (!cache.exceeded <==> WithinLimits(cache.usage, call.limit))
  {
    CountedUsersMeaning(call.roles, call.whitelist);
    ResourceUsageMeaning(call.clusters);
  }

  /** The rest of the record: the time of a rising verdict, the update time, and when a call fails. */
  lemma ReturnedTimes(stored: Option<Cache>, call: Call)
    ensures var (after, result) := Step(stored, call);
            match result
            case Failed => after == stored && !(call.readsOk && call.writeOk)
            case Returned(cache) =>
              var wasExceeded := stored.Some? && stored.value.exceeded;
              var since := if stored.Some? then stored.value.exceededSince else None;
              var same := stored.Some? && cache.usage == stored.value.usage && cache.exceeded == wasExceeded;
              && call.readsOk
              && cache.exceededSince == (if cache.exceeded && !wasExceeded then Some(call.exceededAt) else since)
              && cache.updatedAt == (if same then stored.value.updatedAt else call.writtenAt)
              && (call.writeOk || same) && after == Some(cache)
  {
  }

  /** A call fails exactly if a read fails, or a write does that is needed. */
  lemma FailsIff(stored: Option<Cache>, call: Call)
    ensures Step(stored, call).1.Failed? <==>
            || !call.readsOk
            || (!call.writeOk &&
                (stored.None? || CurrentUsage(stored, call) != stored.value.usage ||
                 Verdict(stored, call) != stored.value.exceeded))
  {
  }

  // ---- Any sequence of calls -----------------------------------------------------------------

  function AfterCalls(stored: Option<Cache>, calls: seq<Call>): Option<Cache>
    decreases |calls|
  {
    if calls == [] then stored else Step(AfterCalls(stored, calls[..|calls| - 1]), calls[|calls| - 1]).0
  }

  /** The result of the last of the calls. */
  function LastResult(stored: Option<Cache>, calls: seq<Call>): Result
    requires calls != []
  {
    Step(AfterCalls(stored, calls[..|calls| - 1]), calls[|calls| - 1]).1
  }

  /** When the current streak of exceeded verdicts began: the ExceededSince reading of its first call,
      passing over calls that failed; or before the calls, as the record they found says. */
  function StreakStart(stored: Option<Cache>, calls: seq<Call>): Option<Time>
    decreases |calls|
  {
    if calls == [] then (if stored.Some? && stored.value.exceeded then stored.value.exceededSince else None)
    else
      var before := StreakStart(stored, calls[..|calls| - 1]);
      match LastResult(stored, calls)
      case Failed => before
      case Returned(cache) =>
        if !cache.exceeded then None
        else if before.Some? then before
        else Some(calls[|calls| - 1].exceededAt)
  }

  /** Skipping writes loses nothing: after every call that succeeds, the record stored is the one
      returned. */
  lemma StoredIsReturned(stored: Option<Cache>, calls: seq<Call>)
    requires calls != [] && LastResult(stored, calls).Returned?
    ensures AfterCalls(stored, calls) == Some(LastResult(stored, calls).cache)
  {
    var s, call := AfterCalls(stored, calls[..|calls| - 1]), calls[|calls| - 1];
    if !Writes(s, call) {
      var d := Decide(s, call);
      assert d.usage == s.value.usage && d.exceeded == s.value.exceeded;
      assert d.exceededSince == s.value.exceededSince;
    }
  }

  /** While the stored record is exceeded, its ExceededSince is the time of the first call of the current
      streak.  An exceeded record must have had that time set; then it is so after every call too. */
  lemma {:induction false} ExceededSinceIsStreakStart(stored: Option<Cache>, calls: seq<Call>)
    requires stored.Some? && stored.value.exceeded ==> stored.value.exceededSince.Some?
    ensures var after := AfterCalls(stored, calls);
            && (after.Some? && after.value.exceeded <==> StreakStart(stored, calls).Some?)
            && (after.Some? && after.value.exceeded ==> after.value.exceededSince == StreakStart(stored, calls))
    decreases |calls|
  {
    if calls != [] {
      ExceededSinceIsStreakStart(stored, calls[..|calls| - 1]);
      if LastResult(stored, calls).Returned? {
        StoredIsReturned(stored, calls);
      }
    }
  }

  /** The usage with this call's counts and the numbers its clusters report now. */
  function Actual(stored: Option<Cache>, call: Call): Usage {
    Counted(stored, call).(cpu := ResourceUsage(call.clusters).0, memory := ResourceUsage(call.clusters).1)
  }

  /** An exceeded verdict always rests on numbers queried in that same call.  A verdict differs from the
      one fresh numbers would give exactly when it misses an excess in a call whose cached record is at
      most an hour old, has the same counts, and is itself within the limit. */
  lemma ExceededMeansFresh(stored: Option<Cache>, call: Call)
    ensures Verdict(stored, call) ==> Requeries(stored, call) && CurrentUsage(stored, call) == Actual(stored, call)
    ensures Verdict(stored, call) != IsUsageExceeded(Actual(stored, call), call.limit) <==>
            && IsUsageExceeded(Actual(stored, call), call.limit)
            && stored.Some? && call.now - stored.value.updatedAt <= HOUR
            && !IsUsageExceeded(stored.value.usage, call.limit)
            && stored.value.usage.clusters == |call.clusters|
            && stored.value.usage.users == CountedUsers(call.roles, call.whitelist)
  {
  }

  /** A missed excess: a cluster has grown past the limit since the record was written. */
  lemma ExcessMissed(limit: nat, cpu: nat, written: Time, call: Call)
    requires limit > 0 && limit * 1000 + 1000 <= cpu < TWO_64
    requires call.limit == Usage(limit, 0, 0, 0) && call.clusters == [Some((cpu, 0))] && call.roles == []
    requires call.now - written <= HOUR
    ensures var stored := Some(Cache(Usage(limit, 0, 1, 0), false, None, written));
            !Verdict(stored, call) && IsUsageExceeded(Actual(stored, call), call.limit)
  {
    assert call.clusters[..0] == [];
    assert Totals(call.clusters) == (cpu, 0);
    assert cpu / 1000 > limit;
  }

  // ---- When a record is renewed, and when it is queried for again ----------------------------

  /** The call sees something the record does not say: other numbers or another verdict, if it queries
      the clusters; and if it does not, only that usage once exceeded is now within the limit. */
  predicate FindsChange(record: Cache, call: Call) {
    if Requeries(Some(record), call)
    then Actual(Some(record), call) != record.usage ||
         IsUsageExceeded(Actual(Some(record), call), call.limit) != record.exceeded
    else record.exceeded
  }

  /** The call succeeds and renews the record, its update time included. */
  predicate Renews(stored: Option<Cache>, call: Call) {
    call.readsOk && call.writeOk && (stored.Some? ==> FindsChange(stored.value, call))
  }

  /** A call writes exactly if there is no record or it finds a change; what is stored afterwards is new
      exactly if it also succeeds. */
  lemma RenewsIff(stored: Option<Cache>, call: Call)
    ensures Writes(stored, call) <==> (stored.Some? ==> FindsChange(stored.value, call))
    ensures Step(stored, call).0 == if Renews(stored, call) then Some(Decide(stored, call)) else stored
  {
  }

  /** The time the record in force after these calls was written at. */
  function LastRenewal(stored: Option<Cache>, calls: seq<Call>): Option<Time>
    decreases |calls|
  {
    if calls == [] then (if stored.Some? then Some(stored.value.updatedAt) else None)
    else
      var before := calls[..|calls| - 1];
      if Renews(AfterCalls(stored, before), calls[|calls| - 1]) then Some(calls[|calls| - 1].writtenAt)
      else LastRenewal(stored, before)
  }

  /** Over any sequence of calls, failing or not: the next call queries the clusters again exactly when
      there has been no record, its counts are new, they are over the limit, or more than an hour has
      passed since the last call that found a change. */
  lemma {:induction false} RequeriesIff(stored: Option<Cache>, calls: seq<Call>, next: Call)
    ensures var after := AfterCalls(stored, calls);
            && (after.Some? <==> LastRenewal(stored, calls).Some?)
            && (after.Some? ==> after.value.updatedAt == LastRenewal(stored, calls).value)
            && (Requeries(after, next) <==>
                  || LastRenewal(stored, calls).None?
                  || next.now - LastRenewal(stored, calls).value > HOUR
                  || Counted(after, next) != after.value.usage
                  || IsUsageExceeded(after.value.usage, next.limit))
    decreases |calls|
  {
    if calls != [] {
      var before, last := calls[..|calls| - 1], calls[|calls| - 1];
      RequeriesIff(stored, before, last);
      RenewsIff(AfterCalls(stored, before), last);
    }
  }

  /** Which of the calls renew the record. */
  ghost predicate SomeRenews(stored: Option<Cache>, calls: seq<Call>) {
    exists i :: 0 <= i < |calls| && Renews(AfterCalls(stored, calls[..i]), calls[i])
  }

  lemma SomeRenewsOneMore(stored: Option<Cache>, calls: seq<Call>)
    requires calls != []
    ensures var before := calls[..|calls| - 1];
            SomeRenews(stored, calls) <==>
            SomeRenews(stored, before) || Renews(AfterCalls(stored, before), calls[|before|])
  {
    hide Renews, AfterCalls;
    var before := calls[..|calls| - 1];
    if i :| 0 <= i < |before| && Renews(AfterCalls(stored, before[..i]), before[i]) {
      assert calls[..i] == before[..i] && calls[i] == before[i];
    }
    if i :| 0 <= i < |calls| && Renews(AfterCalls(stored, calls[..i]), calls[i]) {
      if i < |before| { assert calls[..i] == before[..i] && calls[i] == before[i]; }
    }
  }

  lemma {:induction false} RenewedSince(stored: Cache, calls: seq<Call>, time: Time)
    requires stored.updatedAt < time && forall i :: 0 <= i < |calls| ==> time <= calls[i].writtenAt
    ensures LastRenewal(Some(stored), calls).Some?
    ensures SomeRenews(Some(stored), calls) <==> LastRenewal(Some(stored), calls).value >= time
    ensures !SomeRenews(Some(stored), calls) ==>
            && LastRenewal(Some(stored), calls).value == stored.updatedAt
            && AfterCalls(Some(stored), calls) == Some(stored)
    decreases |calls|
  {
    if calls != [] {
      hide SomeRenews, Renews, Step;
      RenewedSince(stored, calls[..|calls| - 1], time);
      RenewsIff(AfterCalls(Some(stored), calls[..|calls| - 1]), calls[|calls| - 1]);
      SomeRenewsOneMore(Some(stored), calls);
    }
  }

  /** A stale record stays stale while calls find no change, however often they query: after calls in
      the last hour, a next call with the record's counts, which are within the limit, queries again
      exactly when none of them renewed the record.  In that case they left it as it was. */
  lemma StaleUntilRenewed(stored: Cache, calls: seq<Call>, next: Call)
    requires next.now - stored.updatedAt > HOUR
    requires forall i :: 0 <= i < |calls| ==> next.now - calls[i].writtenAt <= HOUR
    requires var after := AfterCalls(Some(stored), calls);
             after.Some? ==>
               Counted(after, next) == after.value.usage && !IsUsageExceeded(after.value.usage, next.limit)
    ensures Requeries(AfterCalls(Some(stored), calls), next) <==> !SomeRenews(Some(stored), calls)
    ensures !SomeRenews(Some(stored), calls) ==> AfterCalls(Some(stored), calls) == Some(stored)
  {
    RenewedSince(stored, calls, next.now - HOUR);
    RequeriesIff(Some(stored), calls, next);
  }

  /** A stale record that is queried for in vain: the cluster reports what the record says, so it is not
      written, and the same call made later queries again. */
  lemma StaleQueriedInVain(limit: nat, cpu: nat, written: Time, call: Call, later: Time)
    requires cpu <= limit && cpu * 1000 < TWO_64 && call.limit == Usage(limit, 0, 0, 0)
    requires call.clusters == [Some((cpu * 1000, 0))] && call.roles == [] && call.readsOk && call.writeOk
    requires call.now - written > HOUR && later >= call.now
    ensures var record := Cache(Usage(cpu, 0, 1, 0), false, None, written);
            && Requeries(Some(record), call) && Step(Some(record), call) == (Some(record), Returned(record))
            && Requeries(Step(Some(record), call).0, call.(now := later))
  {
    assert call.clusters[..0] == [] && Totals(call.clusters) == (cpu * 1000, 0);
  }

  /** Whatever the next call's counts and limit: a stale record that no call renewed is queried for. */
  lemma UnchangedKeepsRequerying(stored: Option<Cache>, calls: seq<Call>, next: Call)
    requires stored.Some? && next.now - stored.value.updatedAt > HOUR && !SomeRenews(stored, calls)
    ensures AfterCalls(stored, calls) == stored && Requeries(AfterCalls(stored, calls), next)
    decreases |calls|
  {
    if calls != [] {
      SomeRenewsOneMore(stored, calls);
      UnchangedKeepsRequerying(stored, calls[..|calls| - 1], next);
      RenewsIff(AfterCalls(stored, calls[..|calls| - 1]), calls[|calls| - 1]);
    }
  }
}
