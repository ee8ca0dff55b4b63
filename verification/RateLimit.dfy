/** The in-process request limiter and the failure locks that share its storage. */
module RateLimit {
  import opened Prelude

  // ----- settings and keys -----

  datatype Guard = Login | SshChallenge

  /** Window and lock lengths are in seconds; clock readings are in milliseconds. */
  datatype Settings = Settings(threshold: int, window: int, lockFor: int)

  datatype Config = Config(readLimit: nat, writeLimit: nat, window: int, login: Settings, ssh: Settings) {
    function Limit(write: bool): nat {
      if write then writeLimit else readLimit
    }

    function Rule(guard: Guard): Settings {
      if guard == Login then login else ssh
    }
  }

  function Prefix(guard: Guard): string {
    match guard
    case Login => "rate_limit:login"
    case SshChallenge => "rate_limit:ssh_challenge"
  }

  function BudgetKey(identity: string, write: bool): string {
    "ratelimit:" + identity + (if write then ":w" else ":r")
  }

  function CountKey(guard: Guard, subject: string): string {
    Prefix(guard) + ":fails:" + subject
  }

  function LockKey(guard: Guard, subject: string): string {
    Prefix(guard) + ":lock:" + subject
  }

  /** No two budgets, counters or locks share a key. */
  lemma KeysAreApart(g: Guard, s: string, g': Guard, s': string, identity: string, write: bool, identity': string, write': bool)
    ensures CountKey(g, s) == CountKey(g', s') ==> g == g' && s == s'
    ensures LockKey(g, s) == LockKey(g', s') ==> g == g' && s == s'
    ensures BudgetKey(identity, write) == BudgetKey(identity', write') ==> identity == identity' && write == write'
    ensures BudgetKey(identity, write) != CountKey(g, s)
  {
    assert CountKey(g, s)[11] == LockKey(g, s)[11] == if g == Login then 'l' else 's';
    assert CountKey(g', s')[11] == LockKey(g', s')[11] == if g' == Login then 'l' else 's';
    assert CountKey(g, s)[|Prefix(g) + ":fails:"|..] == s && CountKey(g', s')[|Prefix(g') + ":fails:"|..] == s';
    assert LockKey(g, s)[|Prefix(g) + ":lock:"|..] == s && LockKey(g', s')[|Prefix(g') + ":lock:"|..] == s';
    var key, key' := BudgetKey(identity, write), BudgetKey(identity', write');
    assert key[10..|key| - 2] == identity && key'[10..|key'| - 2] == identity';
    assert key[|key| - 1] == (if write then 'w' else 'r') && key'[|key'| - 1] == if write' then 'w' else 'r';
    assert key[4] == 'l' && CountKey(g, s)[4] == '_';
  }

  // ----- storage -----

  datatype Storage = Storage(buckets: map<string, seq<int>>, locks: map<string, int>) {
    function Bucket(key: string): seq<int> {
      if key in buckets then buckets[key] else []
    }

    /** `_bucket_count_after_hit`: prune, then append. */
    function AfterHit(key: string, window: int, now: int): Storage {
      this.(buckets := buckets[key := Recent(Bucket(key), now - window * 1000) + [now]])
    }

    function AfterFailure(countKey: string, lockKey: string, rule: Settings, now: int, later: int): Storage {
      var s := AfterHit(countKey, rule.window, now);
      if |s.Bucket(countKey)| >= rule.threshold then s.(locks := locks[lockKey := later + rule.lockFor * 1000]) else s
    }

    predicate Locked(key: string, now: int) {
      key in locks && now < locks[key]
    }

    /** A read that finds an expired lock deletes it. */
    function AfterRead(key: string, now: int): Storage {
      if Locked(key, now) then this else this.(locks := locks - {key})
    }

    function Cleared(countKey: string, lockKey: string): Storage {
      Storage(buckets - {countKey}, locks - {lockKey})
    }
  }

  const FRESH := Storage(map[], map[])

  function Recent(stamps: seq<int>, cutoff: int): seq<int> {
    if stamps == [] then []
    else
      var init, last := Recent(stamps[..|stamps| - 1], cutoff), stamps[|stamps| - 1];
      if last > cutoff then init + [last] else init
  }

  class SlidingWindow {
    var buckets: map<string, seq<int>>
    var locks: map<string, int>

    function Value(): Storage
      reads this
    {
      Storage(buckets, locks)
    }

    constructor ()
      ensures Value() == FRESH
    {
      buckets, locks := map[], map[];
    }

    method Hit(key: string, maxRequests: int, window: int, now: int) returns (allowed: bool, remaining: nat)
      modifies this
      ensures Value() == old(Value()).AfterHit(key, window, now)
      ensures var count := |Value().Bucket(key)|;
              allowed == (count <= maxRequests) && remaining == if count <= maxRequests then maxRequests - count else 0
    {
      var count := CountAfterHit(key, window, now);
      allowed := count <= maxRequests;
      remaining := if maxRequests - count > 0 then maxRequests - count else 0;
    }

    method CountAfterHit(key: string, window: int, now: int) returns (count: nat)
      modifies this`buckets
      ensures Value() == old(Value()).AfterHit(key, window, now)
      ensures count == |Value().Bucket(key)|
    {
      var bucket := if key in buckets then buckets[key] else [];
      bucket := Recent(bucket, now - window * 1000);
      bucket := bucket + [now];
      buckets := buckets[key := bucket];
      count := |bucket|;
    }

    /** The clock is read again for the lock's start. */
    method FailureHit(countKey: string, lockKey: string, rule: Settings, now: int, later: int) returns (tripped: bool)
      modifies this
      ensures Value() == old(Value()).AfterFailure(countKey, lockKey, rule, now, later)
      ensures tripped == (|Value().Bucket(countKey)| >= rule.threshold)
    {
      var count := CountAfterHit(countKey, rule.window, now);
      tripped := count >= rule.threshold;
      if tripped {
        locks := locks[lockKey := later + rule.lockFor * 1000];
      }
    }

    method IsLocked(key: string, now: int) returns (locked: bool)
      modifies this`locks
      ensures locked == old(Value()).Locked(key, now)
      ensures Value() == old(Value()).AfterRead(key, now)
    {
      if key !in locks {
        return false;
      }
      if locks[key] <= now {
        locks := locks - {key};
        return false;
      }
      locked := true;
    }

    method ClearFailure(countKey: string, lockKey: string)
      modifies this
      ensures Value() == old(Value()).Cleared(countKey, lockKey)
    {
      buckets := buckets - {countKey};
      locks := locks - {lockKey};
    }
  }

  // ----- histories -----

  datatype Call =
    | Request(identity: string, write: bool, now: int)
    | Fail(guard: Guard, subject: string, now: int, later: int)
    | Succeed(guard: Guard, subject: string)
    | Check(guard: Guard, subject: string, now: int)

  function Step(s: Storage, call: Call, cfg: Config): Storage {
    match call
    case Request(identity, write, now) => s.AfterHit(BudgetKey(identity, write), cfg.window, now)
    case Fail(guard, subject, now, later) =>
      s.AfterFailure(CountKey(guard, subject), LockKey(guard, subject), cfg.Rule(guard), now, later)
    case Succeed(guard, subject) => s.Cleared(CountKey(guard, subject), LockKey(guard, subject))
    case Check(guard, subject, now) => s.AfterRead(LockKey(guard, subject), now)
  }

  function After(log: seq<Call>, cfg: Config): Storage {
    if log == [] then FRESH else Step(After(log[..|log| - 1], cfg), log[|log| - 1], cfg)
  }

  /** The last clock reading of a log that starts no earlier than `from`. */
  function Clock(from: int, log: seq<Call>): int {
    if log == [] then from
    else match log[|log| - 1]
         case Request(_, _, now) => now
         case Fail(_, _, _, later) => later
         case Succeed(_, _) => Clock(from, log[..|log| - 1])
         case Check(_, _, now) => now
  }

  /** Clock readings never go back. */
  predicate Ordered(from: int, log: seq<Call>) {
    log == [] ||
    (var before, call := Clock(from, log[..|log| - 1]), log[|log| - 1];
     && Ordered(from, log[..|log| - 1])
     && (call.Succeed? || before <= call.now)
     && (call.Fail? ==> call.now <= call.later))
  }

  /** Every request ever made against one budget. */
  function Requests(log: seq<Call>, identity: string, write: bool): seq<int> {
    if log == [] then []
    else
      var before, call := Requests(log[..|log| - 1], identity, write), log[|log| - 1];
      if call.Request? && call.identity == identity && call.write == write then before + [call.now] else before
  }

  datatype Stamp = Stamp(now: int, later: int)

  /** Every failure of one subject since its last success. */
  function Failures(log: seq<Call>, guard: Guard, subject: string): seq<Stamp> {
    if log == [] then [] else Extended(Failures(log[..|log| - 1], guard, subject), log[|log| - 1], guard, subject)
  }

  /** A failure is added, a success wipes the slate, other calls are nothing to this subject. */
  function Extended(fails: seq<Stamp>, call: Call, guard: Guard, subject: string): seq<Stamp> {
    if call.Fail? && call.guard == guard && call.subject == subject then fails + [Stamp(call.now, call.later)]
    else if call == Succeed(guard, subject) then []
    else fails
  }

  function Times(fails: seq<Stamp>): seq<int> {
    if fails == [] then [] else Times(fails[..|fails| - 1]) + [fails[|fails| - 1].now]
  }

  /** How many of the stamps are later than the cutoff. */
  function CountAfter(stamps: seq<int>, cutoff: int): nat {
    if stamps == [] then 0
    else CountAfter(stamps[..|stamps| - 1], cutoff) + if stamps[|stamps| - 1] > cutoff then 1 else 0
  }

  /** The k-th failure was at least the threshold-th in the window that ends at it. */
  predicate Trips(fails: seq<Stamp>, k: nat, rule: Settings)
    requires k < |fails|
  {
    CountAfter(Times(fails[..k]), fails[k].now - rule.window * 1000) + 1 >= rule.threshold
  }

  predicate LockedBy(fails: seq<Stamp>, rule: Settings, t: int) {
    exists k :: 0 <= k < |fails| && Trips(fails, k, rule) && t < fails[k].later + rule.lockFor * 1000
  }

  // ----- a pruned bucket is the recent end of the history -----

  /** What one key's stamps look like after pruning at every append. */
  function Pruned(stamps: seq<int>, window: int): seq<int> {
    if stamps == [] then []
    else Recent(stamps[..|stamps| - 1], stamps[|stamps| - 1] - window * 1000) + [stamps[|stamps| - 1]]
  }

  lemma RecentAppend(stamps: seq<int>, last: int, cutoff: int)
    ensures Recent(stamps + [last], cutoff) == if last > cutoff then Recent(stamps, cutoff) + [last] else Recent(stamps, cutoff)
  {
    assert (stamps + [last])[..|stamps|] == stamps;
  }

  lemma {:induction false} RecentOfRecent(stamps: seq<int>, early: int, late: int)
    requires early <= late
    ensures Recent(Recent(stamps, early), late) == Recent(stamps, late)
    decreases |stamps|
  {
    if stamps != [] {
      var init, last := stamps[..|stamps| - 1], stamps[|stamps| - 1];
      RecentOfRecent(init, early, late);
      RecentAppend(Recent(init, early), last, late);
    }
  }

  lemma {:induction false} RecentCounts(stamps: seq<int>, cutoff: int)
    ensures |Recent(stamps, cutoff)| == CountAfter(stamps, cutoff)
    decreases |stamps|
  {
    if stamps != [] {
      RecentCounts(stamps[..|stamps| - 1], cutoff);
    }
  }

  lemma PrunedAppend(stamps: seq<int>, last: int, window: int)
    ensures Pruned(stamps + [last], window) == Recent(stamps, last - window * 1000) + [last]
  {
    assert (stamps + [last])[..|stamps|] == stamps;
  }

  /** Pruning twice loses nothing: the next append sees exactly the history inside its own window. */
  lemma PruningIsExact(stamps: seq<int>, window: int, now: int)
    requires stamps != [] ==> stamps[|stamps| - 1] <= now
    ensures Recent(Pruned(stamps, window), now - window * 1000) == Recent(stamps, now - window * 1000)
    ensures Recent(Pruned(stamps, window), now - window * 1000) + [now] == Pruned(stamps + [now], window)
  {
    hide Recent, Pruned;
    PrunedAppend(stamps, now, window);
    if stamps == [] {
      EmptyStamps(window);
    } else {
      SplitLast(stamps);
      PruningStep(stamps[..|stamps| - 1], stamps[|stamps| - 1], window, now - window * 1000);
    }
  }

  lemma SplitLast(stamps: seq<int>)
    requires stamps != []
    ensures stamps == stamps[..|stamps| - 1] + [stamps[|stamps| - 1]]
  {
  }

  lemma EmptyStamps(window: int)
    ensures Pruned([], window) == [] && Times([]) == []
  {
  }

  lemma PruningStep(init: seq<int>, last: int, window: int, cutoff: int)
    requires last - window * 1000 <= cutoff
    ensures Recent(Pruned(init + [last], window), cutoff) == Recent(init + [last], cutoff)
  {
    hide Recent, Pruned;
    PrunedAppend(init, last, window);
    RecentOfRecent(init, last - window * 1000, cutoff);
    RecentAppend(Recent(init, last - window * 1000), last, cutoff);
    RecentAppend(init, last, cutoff);
  }

  lemma {:induction false} RequestsInOrder(from: int, log: seq<Call>, identity: string, write: bool)
    requires Ordered(from, log)
    ensures from <= Clock(from, log)
    ensures var times := Requests(log, identity, write); times != [] ==> times[|times| - 1] <= Clock(from, log)
    decreases |log|
  {
    if log != [] {
      RequestsInOrder(from, log[..|log| - 1], identity, write);
    }
  }

  lemma TimesAppend(fails: seq<Stamp>, stamp: Stamp)
    ensures Times(fails + [stamp]) == Times(fails) + [stamp.now]
    ensures Times(fails) != [] <==> fails != []
    ensures fails != [] ==> Times(fails)[|Times(fails)| - 1] == fails[|fails| - 1].now
  {
    assert (fails + [stamp])[..|fails|] == fails;
  }

  lemma StepOnBudget(s: Storage, call: Call, identity: string, write: bool, cfg: Config)
    ensures var key := BudgetKey(identity, write);
            Step(s, call, cfg).Bucket(key) ==
            if call.Request? && call.identity == identity && call.write == write
            then Recent(s.Bucket(key), call.now - cfg.window * 1000) + [call.now]
            else s.Bucket(key)
  {
    hide BudgetKey, CountKey, LockKey, Recent;
    match call {
      case Request(other, w, _) => KeysAreApart(Login, "", Login, "", identity, write, other, w);
      case Fail(guard, subject, _, _) => KeysAreApart(guard, subject, guard, subject, identity, write, identity, write);
      case Succeed(guard, subject) => KeysAreApart(guard, subject, guard, subject, identity, write, identity, write);
      case Check(_, _, _) =>
    }
  }

  lemma StepOnCounter(s: Storage, call: Call, guard: Guard, subject: string, cfg: Config)
    ensures var key := CountKey(guard, subject);
            Step(s, call, cfg).Bucket(key) ==
            if call.Fail? && call.guard == guard && call.subject == subject
            then Recent(s.Bucket(key), call.now - cfg.Rule(guard).window * 1000) + [call.now]
            else if call == Succeed(guard, subject) then []
            else s.Bucket(key)
  {
    hide BudgetKey, CountKey, LockKey, Recent;
    match call {
      case Request(identity, write, _) => KeysAreApart(guard, subject, guard, subject, identity, write, identity, write);
      case Fail(other, name, _, _) => KeysAreApart(guard, subject, other, name, "", true, "", true);
      case Succeed(other, name) => KeysAreApart(guard, subject, other, name, "", true, "", true);
      case Check(_, _, _) =>
    }
  }

  lemma StepOnLock(s: Storage, call: Call, guard: Guard, subject: string, t: int, cfg: Config)
    requires call.Check? ==> call.now <= t
    ensures var key, rule := LockKey(guard, subject), cfg.Rule(guard);
            Step(s, call, cfg).Locked(key, t) <==>
            if && call.Fail? && call.guard == guard && call.subject == subject
               && |s.AfterHit(CountKey(guard, subject), rule.window, call.now).Bucket(CountKey(guard, subject))| >= rule.threshold
            then t < call.later + rule.lockFor * 1000
            else call != Succeed(guard, subject) && s.Locked(key, t)
  {
    hide BudgetKey, CountKey, LockKey, Recent;
    match call {
      case Request(_, _, _) =>
      case Fail(other, name, _, _) => KeysAreApart(guard, subject, other, name, "", true, "", true);
      case Succeed(other, name) => KeysAreApart(guard, subject, other, name, "", true, "", true);
      case Check(other, name, _) => KeysAreApart(guard, subject, other, name, "", true, "", true);
    }
  }

  /** The bucket of a budget is its whole request history cut to the window of the last request. */
  lemma {:induction false} BudgetBucketIsHistory(from: int, log: seq<Call>, identity: string, write: bool, cfg: Config)
    requires Ordered(from, log)
    ensures After(log, cfg).Bucket(BudgetKey(identity, write)) == Pruned(Requests(log, identity, write), cfg.window)
    decreases |log|
  {
    if log == [] {
      return;
    }
    hide BudgetKey, Step, Recent, Pruned;
    var before, call := log[..|log| - 1], log[|log| - 1];
    BudgetBucketIsHistory(from, before, identity, write, cfg);
    RequestsInOrder(from, before, identity, write);
    StepOnBudget(After(before, cfg), call, identity, write, cfg);
    if call.Request? {
      PruningIsExact(Requests(before, identity, write), cfg.window, call.now);
    }
  }

  /** The failures happened in order, the last no later than the clock says. */
  predicate UpTo(fails: seq<Stamp>, clock: int) {
    forall k :: 0 <= k < |fails| ==> fails[k].now <= fails[k].later <= clock
  }

  lemma {:induction false} FailuresUpToClock(from: int, log: seq<Call>, guard: Guard, subject: string)
    requires Ordered(from, log)
    ensures UpTo(Failures(log, guard, subject), Clock(from, log))
    decreases |log|
  {
    if log != [] {
      FailuresUpToClock(from, log[..|log| - 1], guard, subject);
      RequestsInOrder(from, log, "", true);
    }
  }

  lemma OrderedPrefix(from: int, log: seq<Call>)
    requires Ordered(from, log) && log != []
    ensures Ordered(from, log[..|log| - 1]) && Clock(from, log[..|log| - 1]) <= Clock(from, log)
    ensures var call := log[|log| - 1];
            && (!call.Succeed? ==> Clock(from, log[..|log| - 1]) <= call.now <= Clock(from, log))
            && (call.Fail? ==> call.now <= call.later == Clock(from, log))
  {
  }

  lemma LastTime(fails: seq<Stamp>, clock: int)
    requires UpTo(fails, clock)
    ensures |Times(fails)| == |fails| && (fails != [] ==> Times(fails)[|fails| - 1] <= clock)
  {
    if fails != [] {
      TimesLength(fails[..|fails| - 1]);
    }
  }

  lemma {:induction false} TimesLength(fails: seq<Stamp>)
    ensures |Times(fails)| == |fails|
    decreases |fails|
  {
    if fails != [] {
      TimesLength(fails[..|fails| - 1]);
    }
  }

  /** The bucket of a subject's counter holds what pruning its failures leaves. */
  predicate Counts(s: Storage, fails: seq<Stamp>, guard: Guard, subject: string, cfg: Config) {
    s.Bucket(CountKey(guard, subject)) == Pruned(Times(fails), cfg.Rule(guard).window)
  }

  lemma StepCounts(s: Storage, fails: seq<Stamp>, call: Call, clock: int, guard: Guard, subject: string, cfg: Config)
    requires Counts(s, fails, guard, subject, cfg) && UpTo(fails, clock) && (call.Fail? ==> clock <= call.now)
    ensures Counts(Step(s, call, cfg), Extended(fails, call, guard, subject), guard, subject, cfg)
  {
    hide CountKey, Step, Recent, Pruned, Times;
    StepOnCounter(s, call, guard, subject, cfg);
    EmptyStamps(cfg.Rule(guard).window);
    if call.Fail? {
      LastTime(fails, clock);
      TimesAppend(fails, Stamp(call.now, call.later));
      PruningIsExact(Times(fails), cfg.Rule(guard).window, call.now);
    }
  }

  /** A failure counter's bucket is the failures since the last success, cut to the window of the last failure. */
  lemma {:induction false} FailureBucketIsHistory(from: int, log: seq<Call>, guard: Guard, subject: string, cfg: Config)
    requires Ordered(from, log)
    ensures Counts(After(log, cfg), Failures(log, guard, subject), guard, subject, cfg)
    decreases |log|
  {
    EmptyStamps(cfg.Rule(guard).window);
    if log != [] {
      hide Counts, Step, Extended, Clock, Ordered;
      var before, call := log[..|log| - 1], log[|log| - 1];
      OrderedPrefix(from, log);
      FailureBucketIsHistory(from, before, guard, subject, cfg);
      FailuresUpToClock(from, before, guard, subject);
      StepCounts(After(before, cfg), Failures(before, guard, subject), call, Clock(from, before), guard, subject, cfg);
    }
  }

  // ----- the answers -----

  /** What `hit` answers to a request made after `log`. */
  predicate Allowed(log: seq<Call>, identity: string, write: bool, now: int, cfg: Config) {
    var key := BudgetKey(identity, write);
    |After(log, cfg).AfterHit(key, cfg.window, now).Bucket(key)| <= cfg.Limit(write)
  }

  /** A request passes exactly when the requests of its own window, refused ones and itself included, are within the limit. */
  lemma AllowedByHistory(from: int, log: seq<Call>, identity: string, write: bool, now: int, cfg: Config)
    requires Ordered(from, log) && Clock(from, log) <= now
    ensures Allowed(log, identity, write, now, cfg)
            <==> CountAfter(Requests(log, identity, write), now - cfg.window * 1000) + 1 <= cfg.Limit(write)
  {
    CountByHistory(from, log, identity, write, now, cfg);
  }

  lemma CountByHistory(from: int, log: seq<Call>, identity: string, write: bool, now: int, cfg: Config)
    requires Ordered(from, log) && Clock(from, log) <= now
    ensures var key := BudgetKey(identity, write);
            |After(log, cfg).AfterHit(key, cfg.window, now).Bucket(key)|
            == CountAfter(Requests(log, identity, write), now - cfg.window * 1000) + 1
  {
    hide BudgetKey, Recent, Pruned, CountAfter, After, Requests;
    var times := Requests(log, identity, write);
    BudgetBucketIsHistory(from, log, identity, write, cfg);
    RequestsInOrder(from, log, identity, write);
    PruningIsExact(times, cfg.window, now);
    RecentCounts(times, now - cfg.window * 1000);
  }

  /** The requests of one budget that were let through later than `start` and no later than `end`. */
  function Admitted(log: seq<Call>, identity: string, write: bool, start: int, end: int, cfg: Config): nat {
    if log == [] then 0
    else
      var before, call := log[..|log| - 1], log[|log| - 1];
      Admitted(before, identity, write, start, end, cfg) +
      if && call.Request? && call.identity == identity && call.write == write
         && start < call.now <= end && Allowed(before, identity, write, call.now, cfg)
      then 1 else 0
  }

  lemma {:induction false} AdmittedAreRequests(log: seq<Call>, identity: string, write: bool, start: int, end: int, cfg: Config)
    ensures Admitted(log, identity, write, start, end, cfg) <= CountAfter(Requests(log, identity, write), start)
    decreases |log|
  {
    hide Allowed;
    if log != [] {
      AdmittedAreRequests(log[..|log| - 1], identity, write, start, end, cfg);
    }
  }

  lemma {:induction false} EarlierCutoffCountsMore(stamps: seq<int>, early: int, late: int)
    requires early <= late
    ensures CountAfter(stamps, late) <= CountAfter(stamps, early)
    decreases |stamps|
  {
    if stamps != [] {
      EarlierCutoffCountsMore(stamps[..|stamps| - 1], early, late);
    }
  }

  /** No stretch of time as long as the window lets more requests through than the limit, wherever it starts. */
  lemma {:induction false} NoWindowOverLimit(from: int, log: seq<Call>, identity: string, write: bool, start: int, cfg: Config)
    requires Ordered(from, log)
    ensures Admitted(log, identity, write, start, start + cfg.window * 1000, cfg) <= cfg.Limit(write)
    decreases |log|
  {
    hide Allowed;
    if log != [] {
      var before, call := log[..|log| - 1], log[|log| - 1];
      var end := start + cfg.window * 1000;
      NoWindowOverLimit(from, before, identity, write, start, cfg);
      if Admitted(log, identity, write, start, end, cfg) > Admitted(before, identity, write, start, end, cfg) {
        AllowedByHistory(from, before, identity, write, call.now, cfg);
        AdmittedAreRequests(before, identity, write, start, end, cfg);
        EarlierCutoffCountsMore(Requests(before, identity, write), call.now - cfg.window * 1000, start);
      }
    }
  }

  /** The count of further requests that `hit` reports with its answer. */
  function Remaining(log: seq<Call>, identity: string, write: bool, now: int, cfg: Config): nat {
    var key := BudgetKey(identity, write);
    var count := |After(log, cfg).AfterHit(key, cfg.window, now).Bucket(key)|;
    if count <= cfg.Limit(write) then cfg.Limit(write) - count else 0
  }

  function Again(log: seq<Call>, identity: string, write: bool, now: int, n: nat): seq<Call> {
    if n == 0 then log else Again(log, identity, write, now, n - 1) + [Request(identity, write, now)]
  }

  lemma {:induction false} AgainAdds(from: int, log: seq<Call>, identity: string, write: bool, now: int, n: nat, cutoff: int)
    requires Ordered(from, log) && Clock(from, log) <= now && cutoff < now
    ensures var more := Again(log, identity, write, now, n);
            && Ordered(from, more) && Clock(from, more) <= now
            && CountAfter(Requests(more, identity, write), cutoff) == CountAfter(Requests(log, identity, write), cutoff) + n
    decreases n
  {
    hide Requests, CountAfter, Ordered, Clock;
    if n != 0 {
      AgainAdds(from, log, identity, write, now, n - 1, cutoff);
      OneMore(from, Again(log, identity, write, now, n - 1), identity, write, now, cutoff);
    }
  }

  lemma OneMore(from: int, log: seq<Call>, identity: string, write: bool, now: int, cutoff: int)
    requires Ordered(from, log) && Clock(from, log) <= now && cutoff < now
    ensures var more := log + [Request(identity, write, now)];
            && Ordered(from, more) && Clock(from, more) <= now
            && CountAfter(Requests(more, identity, write), cutoff) == CountAfter(Requests(log, identity, write), cutoff) + 1
  {
    assert (log + [Request(identity, write, now)])[..|log|] == log;
    CountAppend(Requests(log, identity, write), now, cutoff);
  }

  lemma CountAppend(stamps: seq<int>, last: int, cutoff: int)
    ensures CountAfter(stamps + [last], cutoff) == CountAfter(stamps, cutoff) + if last > cutoff then 1 else 0
  {
    assert (stamps + [last])[..|stamps|] == stamps;
  }

  /** The reported remainder is exact: after an allowed request, that many more pass at the same instant and no further one. */
  lemma RemainingIsExact(from: int, log: seq<Call>, identity: string, write: bool, now: int, n: nat, cfg: Config)
    requires Ordered(from, log) && Clock(from, log) <= now && 1 <= cfg.window
    requires Allowed(log, identity, write, now, cfg)
    ensures Allowed(Again(log, identity, write, now, n), identity, write, now, cfg)
            <==> n <= Remaining(log, identity, write, now, cfg)
  {
    hide BudgetKey, Recent, Pruned, CountAfter, Requests, Ordered, Clock, Again;
    AgainAdds(from, log, identity, write, now, n, now - cfg.window * 1000);
    AllowedByHistory(from, log, identity, write, now, cfg);
    AllowedByHistory(from, Again(log, identity, write, now, n), identity, write, now, cfg);
    CountByHistory(from, log, identity, write, now, cfg);
  }

  /** The failure that is being recorded trips the lock exactly when the history says it is one too many. */
  lemma TripsByHistory(s: Storage, fails: seq<Stamp>, stamp: Stamp, clock: int, guard: Guard, subject: string, cfg: Config)
    requires Counts(s, fails, guard, subject, cfg) && UpTo(fails, clock) && clock <= stamp.now
    ensures var key, rule := CountKey(guard, subject), cfg.Rule(guard);
            |s.AfterHit(key, rule.window, stamp.now).Bucket(key)| >= rule.threshold
            <==> Trips(fails + [stamp], |fails|, rule)
  {
    hide CountKey, Recent, Pruned, CountAfter, Times;
    var rule := cfg.Rule(guard);
    LastTime(fails, clock);
    PruningIsExact(Times(fails), rule.window, stamp.now);
    RecentCounts(Times(fails), stamp.now - rule.window * 1000);
    assert (fails + [stamp])[..|fails|] == fails;
  }

  lemma LockedByMore(fails: seq<Stamp>, stamp: Stamp, rule: Settings, t: int)
    ensures LockedBy(fails + [stamp], rule, t)
            <==> LockedBy(fails, rule, t)
                 || (Trips(fails + [stamp], |fails|, rule) && t < stamp.later + rule.lockFor * 1000)
  {
    hide CountAfter, Times;
    var more := fails + [stamp];
    assert forall k :: 0 <= k < |fails| ==> more[..k] == fails[..k] && more[k] == fails[k];
    assert forall k :: 0 <= k < |fails| ==> Trips(more, k, rule) == Trips(fails, k, rule);
  }

  /** The lock that the storage shows at t is the one the failures imply. */
  predicate Locks(s: Storage, fails: seq<Stamp>, t: int, guard: Guard, subject: string, cfg: Config) {
    s.Locked(LockKey(guard, subject), t) <==> LockedBy(fails, cfg.Rule(guard), t)
  }

  lemma StepLocks(s: Storage, fails: seq<Stamp>, call: Call, clock: int, t: int, guard: Guard, subject: string, cfg: Config)
    requires Locks(s, fails, t, guard, subject, cfg) && Counts(s, fails, guard, subject, cfg) && UpTo(fails, clock)
    requires (call.Fail? ==> clock <= call.now <= call.later <= t) && (call.Check? ==> call.now <= t)
    ensures Locks(Step(s, call, cfg), Extended(fails, call, guard, subject), t, guard, subject, cfg)
  {
    hide CountKey, LockKey, Step, Recent, Trips, LockedBy, Counts;
    StepOnLock(s, call, guard, subject, t, cfg);
    NoFailuresNoLock(cfg.Rule(guard), t);
    if call.Fail? && call.guard == guard && call.subject == subject {
      var stamp := Stamp(call.now, call.later);
      TripsByHistory(s, fails, stamp, clock, guard, subject, cfg);
      LockedByMore(fails, stamp, cfg.Rule(guard), t);
      if call.later + cfg.Rule(guard).lockFor * 1000 <= t {
        EarlierLocksEndEarlier(fails, call.later, cfg.Rule(guard), t);
      }
    }
  }

  /**
   * A subject is locked at t exactly when some failure since its last success was one too many in its own
   * window and its lock has not run out, whatever reads deleted and other subjects did in between.
   */
  lemma LockedByHistory(from: int, log: seq<Call>, guard: Guard, subject: string, t: int, cfg: Config)
    requires Ordered(from, log) && Clock(from, log) <= t
    ensures After(log, cfg).Locked(LockKey(guard, subject), t)
            <==> LockedBy(Failures(log, guard, subject), cfg.Rule(guard), t)
  {
    LocksFollowLog(from, log, guard, subject, t, cfg);
  }

  lemma {:induction false} LocksFollowLog(from: int, log: seq<Call>, guard: Guard, subject: string, t: int, cfg: Config)
    requires Ordered(from, log) && Clock(from, log) <= t
    ensures Locks(After(log, cfg), Failures(log, guard, subject), t, guard, subject, cfg)
    decreases |log|
  {
    NoFailuresNoLock(cfg.Rule(guard), t);
    if log != [] {
      hide Locks, Counts, Step, Extended, Clock, Ordered, UpTo;
      var before, call := log[..|log| - 1], log[|log| - 1];
      OrderedPrefix(from, log);
      LocksFollowLog(from, before, guard, subject, t, cfg);
      FailureBucketIsHistory(from, before, guard, subject, cfg);
      FailuresUpToClock(from, before, guard, subject);
      StepLocks(After(before, cfg), Failures(before, guard, subject), call, Clock(from, before), t, guard, subject, cfg);
    }
  }

  lemma NoFailuresNoLock(rule: Settings, t: int)
    ensures !LockedBy([], rule, t)
  {
  }

  lemma EarlierLocksEndEarlier(fails: seq<Stamp>, later: int, rule: Settings, t: int)
    requires UpTo(fails, later) && later + rule.lockFor * 1000 <= t
    ensures !LockedBy(fails, rule, t)
  {
  }
}
