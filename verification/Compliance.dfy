/** What the monitor finds wrong with a process or a GPU, from the caches alone. */
module Compliance {
  import opened Prelude
  import opened ServerCaches

  const ADMIN_DECLARED := "admin_declared"
  const UNLINKED := "unlinked_user_occupy"
  const MEMORY_OVERUSE := "memory_overuse"
  const PREEMPT := "preempt_others_reservation"
  const NO_RESERVATION := "no_reservation_occupy"
  const GPU_HANG := "gpu_hang"
  const GPU_TEMP := "gpu_temp_high"
  const SCRIPT_OVERRUN := "script_overrun_grace"

  /** A cached reservation; a time that does not parse is None. */
  datatype Booking = Booking(id: int, gpu: int, startAt: Option<int>, endAt: Option<int>, memoryMb: Option<int>, source: string)

  datatype Account = Account(userIds: seq<int>, bookings: map<int, seq<Booking>>) {
    function Of(user: int): seq<Booking> {
      if user in bookings then bookings[user] else []
    }
  }

  datatype Severity = LogOnly | Notify | Warn | AutoKill | Unknown(text: string)

  datatype Policy = Policy(enabled: bool, severity: Severity, threshold: Option<map<string, int>>, grace: Option<int>) {
    function Setting(name: string, default: int): int {
      if threshold.Some? && name in threshold.value then threshold.value[name] else default
    }
  }

  datatype Violation =
    Violation(key: string, server: int, gpu: int, username: Option<string>, pid: Option<int>, linked: seq<int>, payload: map<string, int>)

  function SettingOf(policies: Cache<Policy>, server: int, key: string, name: string, default: int): int {
    match Find(policies, server, key)
    case None => default
    case Some(policy) => policy.Setting(name, default)
  }

  // ----- processes -----

  datatype Process = Process(gpu: int, username: string, pid: int, memoryMb: int)

  /** The booking entitles someone to the GPU at this moment. */
  predicate Covers(b: Booking, gpu: int, now: int) {
    && b.gpu == gpu && b.source != ADMIN_DECLARED
    && b.startAt.Some? && b.endAt.Some? && b.startAt.value <= now < b.endAt.value
  }

  /** Some linked user of the account is entitled to the GPU. */
  predicate Entitled(account: Account, gpu: int, now: int) {
    exists user, b :: user in account.userIds && b in account.Of(user) && Covers(b, gpu, now)
  }

  /** Every booking the linked users hold, in the order the monitor meets them. */
  function Held(account: Account, users: seq<int>): seq<Booking> {
    if users == [] then [] else Held(account, users[..|users| - 1]) + account.Of(users[|users| - 1])
  }

  function FirstCovering(bookings: seq<Booking>, gpu: int, now: int): (r: Option<Booking>)
    ensures r.Some? ==> r.value in bookings && Covers(r.value, gpu, now)
    ensures r.None? <==> forall b :: b in bookings ==> !Covers(b, gpu, now)
  {
    if bookings == [] then None
    else if Covers(bookings[0], gpu, now) then Some(bookings[0])
    else
      var rest := FirstCovering(bookings[1..], gpu, now);
      assert forall b :: b in bookings <==> b == bookings[0] || b in bookings[1..];
      rest
  }

  function Linked(accounts: Cache<Account>, server: int, username: string): seq<int> {
    match Find(accounts, server, username)
    case None => []
    case Some(account) => account.userIds
  }

  /** Another account's user on this server is entitled to the GPU. */
  predicate OtherHolder(accounts: Cache<Account>, server: int, username: string, gpu: int, now: int) {
    exists key :: key in accounts && key.0 == server && key.1 != username && Entitled(accounts[key], gpu, now)
  }

  /** More than the quota by more than the tolerated percentage. */
  predicate OverQuota(used: int, quota: Option<int>, percent: int) {
    quota.Some? && used * 100 > quota.value * (100 + percent)
  }

  function Tolerance(policies: Cache<Policy>, server: int): int {
    SettingOf(policies, server, MEMORY_OVERUSE, "value", 20)
  }

  /** The verdict on one process, case by case. */
  ghost function Verdict(accounts: Cache<Account>, policies: Cache<Policy>, server: int, p: Process, now: int): Option<Violation> {
    var linked := Linked(accounts, server, p.username);
    var used := map["memory_used_mb" := p.memoryMb];
    if linked == [] then
      Some(Violation(UNLINKED, server, p.gpu, Some(p.username), Some(p.pid), [], used))
    else
      var account := accounts[(server, p.username)];
      match FirstCovering(Held(account, linked), p.gpu, now)
      case Some(own) =>
        if OverQuota(p.memoryMb, own.memoryMb, Tolerance(policies, server)) then
          Some(Violation(MEMORY_OVERUSE, server, p.gpu, Some(p.username), Some(p.pid), linked,
                         used["memory_quota_mb" := own.memoryMb.value]["reservation_id" := own.id]))
        else None
      case None =>
        var key := if OtherHolder(accounts, server, p.username, p.gpu, now) then PREEMPT else NO_RESERVATION;
        Some(Violation(key, server, p.gpu, Some(p.username), Some(p.pid), linked, used))
  }

  lemma {:induction false} HeldByUsers(account: Account, users: seq<int>)
    ensures forall b :: b in Held(account, users) <==> exists user :: user in users && b in account.Of(user)
  {
    if users != [] {
      var init, last := users[..|users| - 1], users[|users| - 1];
      HeldByUsers(account, init);
      assert forall user :: user in users <==> user in init || user == last;
    }
  }

  /** User i's booking k is of the GPU, over this moment, and was not declared by an admin. */
  predicate Grants(account: Account, i: nat, k: nat, gpu: int, now: int) {
    && i < |account.userIds| && account.userIds[i] in account.bookings && k < |account.bookings[account.userIds[i]]|
    && var b := account.bookings[account.userIds[i]][k];
    && b.gpu == gpu && b.source != "admin_declared"
    && b.startAt.Some? && b.startAt.value <= now && b.endAt.Some? && now < b.endAt.value
  }

  /** An account is entitled by a booking of one of its own users, and by nothing else. */
  lemma WhoIsEntitled(account: Account, gpu: int, now: int)
    ensures Entitled(account, gpu, now) <==> exists i: nat, k: nat :: Grants(account, i, k, gpu, now)
  {
    if Entitled(account, gpu, now) {
      var user, b :| user in account.userIds && b in account.Of(user) && Covers(b, gpu, now);
      var i: nat :| i < |account.userIds| && account.userIds[i] == user;
      var k: nat :| k < |account.bookings[user]| && account.bookings[user][k] == b;
      assert Grants(account, i, k, gpu, now);
    }
    forall i: nat, k: nat | Grants(account, i, k, gpu, now)
      ensures Entitled(account, gpu, now)
    {
      var user := account.userIds[i];
      var b := account.Of(user)[k];
      assert user in account.userIds && b in account.Of(user) && Covers(b, gpu, now);
    }
  }

  /** The verdict without its search order: who is linked, who is entitled, who else is. */
  lemma VerdictMeans(accounts: Cache<Account>, policies: Cache<Policy>, server: int, p: Process, now: int)
    ensures var linked := Linked(accounts, server, p.username);
            var v := Verdict(accounts, policies, server, p, now);
            var entitled := linked != [] && Entitled(accounts[(server, p.username)], p.gpu, now);
            && (v.None? ==> entitled)
            && (v.Some? ==> v.value.pid == Some(p.pid) && v.value.gpu == p.gpu && v.value.server == server
                            && v.value.username == Some(p.username) && v.value.linked == linked
                            && "memory_used_mb" in v.value.payload && v.value.payload["memory_used_mb"] == p.memoryMb)
            && (v.Some? && v.value.key == UNLINKED <==> linked == [])
            && (v.Some? && v.value.key == MEMORY_OVERUSE ==> entitled)
            && (v.Some? && v.value.key == PREEMPT
                <==> linked != [] && !entitled && OtherHolder(accounts, server, p.username, p.gpu, now))
            && (v.Some? && v.value.key == NO_RESERVATION
                <==> linked != [] && !entitled && !OtherHolder(accounts, server, p.username, p.gpu, now))
  {
    var linked := Linked(accounts, server, p.username);
    if linked != [] {
      HeldByUsers(accounts[(server, p.username)], linked);
    }
  }

  /** User i's booking j is the first, in the order of users and their bookings, that entitles the account to the GPU. */
  ghost predicate FirstEntitling(account: Account, i: nat, j: nat, gpu: int, now: int) {
    && i < |account.userIds| && j < |account.Of(account.userIds[i])| && Covers(account.Of(account.userIds[i])[j], gpu, now)
    && (forall k :: 0 <= k < j ==> !Covers(account.Of(account.userIds[i])[k], gpu, now))
    && forall h, b :: 0 <= h < i && b in account.Of(account.userIds[h]) ==> !Covers(b, gpu, now)
  }

  lemma {:induction false} FirstOfMany(bookings: seq<Booking>, gpu: int, now: int) returns (j: nat)
    requires FirstCovering(bookings, gpu, now).Some?
    ensures j < |bookings| && FirstCovering(bookings, gpu, now) == Some(bookings[j])
    ensures forall k :: 0 <= k < j ==> !Covers(bookings[k], gpu, now)
  {
    if Covers(bookings[0], gpu, now) {
      j := 0;
    } else {
      j := FirstOfMany(bookings[1..], gpu, now);
      j := j + 1;
    }
  }

  lemma {:induction false} FirstUser(account: Account, users: seq<int>, gpu: int, now: int) returns (i: nat)
    requires FirstCovering(Held(account, users), gpu, now).Some?
    ensures i < |users| && FirstCovering(account.Of(users[i]), gpu, now) == FirstCovering(Held(account, users), gpu, now)
    ensures forall h, b :: 0 <= h < i && b in account.Of(users[h]) ==> !Covers(b, gpu, now)
  {
    hide Covers, FirstCovering;
    var init, last := users[..|users| - 1], users[|users| - 1];
    FirstCoveringConcat(Held(account, init), account.Of(last), gpu, now);
    if FirstCovering(Held(account, init), gpu, now).Some? {
      i := FirstUser(account, init, gpu, now);
    } else {
      i := |init|;
      HeldByUsers(account, init);
    }
  }

  /** The first booking that entitles the account is the one its use of memory is judged by. */
  lemma OwnIsFirstEntitling(account: Account, gpu: int, now: int, i: nat, j: nat)
    requires FirstEntitling(account, i, j, gpu, now)
    ensures FirstCovering(Held(account, account.userIds), gpu, now) == Some(account.Of(account.userIds[i])[j])
  {
    hide Covers, FirstCovering, Held;
    FirstAt(account.Of(account.userIds[i]), j, gpu, now);
    FirstInPlace(account, account.userIds, i, account.Of(account.userIds[i])[j], gpu, now);
  }

  /** Overuse of this booking by this process, and the report of it. */
  predicate Overuses(v: Option<Violation>, own: Booking, p: Process, percent: int, server: int, linked: seq<int>) {
    && own.memoryMb.Some? && 100 * p.memoryMb > own.memoryMb.value * 100 + own.memoryMb.value * percent
    && v == Some(Violation(MEMORY_OVERUSE, server, p.gpu, Some(p.username), Some(p.pid), linked,
                           map["memory_used_mb" := p.memoryMb, "memory_quota_mb" := own.memoryMb.value, "reservation_id" := own.id]))
  }

  lemma JudgedByOwn(accounts: Cache<Account>, policies: Cache<Policy>, server: int, p: Process, now: int)
    ensures var linked, v := Linked(accounts, server, p.username), Verdict(accounts, policies, server, p, now);
      var percent := SettingOf(policies, server, MEMORY_OVERUSE, "value", 20);
      v.Some? && v.value.key == MEMORY_OVERUSE
      <==> linked != [] &&
           var own := FirstCovering(Held(accounts[(server, p.username)], linked), p.gpu, now);
           own.Some? && Overuses(v, own.value, p, percent, server, linked)
  {
    hide Covers, FirstCovering, Held, SettingOf, OtherHolder;
  }

  /**
   Overuse is reported exactly when the first booking that entitles the account declares an amount of memory and the
   process uses more than it by more than the tolerated percentage; and the report names that booking and its amount.
   */
  lemma OveruseExactly(accounts: Cache<Account>, policies: Cache<Policy>, server: int, p: Process, now: int)
    ensures var linked, v := Linked(accounts, server, p.username), Verdict(accounts, policies, server, p, now);
      var percent := SettingOf(policies, server, MEMORY_OVERUSE, "value", 20);
      v.Some? && v.value.key == MEMORY_OVERUSE
      <==> linked != [] &&
           var account := accounts[(server, p.username)];
           exists i: nat, j: nat :: FirstEntitling(account, i, j, p.gpu, now)
             && Overuses(v, account.Of(account.userIds[i])[j], p, percent, server, linked)
  {
    JudgedByOwn(accounts, policies, server, p, now);
    var linked := Linked(accounts, server, p.username);
    if linked != [] {
      var account := accounts[(server, p.username)];
      hide Verdict, Overuses, FirstEntitling, FirstCovering, Held, SettingOf;
      if FirstCovering(Held(account, linked), p.gpu, now).Some? {
        var i, j := EntitlingBooking(account, p.gpu, now);
      }
      forall i: nat, j: nat | FirstEntitling(account, i, j, p.gpu, now)
        ensures i < |account.userIds| && j < |account.Of(account.userIds[i])|
        ensures FirstCovering(Held(account, linked), p.gpu, now) == Some(account.Of(account.userIds[i])[j])
      {
        InBounds(account, i, j, p.gpu, now);
        OwnIsFirstEntitling(account, p.gpu, now, i, j);
      }
    }
  }

  lemma InBounds(account: Account, i: nat, j: nat, gpu: int, now: int)
    requires FirstEntitling(account, i, j, gpu, now)
    ensures i < |account.userIds| && j < |account.Of(account.userIds[i])|
  {
  }

  lemma EntitlingBooking(account: Account, gpu: int, now: int) returns (i: nat, j: nat)
    requires FirstCovering(Held(account, account.userIds), gpu, now).Some?
    ensures FirstEntitling(account, i, j, gpu, now)
    ensures i < |account.userIds| && j < |account.Of(account.userIds[i])|
    ensures FirstCovering(Held(account, account.userIds), gpu, now) == Some(account.Of(account.userIds[i])[j])
  {
    i := FirstUser(account, account.userIds, gpu, now);
    j := FirstOfMany(account.Of(account.userIds[i]), gpu, now);
  }

  /** `_evaluate_process`: nested searching loops with flags and breaks. */
  method EvaluateProcess(accounts: Cache<Account>, policies: Cache<Policy>, server: int, p: Process, now: int)
    returns (r: Option<Violation>)
    ensures r == Verdict(accounts, policies, server, p, now)
  {
    hide Entitled, Covers, FirstCovering, Held;
    var linked := Linked(accounts, server, p.username);
    if linked == [] {
      return Some(Violation(UNLINKED, server, p.gpu, Some(p.username), Some(p.pid), [], map["memory_used_mb" := p.memoryMb]));
    }
    var own := OwnReservation(accounts[(server, p.username)], p.gpu, now);
    if own.Some? {
      var quota := own.value.memoryMb;
      if quota.Some? && p.memoryMb * 100 > quota.value * (100 + Tolerance(policies, server)) {
        return Some(Violation(MEMORY_OVERUSE, server, p.gpu, Some(p.username), Some(p.pid), linked,
                              map["memory_used_mb" := p.memoryMb, "memory_quota_mb" := quota.value, "reservation_id" := own.value.id]));
      }
      return None;
    }
    var otherHolder := false;
    ghost var holding := (server, p.username);
    var keys := set key | key in accounts && key.0 == server && key.1 != p.username;
    ghost var all := keys;
    while keys != {} && !otherHolder
      invariant keys <= all
      invariant forall key :: key in all - keys && !otherHolder ==> !Entitled(accounts[key], p.gpu, now)
      invariant otherHolder ==> holding in all && Entitled(accounts[holding], p.gpu, now)
      decreases |keys|
    {
      var key :| key in keys;
      keys := keys - {key};
      otherHolder := HoldsGpu(accounts[key], p.gpu, now);
      holding := key;
    }
    assert otherHolder <==> OtherHolder(accounts, server, p.username, p.gpu, now);
    r := Some(Violation(if otherHolder then PREEMPT else NO_RESERVATION,
                        server, p.gpu, Some(p.username), Some(p.pid), linked, map["memory_used_mb" := p.memoryMb]));
  }

  lemma FirstCoveringConcat(a: seq<Booking>, b: seq<Booking>, gpu: int, now: int)
    ensures FirstCovering(a + b, gpu, now)
            == if FirstCovering(a, gpu, now).Some? then FirstCovering(a, gpu, now) else FirstCovering(b, gpu, now)
  {
    if a == [] {
      assert a + b == b;
    } else {
      assert (a + b)[1..] == a[1..] + b;
      FirstCoveringConcat(a[1..], b, gpu, now);
    }
  }

  method OwnReservation(account: Account, gpu: int, now: int) returns (own: Option<Booking>)
    ensures own == FirstCovering(Held(account, account.userIds), gpu, now)
  {
    hide FirstCovering, Held, Covers;
    var users := account.userIds;
    own := None;
    for i := 0 to |users|
      invariant own == None
      invariant forall k, b :: 0 <= k < i && b in account.Of(users[k]) ==> !Covers(b, gpu, now)
    {
      var bookings := account.Of(users[i]);
      for j := 0 to |bookings|
        invariant own == None
        invariant forall k :: 0 <= k < j ==> !Covers(bookings[k], gpu, now)
      {
        if Covers(bookings[j], gpu, now) {
          own := Some(bookings[j]);
          FirstAt(bookings, j, gpu, now);
          break;
        }
      }
      if own.Some? {
        FirstInPlace(account, users, i, own.value, gpu, now);
        return;
      }
    }
    HeldByUsers(account, users);
  }

  lemma FirstAt(bookings: seq<Booking>, j: nat, gpu: int, now: int)
    requires j < |bookings| && Covers(bookings[j], gpu, now)
    requires forall k :: 0 <= k < j ==> !Covers(bookings[k], gpu, now)
    ensures FirstCovering(bookings, gpu, now) == Some(bookings[j])
  {
    if j > 0 {
      FirstAt(bookings[1..], j - 1, gpu, now);
    }
  }

  lemma FirstInPlace(account: Account, users: seq<int>, i: nat, own: Booking, gpu: int, now: int)
    requires i < |users| && FirstCovering(account.Of(users[i]), gpu, now) == Some(own)
    requires forall k, b :: 0 <= k < i && b in account.Of(users[k]) ==> !Covers(b, gpu, now)
    ensures FirstCovering(Held(account, users), gpu, now) == Some(own)
    decreases |users|
  {
    hide FirstCovering, Covers;
    var init, last := users[..|users| - 1], users[|users| - 1];
    FirstCoveringConcat(Held(account, init), account.Of(last), gpu, now);
    if i == |init| {
      HeldByUsers(account, init);
    } else {
      FirstInPlace(account, init, i, own, gpu, now);
    }
  }

  /** Whether any linked user of another account is entitled to the GPU. */
  method HoldsGpu(account: Account, gpu: int, now: int) returns (found: bool)
    ensures found == Entitled(account, gpu, now)
  {
    found := false;
    var users := account.userIds;
    for i := 0 to |users|
      invariant !found
      invariant forall k, b :: 0 <= k < i && b in account.Of(users[k]) ==> !Covers(b, gpu, now)
    {
      var bookings := account.Of(users[i]);
      for j := 0 to |bookings|
        invariant forall k :: 0 <= k < j ==> !Covers(bookings[k], gpu, now)
      {
        if Covers(bookings[j], gpu, now) {
          assert users[i] in users && bookings[j] in account.Of(users[i]);
          found := true;
          return;
        }
      }
    }
  }

  // ----- GPUs -----

  datatype Gpu = Gpu(index: int, utilPercent: int, memoryMb: int, celsius: int)

  /** Since when a GPU has been seen with zero utilisation, if it was at the last look. */
  function IdleSince(idle: map<(int, int), Option<real>>, server: int, gpu: int): Option<real> {
    if (server, gpu) in idle then idle[(server, gpu)] else None
  }

  function Looked(since: Option<real>, g: Gpu, now: real): Option<real> {
    if g.utilPercent != 0 then None else if since.None? then Some(now) else since
  }

  function GpuFindings(policies: Cache<Policy>, server: int, g: Gpu, since: Option<real>, now: real): seq<Violation> {
    var seconds := SettingOf(policies, server, GPU_HANG, "util_zero_seconds", 600);
    var floor := SettingOf(policies, server, GPU_HANG, "mem_floor_mb", 1024);
    var limit := SettingOf(policies, server, GPU_TEMP, "value", 85);
    (if since.Some? && g.memoryMb >= floor && now - since.value >= seconds as real then
       [Violation(GPU_HANG, server, g.index, None, None, [],
                  map["util_zero_for_s" := (now - since.value).Floor, "memory_used_mb" := g.memoryMb,
                      "mem_floor_mb" := floor, "threshold_value_s" := seconds])]
     else []) +
    (if g.celsius > limit then
       [Violation(GPU_TEMP, server, g.index, None, None, [], map["temperature_c" := g.celsius, "threshold_c" := limit])]
     else [])
  }
}
