/** What the login lockout does over whole runs of calls from any number of addresses
    (internal/web/limiter.go). The limiter's mutex makes each call one step. */
module LimiterRuns {
  import opened Common
  import opened Limiter

  datatype Call =
    | AllowCall(ip: string, now: nat)
    | FailCall(ip: string, t1: nat, t2: nat, t3: nat)
    | SuccessCall(ip: string, now: nat)

  function Begin(c: Call): nat {
    if c.FailCall? then c.t1 else c.now
  }

  function End(c: Call): nat {
    if c.FailCall? then c.t3 else c.now
  }

  function Step(m: Attempts, c: Call): Attempts {
    match c
    case AllowCall(ip, now) => AfterAllow(m, ip, now)
    case FailCall(ip, t1, t2, t3) => AfterFail(m, ip, t1, t2, t3)
    case SuccessCall(ip, _) => m - {ip}
  }

  /** The table after a run from the start of the panel. */
  function After(run: seq<Call>): Attempts {
    if run == [] then map[] else Step(After(run[..|run| - 1]), Last(run))
  }

  function Clock(run: seq<Call>): nat {
    if run == [] then 0 else End(Last(run))
  }

  predicate InOrder(c: Call, clock: nat) {
    clock <= Begin(c) && (c.FailCall? ==> c.t1 <= c.t2 <= c.t3)
  }

  predicate Ordered(run: seq<Call>) {
    run == [] || (Ordered(run[..|run| - 1]) && InOrder(Last(run), Clock(run[..|run| - 1])))
  }

  /** The times of one address's failures, in order. */
  function Failures(run: seq<Call>, ip: string): seq<nat> {
    if run == [] then []
    else
      var c := Last(run);
      Failures(run[..|run| - 1], ip) + if c.FailCall? && c.ip == ip then [c.t1] else []
  }

  /** The time at which the address was let through, when that was its latest call. */
  function Open(run: seq<Call>, ip: string): Option<nat> {
    if run == [] then None
    else
      var c := Last(run);
      if c.ip != ip then Open(run[..|run| - 1], ip)
      else if c.AllowCall? && Allowed(After(run[..|run| - 1]), ip, c.now) then Some(c.now)
      else None
  }

  /** The address never succeeds, is always let through before it fails again, and fails again within
      the idle time. */
  predicate Persists(run: seq<Call>, ip: string) {
    run == [] ||
    var before := run[..|run| - 1];
    var c := Last(run);
    Persists(before, ip) && (c.ip == ip ==>
      && !c.SuccessCall?
      && (c.FailCall? ==>
        && Open(before, ip).Some?
        && var f := Failures(before, ip); f == [] || c.t1 <= Last(f) + IDLE))
  }

  // ---- The backoff ----

  /** What the table knows about an address that failed at the times `f` and is let through at `open`. */
  ghost predicate Tracks(m: Attempts, ip: string, f: seq<nat>, open: Option<nat>, clock: nat) {
    if f == [] then ip !in m && (open.Some? ==> open.value <= clock)
    else Last(f) <= clock && (clock > Last(f) + IDLE || Current(m, ip, f, open, clock))
  }

  ghost predicate Current(m: Attempts, ip: string, f: seq<nat>, open: Option<nat>, clock: nat)
    requires f != []
  {
    && ip in m && m[ip].fails == |f| && m[ip].last == Last(f)
    && (|f| >= THRESHOLD ==> m[ip].blockedUntil >= Last(f) + Lock(|f|))
    && (open.Some? ==> m[ip].blockedUntil <= open.value <= clock)
  }

  lemma TracksOther(m: Attempts, ip: string, f: seq<nat>, open: Option<nat>, clock: nat, c: Call)
    requires Tracks(m, ip, f, open, clock) && InOrder(c, clock) && c.ip != ip
    ensures Tracks(Step(m, c), ip, f, open, End(c))
  {
  }

  lemma TracksAllow(m: Attempts, ip: string, f: seq<nat>, open: Option<nat>, clock: nat, now: nat)
    requires Tracks(m, ip, f, open, clock) && clock <= now
    ensures Tracks(AfterAllow(m, ip, now), ip, f, if Allowed(m, ip, now) then Some(now) else None, now)
  {
  }

  lemma TracksFail(m: Attempts, ip: string, f: seq<nat>, open: Option<nat>, clock: nat, t1: nat, t2: nat, t3: nat)
    requires Tracks(m, ip, f, open, clock) && clock <= t1 <= t2 <= t3 && open.Some?
    requires f == [] || t1 <= Last(f) + IDLE
    ensures Tracks(AfterFail(m, ip, t1, t2, t3), ip, f + [t1], None, t3)
    ensures |f| >= THRESHOLD ==> t1 >= Last(f) + Lock(|f|)
  {
    var n := m[ip := Failed(Entry(m, ip), t1, t2)];
    assert Current(n, ip, f + [t1], None, t3);
  }

  lemma {:induction false} Tracked(run: seq<Call>, ip: string)
    requires Ordered(run) && Persists(run, ip)
    ensures Tracks(After(run), ip, Failures(run, ip), Open(run, ip), Clock(run))
  {
    if run != [] {
      var before := run[..|run| - 1];
      var m, f, open, clock := After(before), Failures(before, ip), Open(before, ip), Clock(before);
      Tracked(before, ip);
      var c := Last(run);
      if c.ip != ip {
        TracksOther(m, ip, f, open, clock, c);
      } else if c.AllowCall? {
        TracksAllow(m, ip, f, open, clock, c.now);
      } else {
        TracksFail(m, ip, f, open, clock, c.t1, c.t2, c.t3);
      }
    }
  }

  /** From the fifth failure on, the next one waits for the lock. */
  ghost predicate LocksApart(f: seq<nat>) {
    forall k | THRESHOLD <= k < |f| :: f[k] >= f[k - 1] + Lock(k)
  }

  lemma {:induction false} FailuresApart(run: seq<Call>, ip: string)
    requires Ordered(run) && Persists(run, ip)
    ensures LocksApart(Failures(run, ip))
  {
    if run != [] {
      var before := run[..|run| - 1];
      FailuresApart(before, ip);
      var c := Last(run);
      if c.FailCall? && c.ip == ip {
        Tracked(before, ip);
        TracksFail(After(before), ip, Failures(before, ip), Open(before, ip), Clock(before), c.t1, c.t2, c.t3);
      }
    }
  }

  /** The least time from the fifth failure to the k-th: the locks set in between. */
  function Wait(k: nat): nat {
    if k <= THRESHOLD then 0 else Wait(k - 1) + Lock(k - 1)
  }

  lemma {:induction false} WaitValue(k: nat)
    requires k >= 11
    ensures Wait(k) == (63 + 64 * (k - 11)) * SECOND
  {
    ShiftBounds(6);
    if k == 11 {
      assert Shift(1) == 2 && Shift(2) == 4 && Shift(3) == 8 && Shift(4) == 16 && Shift(5) == 32;
      assert Wait(6) == SECOND && Wait(7) == 3 * SECOND && Wait(8) == 7 * SECOND;
      assert Wait(9) == 15 * SECOND && Wait(10) == 31 * SECOND;
    } else {
      WaitValue(k - 1);
    }
  }

  lemma {:induction false} Spread(f: seq<nat>, k: nat)
    requires LocksApart(f)
    requires THRESHOLD <= k <= |f|
    ensures f[k - 1] >= f[THRESHOLD - 1] + Wait(k)
  {
    if k > THRESHOLD {
      Spread(f, k - 1);
    }
  }

  /** An address that keeps failing is slowed to one attempt about every minute, whatever the other
      addresses do. */
  lemma Backoff(run: seq<Call>, ip: string, k: nat)
    requires Ordered(run) && Persists(run, ip)
    requires 11 <= k <= |Failures(run, ip)|
    ensures var f := Failures(run, ip); f[k - 1] - f[4] >= (63 + 64 * (k - 11)) * SECOND
  {
    FailuresApart(run, ip);
    Spread(Failures(run, ip), k);
    WaitValue(k);
  }

  /** The bound is met: the address that comes back the moment each lock ends. */
  function Eager(ip: string, k: nat): seq<Call> {
    if k == 0 then []
    else
      var t := 1 + Wait(k);
      Eager(ip, k - 1) + [AllowCall(ip, t)] + [FailCall(ip, t, t, t)]
  }

  function EagerTimes(k: nat): (f: seq<nat>)
    ensures |f| == k && forall j | 0 <= j < k :: f[j] == 1 + Wait(j + 1)
  {
    if k == 0 then [] else EagerTimes(k - 1) + [1 + Wait(k)]
  }

  function EagerTable(ip: string, k: nat): Attempts {
    if k == 0 then map[]
    else map[ip := IpState(k, if k < THRESHOLD then 0 else 1 + Wait(k) + Lock(k), 1 + Wait(k))]
  }

  /** One more call on a run: what the run's functions and conditions become. */
  lemma OneMore(run: seq<Call>, c: Call, ip: string)
    requires Ordered(run) && Persists(run, ip) && InOrder(c, Clock(run))
    requires c.ip == ip && !c.SuccessCall?
    requires c.FailCall? ==> Open(run, ip).Some? && (Failures(run, ip) == [] || c.t1 <= Last(Failures(run, ip)) + IDLE)
    ensures Ordered(run + [c]) && Persists(run + [c], ip) && Clock(run + [c]) == End(c)
    ensures Failures(run + [c], ip) == Failures(run, ip) + if c.FailCall? then [c.t1] else []
    ensures After(run + [c]) == Step(After(run), c)
    ensures c.AllowCall? && Allowed(After(run), ip, c.now) ==> Open(run + [c], ip) == Some(c.now)
  {
    assert (run + [c])[..|run|] == run;
  }

  lemma EagerStep(ip: string, k: nat)
    requires k > 0
    ensures var m, t := EagerTable(ip, k - 1), 1 + Wait(k);
            && Wait(k - 1) <= Wait(k) <= Wait(k - 1) + IDLE
            && Allowed(m, ip, t) && AfterAllow(m, ip, t) == m
            && AfterFail(m, ip, t, t, t) == EagerTable(ip, k)
  {
    var m, t := EagerTable(ip, k - 1), 1 + Wait(k);
    assert AfterAllow(m, ip, t) == m;
    var n := m[ip := Failed(Entry(m, ip), t, t)];
    assert n.Keys == {ip};
    assert |n| == 1;
  }

  /** A run whose only address fails k times, each time as soon as its lock is over. */
  ghost predicate IsEager(run: seq<Call>, ip: string, k: nat) {
    Stands(run, ip, EagerTimes(k), EagerTable(ip, k), if k == 0 then 0 else 1 + Wait(k))
  }

  /** What is known of a run in which the address persists. */
  ghost predicate Stands(run: seq<Call>, ip: string, f: seq<nat>, m: Attempts, clock: nat) {
    Ordered(run) && Persists(run, ip) && Failures(run, ip) == f && After(run) == m && Clock(run) == clock
  }

  lemma LetThrough(run: seq<Call>, ip: string, f: seq<nat>, m: Attempts, clock: nat, t: nat)
    requires Stands(run, ip, f, m, clock) && clock <= t && Allowed(m, ip, t)
    ensures Stands(run + [AllowCall(ip, t)], ip, f, AfterAllow(m, ip, t), t)
    ensures Open(run + [AllowCall(ip, t)], ip).Some?
  {
    OneMore(run, AllowCall(ip, t), ip);
  }

  lemma FailsAgain(run: seq<Call>, ip: string, f: seq<nat>, m: Attempts, clock: nat, t: nat)
    requires Stands(run, ip, f, m, clock) && clock <= t && Open(run, ip).Some? && (f == [] || t <= Last(f) + IDLE)
    ensures Stands(run + [FailCall(ip, t, t, t)], ip, f + [t], AfterFail(m, ip, t, t, t), t)
  {
    OneMore(run, FailCall(ip, t, t, t), ip);
  }

  lemma EagerNext(run: seq<Call>, ip: string, k: nat)
    requires k > 0 && IsEager(run, ip, k - 1)
    ensures var t := 1 + Wait(k); IsEager(run + [AllowCall(ip, t)] + [FailCall(ip, t, t, t)], ip, k)
  {
    var f, m, clock, t := EagerTimes(k - 1), EagerTable(ip, k - 1), if k == 1 then 0 else 1 + Wait(k - 1), 1 + Wait(k);
    EagerStep(ip, k);
    LetThrough(run, ip, f, m, clock, t);
    FailsAgain(run + [AllowCall(ip, t)], ip, f, m, t, t);
  }

  lemma {:induction false} EagerRuns(ip: string, k: nat)
    ensures IsEager(Eager(ip, k), ip, k)
  {
    if k > 0 {
      EagerRuns(ip, k - 1);
      EagerNext(Eager(ip, k - 1), ip, k);
    }
  }

  lemma BackoffIsMet(ip: string, k: nat)
    requires k >= 11
    ensures var run := Eager(ip, k);
            && Ordered(run) && Persists(run, ip)
            && var f := Failures(run, ip); |f| == k && f[k - 1] == f[4] + (63 + 64 * (k - 11)) * SECOND
  {
    EagerRuns(ip, k);
    WaitValue(k);
  }

  // ---- No lock is dropped while it runs ----

  /** The second clock reading of a failure comes at most 13 minutes 56 seconds after the first. */
  predicate Prompt(c: Call) {
    c.FailCall? ==> c.t2 - c.t1 + 64 * SECOND <= IDLE
  }

  ghost predicate LocksExpireFirst(m: Attempts) {
    forall ip | ip in m ::
      && m[ip].blockedUntil <= m[ip].last + IDLE
      && (m[ip].fails < THRESHOLD ==> m[ip].blockedUntil == 0)
  }

  lemma {:induction false} LocksExpire(run: seq<Call>)
    requires Ordered(run) && forall c | c in run :: Prompt(c)
    ensures LocksExpireFirst(After(run))
  {
    if run != [] {
      var before := run[..|run| - 1];
      LocksExpire(before);
      assert Prompt(Last(run));
    }
  }

  /** The entry a call may drop: the one in the table, or the one the failing address has just got. */
  function Held(m: Attempts, c: Call, ip: string): Option<IpState> {
    if c.FailCall? && c.ip == ip then Some(Failed(Entry(m, ip), c.t1, c.t2)) else Entry(m, ip)
  }

  lemma DroppedLate(m: Attempts, c: Call, ip: string)
    requires LocksExpireFirst(m) && InOrder(c, 0) && c != SuccessCall(ip, End(c)) && Prompt(c)
    requires Held(m, c, ip).Some? && ip !in Step(m, c)
    requires ip in m ==> m[ip].last <= Begin(c)
    ensures Held(m, c, ip).value.blockedUntil <= End(c)
  {
    if c.FailCall? && c.ip == ip {
      var n := m[ip := Failed(Entry(m, ip), c.t1, c.t2)];
      assert n[ip].last == c.t1 < c.t3 - IDLE;
    }
  }

  lemma {:induction false} LastSeen(run: seq<Call>, ip: string)
    requires Ordered(run) && ip in After(run)
    ensures After(run)[ip].last <= Clock(run)
  {
    var before := run[..|run| - 1];
    if ip in After(before) { LastSeen(before, ip); }
  }

  /** The idle reset and the purge drop an entry only at a time when its lock is over. */
  lemma RunningLockKept(run: seq<Call>, c: Call, ip: string)
    requires Ordered(run + [c]) && forall d | d in run :: Prompt(d)
    requires Prompt(c) && c != SuccessCall(ip, End(c))
    requires Held(After(run), c, ip).Some? && ip !in After(run + [c])
    ensures Held(After(run), c, ip).value.blockedUntil <= End(c)
  {
    assert (run + [c])[..|run|] == run;
    LocksExpire(run);
    if ip in After(run) { LastSeen(run, ip); }
    DroppedLate(After(run), c, ip);
  }

  /** Without that promptness a lock can be dropped: exactly when the two clock readings of the failure
      that set it lie further apart than the idle time less the lock. */
  lemma LockDroppedExactlyWhen(s: Option<IpState>, t1: nat, t2: nat)
    requires t1 <= t2
    requires Failed(s, t1, t2).fails >= THRESHOLD
    ensures (exists now: nat :: now >= t2 && Idle(Failed(s, t1, t2), now) && now < Failed(s, t1, t2).blockedUntil)
      <==> t2 - t1 > IDLE + 1 - Lock(Failed(s, t1, t2).fails)
  {
    var st := Failed(s, t1, t2);
    if t2 - t1 > IDLE + 1 - Lock(st.fails) {
      var now: nat := if t2 > t1 + IDLE then t2 else t1 + IDLE + 1;
      assert Idle(st, now) && now >= t2 && now < st.blockedUntil;
    }
  }
}
