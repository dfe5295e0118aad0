/** The per-address login lockout (internal/web/limiter.go). Times are whole nanoseconds on one
    monotonic clock, counted from the zero time, so that 0 is the unset `blockedUntil`. A call that
    reads the clock more than once takes its readings in order. */
module Limiter {
  import opened Common

  const SECOND := 1_000_000_000
  const THRESHOLD := 5
  const IDLE := 900 * SECOND
  const CROWD := 50000

  datatype IpState = IpState(fails: nat, blockedUntil: nat, last: nat)

  type Attempts = map<string, IpState>

  /** 2 to the power n. */
  function Shift(n: nat): nat { if n == 0 then 1 else 2 * Shift(n - 1) }

  /** The lock that the n-th failure sets: 1, 2, 4, ... up to 64 seconds. */
  function Lock(fails: nat): (r: nat)
    ensures fails >= THRESHOLD ==> SECOND <= r <= 64 * SECOND
  {
    if fails < THRESHOLD then 0
    else
      var shift := if fails - THRESHOLD > 6 then 6 else fails - THRESHOLD;
      ShiftBounds(shift);
      Shift(shift) * SECOND
  }

  lemma ShiftBounds(n: nat)
    requires n <= 6
    ensures 1 <= Shift(n) <= 64
    ensures Shift(6) == 64
  {
    assert Shift(1) == 2 && Shift(2) == 4 && Shift(3) == 8 && Shift(4) == 16 && Shift(5) == 32 && Shift(6) == 64;
  }

  /** How long an address is locked after so many failures. */
  predicate LocksFor(fails: nat, r: nat) {
    && (fails < 5 ==> r == 0) && (fails == 5 ==> r == SECOND) && (fails == 6 ==> r == 2 * SECOND)
    && (fails == 7 ==> r == 4 * SECOND) && (fails == 8 ==> r == 8 * SECOND) && (fails == 9 ==> r == 16 * SECOND)
    && (fails == 10 ==> r == 32 * SECOND) && (fails >= 11 ==> r == 64 * SECOND)
  }

  lemma LockMeans(fails: nat)
    ensures LocksFor(fails, Lock(fails))
  {
    assert Shift(1) == 2 && Shift(2) == 4 && Shift(3) == 8 && Shift(4) == 16 && Shift(5) == 32 && Shift(6) == 64;
  }

  // ---- One call on the table ----

  predicate Idle(st: IpState, now: nat) { now - st.last > IDLE }

  function AfterAllow(m: Attempts, ip: string, now: nat): Attempts {
    if ip in m && Idle(m[ip], now) then m - {ip} else m
  }

  predicate Allowed(m: Attempts, ip: string, now: nat) {
    ip !in m || Idle(m[ip], now) || now >= m[ip].blockedUntil
  }

  function Failed(st: Option<IpState>, t1: nat, t2: nat): IpState {
    var s := if st.Some? then st.value else IpState(0, 0, 0);
    var fails := s.fails + 1;
    IpState(fails, if fails >= THRESHOLD then t2 + Lock(fails) else s.blockedUntil, t1)
  }

  function Entry(m: Attempts, ip: string): Option<IpState> {
    if ip in m then Some(m[ip]) else None
  }

  /** Every entry whose last failure is more than the idle time before `now` goes. */
  function Purged(m: Attempts, now: nat): Attempts {
    map k | k in m && !(m[k].last < now - IDLE) :: m[k]
  }

  function AfterFail(m: Attempts, ip: string, t1: nat, t2: nat, t3: nat): Attempts {
    var n := m[ip := Failed(Entry(m, ip), t1, t2)];
    if |n| > CROWD then Purged(n, t3) else n
  }

  /** `r` is a whole number of seconds, none is nearer to `d`, and of two as near it is farther from zero. */
  predicate NearestSecond(d: int, r: int) {
    && r % SECOND == 0 && -SECOND <= 2 * (r - d) <= SECOND
    && (2 * (r - d) == SECOND ==> d >= 0) && (2 * (r - d) == -SECOND ==> d < 0)
  }

  /** A duration to the nearest second, halves away from zero. */
  function Rounded(d: int): (r: int)
    ensures NearestSecond(d, r)
  {
    if d >= 0 then (d + SECOND / 2) / SECOND * SECOND else -((-d + SECOND / 2) / SECOND * SECOND)
  }

  /** One more failure, at `t1`; from the fifth on the address is locked from `t2` on. */
  ghost predicate FailedOnce(before: Option<IpState>, after: IpState, t1: nat, t2: nat) {
    && after.fails == (if before.Some? then before.value.fails else 0) + 1
    && after.last == t1
    && (if after.fails < 5 then after.blockedUntil == if before.Some? then before.value.blockedUntil else 0
        else after.blockedUntil >= t2 && LocksFor(after.fails, after.blockedUntil - t2))
  }

  lemma FailedMeans(before: Option<IpState>, t1: nat, t2: nat)
    ensures FailedOnce(before, Failed(before, t1, t2), t1, t2)
  {
    LockMeans(Failed(before, t1, t2).fails);
  }

  /** The table with one more failure of `ip`: it holds every address it held and `ip`, except that a table grown
      too large loses the idle ones; only the entry of `ip` changes. */
  ghost predicate TableAfter(m: Attempts, n: Attempts, ip: string, t1: nat, t2: nat, t3: nat) {
    && n.Keys <= m.Keys + {ip}
    && (forall k | k in m.Keys + {ip} :: k in n <==>
          (|m.Keys + {ip}| > 50000 ==> (if k == ip then t1 else m[k].last) >= t3 - 900 * SECOND))
    && (forall k | k in n && k != ip :: n[k] == m[k])
    && (ip in n ==> FailedOnce(Entry(m, ip), n[ip], t1, t2))
  }

  lemma AfterFailMeans(m: Attempts, ip: string, t1: nat, t2: nat, t3: nat)
    ensures TableAfter(m, AfterFail(m, ip, t1, t2, t3), ip, t1, t2, t3)
  {
    var n := m[ip := Failed(Entry(m, ip), t1, t2)];
    assert n.Keys == m.Keys + {ip} && |n| == |n.Keys|;
    FailedMeans(Entry(m, ip), t1, t2);
  }

  class LoginLimiter {
    var attempts: Attempts

    constructor ()
      ensures attempts == map[]
    {
      attempts := map[];
    }

    method Allow(ip: string, now: nat, later: nat) returns (ok: bool, wait: int)
      requires now <= later
      modifies this
      ensures ok <==>
        (ip in old(attempts) ==> now - old(attempts)[ip].last > 900 * SECOND || now >= old(attempts)[ip].blockedUntil)
      ensures attempts == if ip in old(attempts) && now - old(attempts)[ip].last > 900 * SECOND then old(attempts) - {ip} else old(attempts)
      ensures if ok then wait == 0 else NearestSecond(old(attempts)[ip].blockedUntil - later, wait)
      ensures attempts == AfterAllow(old(attempts), ip, now)
      ensures ok <==> Allowed(old(attempts), ip, now)
      ensures wait == if ok then 0 else Rounded(old(attempts)[ip].blockedUntil - later)
    {
      if ip !in attempts {
        return true, 0;
      }
      if now - attempts[ip].last > IDLE {
        attempts := attempts - {ip};
        return true, 0;
      }
      if now < attempts[ip].blockedUntil {
        return false, Rounded(attempts[ip].blockedUntil - later);
      }
      return true, 0;
    }

    method Fail(ip: string, t1: nat, t2: nat, t3: nat)
      requires t1 <= t2 <= t3
      modifies this
      ensures TableAfter(old(attempts), attempts, ip, t1, t2, t3)
      ensures attempts == AfterFail(old(attempts), ip, t1, t2, t3)
    {
      if ip !in attempts {
        attempts := attempts[ip := IpState(0, 0, 0)];
      }
      attempts := attempts[ip := attempts[ip].(fails := attempts[ip].fails + 1)];
      attempts := attempts[ip := attempts[ip].(last := t1)];
      if attempts[ip].fails >= THRESHOLD {
        attempts := attempts[ip := attempts[ip].(blockedUntil := t2 + Lock(attempts[ip].fails))];
      }
      assert attempts == old(attempts)[ip := Failed(Entry(old(attempts), ip), t1, t2)];
      AfterFailMeans(old(attempts), ip, t1, t2, t3);
      if |attempts| > CROWD {
        attempts := Purge(attempts, t3);
      }
    }

    method Success(ip: string)
      modifies this
      ensures attempts == old(attempts) - {ip}
    {
      attempts := attempts - {ip};
    }
  }

  /** The purge visits the entries in any order. */
  method Purge(m: Attempts, now: nat) returns (left: Attempts)
    ensures left == Purged(m, now)
  {
    left := m;
    var toVisit := m.Keys;
    while toVisit != {}
      invariant toVisit <= m.Keys
      invariant left.Keys <= m.Keys
      invariant forall k | k in m :: k in left <==> k in toVisit || !(m[k].last < now - IDLE)
      invariant forall k | k in left :: left[k] == m[k]
      decreases |toVisit|
    {
      var k := Pick(toVisit);
      if left[k].last < now - IDLE {
        left := left - {k};
      }
      toVisit := toVisit - {k};
    }
  }
}
