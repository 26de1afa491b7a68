/** The authentication limiter: its data, its pure step functions, and the class
    whose methods are proved against them. Times are integers (nanoseconds). */
module AuthLimit {
  import opened Prelude

  datatype Key = Key(surface: string, peer: string, account: string)

  datatype Policy = Policy(
    failuresBeforeLock: int,
    accountFailuresBeforeLock: int,
    window: int,
    lockStart: int,
    lockMax: int,
    failureDelay: int,
    maxKeys: int)

  const SECOND: int := 1_000_000_000

  const DEFAULT_POLICY := Policy(5, 20, 900 * SECOND, 30 * SECOND, 900 * SECOND, SECOND / 4, 10000)

  predicate Normal(p: Policy) {
    && p.failuresBeforeLock > 0
    && p.accountFailuresBeforeLock > 0
    && p.window > 0
    && 0 < p.lockStart <= p.lockMax
    && p.failureDelay >= 0
    && p.maxKeys > 0
  }

  /** Fills every unusable field; a policy that is already usable is untouched. */
  function Normalize(p: Policy): (n: Policy)
    ensures Normal(n)
    ensures Normal(p) ==> n == p
    ensures n.failuresBeforeLock == (if p.failuresBeforeLock > 0 then p.failuresBeforeLock else 5)
    ensures n.accountFailuresBeforeLock == (if p.accountFailuresBeforeLock > 0 then p.accountFailuresBeforeLock else 20)
    ensures n.window == (if p.window > 0 then p.window else 15 * 60 * 1_000_000_000)
    ensures n.lockStart == (if p.lockStart > 0 then p.lockStart else 30 * 1_000_000_000)
    ensures n.lockMax >= p.lockMax && (n.lockMax == p.lockMax || n.lockMax == n.lockStart)
    ensures n.failureDelay == Max(p.failureDelay, 0) && n.maxKeys == (if p.maxKeys > 0 then p.maxKeys else 10_000)
  {
    var d := DEFAULT_POLICY;
    var start := if p.lockStart <= 0 then d.lockStart else p.lockStart;
    Policy(
      if p.failuresBeforeLock <= 0 then d.failuresBeforeLock else p.failuresBeforeLock,
      if p.accountFailuresBeforeLock <= 0 then d.accountFailuresBeforeLock else p.accountFailuresBeforeLock,
      if p.window <= 0 then d.window else p.window,
      start,
      if p.lockMax < start then start else p.lockMax,
      if p.failureDelay < 0 then 0 else p.failureDelay,
      if p.maxKeys <= 0 then d.maxKeys else p.maxKeys)
  }

  function Threshold(p: Policy, k: Key): int {
    if k.peer == "" && k.account != "" then p.accountFailuresBeforeLock else p.failuresBeforeLock
  }

  datatype KeyState = KeyState(
    failures: int,
    pending: int,
    lockedUntil: Option<int>,
    lockLen: int,
    lastFailure: Option<int>,
    lastSeen: int)

  function Fresh(now: int): KeyState { KeyState(0, 0, None, 0, None, now) }

  predicate Locked(s: KeyState, now: int) {
    s.lockedUntil.Some? && now < s.lockedUntil.value
  }

  /** Lock expiry, then streak expiry, then decay of a leaked reservation, then the clamp. */
  function Refresh(p: Policy, k: Key, s: KeyState, now: int): KeyState {
    var t := Threshold(p, k);
    var a := if s.lockedUntil.Some? && now >= s.lockedUntil.value
             then s.(lockedUntil := None, failures := if s.failures >= t then t - 1 else s.failures)
             else s;
    var b := if a.lockedUntil.None? && a.lastFailure.Some? && now - a.lastFailure.value >= p.window
             then a.(failures := 0, lockLen := 0, lastFailure := None)
             else a;
    var c := if b.lockedUntil.None? && b.pending > 0 && now - b.lastSeen >= p.window
             then b.(pending := 0)
             else b;
    if c.pending > t then c.(pending := t) else c
  }

  datatype CheckResult = CheckResult(st: KeyState, allowed: bool, retryAfter: int)

  function CheckState(p: Policy, k: Key, s: KeyState, now: int): CheckResult {
    var r := Refresh(p, k, s, now).(lastSeen := now);
    if Locked(r, now) then CheckResult(r, false, r.lockedUntil.value - now)
    else if r.failures + r.pending >= Threshold(p, k) then CheckResult(r, false, p.failureDelay)
    else CheckResult(r.(pending := r.pending + 1), true, 0)
  }

  datatype FailResult = FailResult(st: KeyState, locked: bool, retryAfter: int, failures: int)

  function NextLockLen(p: Policy, lockLen: int): int {
    if lockLen <= 0 then p.lockStart else Min(2 * lockLen, p.lockMax)
  }

  function FailState(p: Policy, k: Key, s: KeyState, now: int): FailResult {
    var r := Refresh(p, k, s, now);
    var f := r.(lastSeen := now,
                pending := if r.pending > 0 then r.pending - 1 else r.pending,
                failures := r.failures + 1,
                lastFailure := Some(now));
    if f.failures >= Threshold(p, k) then
      var len := NextLockLen(p, f.lockLen);
      FailResult(f.(lockLen := len, lockedUntil := Some(now + len)), true, len, f.failures)
    else
      FailResult(f, false, p.failureDelay, f.failures)
  }

  function SuccessState(s: KeyState, now: int): KeyState {
    KeyState(0, if s.pending > 0 then s.pending - 1 else s.pending, None, 0, None, now)
  }

  function ReleaseState(s: KeyState, now: int): KeyState {
    s.(pending := if s.pending > 0 then s.pending - 1 else s.pending, lastSeen := now)
  }

  // ---- Eviction ----

  predicate Idle(m: map<Key, KeyState>, now: int, k: Key) {
    k in m && m[k].pending <= 0 && !Locked(m[k], now)
  }

  predicate Parked(m: map<Key, KeyState>, now: int, k: Key) {
    k in m && m[k].pending <= 0 && Locked(m[k], now)
  }

  /** The keys eviction may pick: the oldest idle one, a locked one only when nothing is
      idle, and none at all only when every key holds a reservation. */
  ghost predicate EvictChoice(m: map<Key, KeyState>, now: int, v: Option<Key>) {
    match v
    case None => forall k :: !Idle(m, now, k) && !Parked(m, now, k)
    case Some(x) =>
      if Idle(m, now, x) then forall k :: Idle(m, now, k) ==> m[x].lastSeen <= m[k].lastSeen
      else
        && Parked(m, now, x)
        && (forall k :: !Idle(m, now, k))
        && (forall k :: Parked(m, now, k) ==> m[x].lastSeen <= m[k].lastSeen)
  }

  function Drop(m: map<Key, KeyState>, v: Option<Key>): map<Key, KeyState> {
    match v
    case None => m
    case Some(x) => m - {x}
  }

  /** What getting or creating k may turn the map m into. */
  ghost predicate Created(p: Policy, m: map<Key, KeyState>, k: Key, now: int, n: map<Key, KeyState>) {
    if k in m then n == m
    else if |m| < p.maxKeys then n == m[k := Fresh(now)]
    else exists v :: EvictChoice(m, now, v) && n == Drop(m, v)[k := Fresh(now)]
  }

  /** The buckets one attempt consults. */
  function AttemptKeys(surface: string, peer: string, account: string): (ks: seq<Key>)
    ensures |ks| == if account == "" then 1 else 3
    ensures account != "" ==> ks[2].peer == "" && (ks[1] == ks[2] <==> peer == "")
  {
    [Key(surface, peer, "")] +
    if account == "" then [] else [Key(surface, peer, account), Key(surface, "", account)]
  }

  /** A peer is locked out after the failures of a peer, alone or on one account, and an account
      after those of an account; a peer that has no name is still a peer while no account is named. */
  lemma AttemptThresholds(p: Policy, surface: string, peer: string, account: string)
    ensures var ks := AttemptKeys(surface, peer, account);
            && Threshold(p, ks[0]) == p.failuresBeforeLock
            && (account != "" ==> Threshold(p, ks[2]) == p.accountFailuresBeforeLock)
            && (account != "" && peer != "" ==> Threshold(p, ks[1]) == p.failuresBeforeLock)
            && forall k :: k in ks ==> k.surface == surface
  {
    var ks := AttemptKeys(surface, peer, account);
    if account != "" {
      assert ks[1] == Key(surface, peer, account) && ks[2] == Key(surface, "", account);
    }
  }

  class Limiter {
    const policy: Policy
    var keys: map<Key, KeyState>

    constructor (p: Policy)
      ensures policy == Normalize(p) && keys == map[] && LocksEarned()
    {
      policy := Normalize(p);
      keys := map[];
    }

    /** Only keys at their threshold are locked. Every call keeps this. */
    ghost predicate LocksEarned()
      reads this
    {
      forall k :: k in keys && keys[k].lockedUntil.Some? ==> keys[k].failures >= Threshold(policy, k)
    }

    method EvictOne(now: int)
      modifies this
      ensures exists v :: EvictChoice(old(keys), now, v) && keys == Drop(old(keys), v)
      ensures old(LocksEarned()) ==> LocksEarned()
    {
      var idle: Option<Key> := None;
      var parked: Option<Key> := None;
      var todo := keys.Keys;
      while todo != {}
        invariant todo <= keys.Keys
        invariant idle.Some? ==> Idle(keys, now, idle.value)
        invariant parked.Some? ==> Parked(keys, now, parked.value)
        invariant forall k :: k !in todo && Idle(keys, now, k) ==>
                                idle.Some? && keys[idle.value].lastSeen <= keys[k].lastSeen
        invariant forall k :: k !in todo && Parked(keys, now, k) ==>
                                parked.Some? && keys[parked.value].lastSeen <= keys[k].lastSeen
      {
        var k :| k in todo;
        todo := todo - {k};
        if keys[k].pending > 0 {
          continue;
        }
        if Locked(keys[k], now) {
          if parked.None? || keys[k].lastSeen < keys[parked.value].lastSeen {
            parked := Some(k);
          }
          continue;
        }
        if idle.None? || keys[k].lastSeen < keys[idle.value].lastSeen {
          idle := Some(k);
        }
      }
      ghost var v := if idle.Some? then idle else parked;
      assert EvictChoice(keys, now, v);
      if idle.Some? {
        keys := keys - {idle.value};
      } else if parked.Some? {
        keys := keys - {parked.value};
      }
    }

    method GetOrCreate(k: Key, now: int)
      modifies this
      ensures Created(policy, old(keys), k, now, keys) && k in keys
      ensures old(LocksEarned()) ==> LocksEarned()
    {
      if k in keys {
        return;
      }
      if |keys| >= policy.maxKeys {
        EvictOne(now);
      }
      keys := keys[k := Fresh(now)];
    }

    method RefreshLocked(k: Key, now: int)
      requires k in keys
      modifies this
      ensures keys == old(keys)[k := Refresh(policy, k, old(keys)[k], now)]
      ensures old(LocksEarned()) ==> LocksEarned()
    {
      var st := keys[k];
      var threshold := Threshold(policy, k);
      if st.lockedUntil.Some? && now >= st.lockedUntil.value {
        st := st.(lockedUntil := None);
        if st.failures >= threshold {
          st := st.(failures := threshold - 1);
        }
      }
      if st.lockedUntil.None? && st.lastFailure.Some? && now - st.lastFailure.value >= policy.window {
        st := st.(failures := 0, lockLen := 0, lastFailure := None);
      }
      if st.lockedUntil.None? && st.pending > 0 && now - st.lastSeen >= policy.window {
        st := st.(pending := 0);
      }
      if st.pending > threshold {
        st := st.(pending := threshold);
      }
      keys := keys[k := st];
    }

    method Check(k: Key, now: int) returns (allowed: bool, retryAfter: int)
      modifies this
      ensures exists m ::
                && Created(policy, old(keys), k, now, m) && k in m
                && var r := CheckState(policy, k, m[k], now);
                keys == m[k := r.st] && allowed == r.allowed && retryAfter == r.retryAfter
      ensures k in keys && keys[k].lastSeen == now
      ensures allowed ==> retryAfter == 0 && !Locked(keys[k], now) && keys[k].failures + keys[k].pending <= Threshold(policy, k)
      ensures !allowed && Locked(keys[k], now) ==> retryAfter == keys[k].lockedUntil.value - now > 0
      ensures !allowed && !Locked(keys[k], now) ==>
                retryAfter == policy.failureDelay && keys[k].failures + keys[k].pending >= Threshold(policy, k)
      ensures old(LocksEarned()) ==> LocksEarned()
    {
      GetOrCreate(k, now);
      ghost var m := keys;
      RefreshLocked(k, now);
      var st := keys[k].(lastSeen := now);
      keys := keys[k := st];
      if st.lockedUntil.Some? && now < st.lockedUntil.value {
        assert keys == m[k := CheckState(policy, k, m[k], now).st];
        return false, st.lockedUntil.value - now;
      }
      if st.failures + st.pending >= Threshold(policy, k) {
        assert keys == m[k := CheckState(policy, k, m[k], now).st];
        return false, policy.failureDelay;
      }
      keys := keys[k := st.(pending := st.pending + 1)];
      assert keys == m[k := CheckState(policy, k, m[k], now).st];
      return true, 0;
    }

    method Fail(k: Key, now: int) returns (locked: bool, retryAfter: int, failures: int)
      modifies this
      ensures exists m ::
                && Created(policy, old(keys), k, now, m) && k in m
                && var r := FailState(policy, k, m[k], now);
                keys == m[k := r.st] && locked == r.locked && retryAfter == r.retryAfter && failures == r.failures
      ensures k in keys && keys[k].lastSeen == now && keys[k].lastFailure == Some(now) && failures == keys[k].failures
      ensures Normal(policy) && old(LocksEarned()) ==> (locked <==> Locked(keys[k], now)) && (locked <==> failures >= Threshold(policy, k))
      ensures Normal(policy) && locked ==> retryAfter == keys[k].lockedUntil.value - now == keys[k].lockLen
      ensures !locked ==> retryAfter == policy.failureDelay
      ensures old(LocksEarned()) ==> LocksEarned()
    {
      GetOrCreate(k, now);
      ghost var m := keys;
      RefreshLocked(k, now);
      var st := keys[k].(lastSeen := now);
      if st.pending > 0 {
        st := st.(pending := st.pending - 1);
      }
      st := st.(failures := st.failures + 1, lastFailure := Some(now));
      failures := st.failures;
      if st.failures >= Threshold(policy, k) {
        if st.lockLen <= 0 {
          st := st.(lockLen := policy.lockStart);
        } else {
          st := st.(lockLen := 2 * st.lockLen);
          if st.lockLen > policy.lockMax {
            st := st.(lockLen := policy.lockMax);
          }
        }
        st := st.(lockedUntil := Some(now + st.lockLen));
        locked, retryAfter := true, st.lockLen;
      } else {
        locked, retryAfter := false, policy.failureDelay;
      }
      keys := keys[k := st];
      assert keys == m[k := FailState(policy, k, m[k], now).st];
    }

    method Success(k: Key, now: int)
      modifies this
      ensures keys == if k in old(keys) then old(keys)[k := SuccessState(old(keys)[k], now)] else old(keys)
      ensures k in keys ==> !Locked(keys[k], now) && keys[k].failures == 0 && keys[k].lockLen == 0
      ensures old(LocksEarned()) ==> LocksEarned()
    {
      if k !in keys {
        return;
      }
      var st := keys[k].(lastSeen := now);
      if st.pending > 0 {
        st := st.(pending := st.pending - 1);
      }
      st := st.(failures := 0, lockLen := 0, lockedUntil := None, lastFailure := None);
      keys := keys[k := st];
    }

    method Release(k: Key, now: int)
      modifies this
      ensures keys == if k in old(keys) then old(keys)[k := ReleaseState(old(keys)[k], now)] else old(keys)
      ensures old(LocksEarned()) ==> LocksEarned()
    {
      if k in keys {
        var st := keys[k];
        if st.pending > 0 {
          st := st.(pending := st.pending - 1);
        }
        keys := keys[k := st.(lastSeen := now)];
      }
    }

    /** How much longer the key is locked; a key that is not there is not made. */
    method RemainingLock(k: Key, now: int) returns (ra: int)
      modifies this
      ensures keys == if k in old(keys) then old(keys)[k := Refresh(policy, k, old(keys)[k], now)] else old(keys)
      ensures ra == if k in keys && Locked(keys[k], now) then keys[k].lockedUntil.value - now else 0
      ensures old(LocksEarned()) ==> LocksEarned()
    {
      ra := 0;
      if k !in keys {
        return;
      }
      RefreshLocked(k, now);
      if Locked(keys[k], now) {
        ra := keys[k].lockedUntil.value - now;
      }
    }

    /** The read-only poll: refreshes the caller's own buckets, creates nothing, and reports
        the longest remaining lock among them. */
    method SelfState(surface: string, peer: string, account: string, now: int)
      returns (locked: bool, retryAfter: int)
      modifies this
      ensures keys.Keys == old(keys).Keys
      ensures forall k :: k in keys ==>
                            keys[k] == (if k in OwnKeys(surface, peer, account)
                                        then Refresh(policy, k, old(keys)[k], now) else old(keys)[k])
      ensures locked <==> exists k :: k in OwnKeys(surface, peer, account) && k in keys && Locked(keys[k], now)
      ensures retryAfter >= 0 && (retryAfter > 0 <==> locked)
      ensures forall k :: k in OwnKeys(surface, peer, account) && k in keys && Locked(keys[k], now) ==>
                            keys[k].lockedUntil.value - now <= retryAfter
      ensures old(LocksEarned()) ==> LocksEarned()
      ensures locked ==> exists k :: k in OwnKeys(surface, peer, account) && k in keys && Locked(keys[k], now)
                                     && keys[k].lockedUntil.value - now == retryAfter
    {
      var own := OwnKeys(surface, peer, account);
      hide Refresh;
      hide LocksEarned;
      locked, retryAfter := false, 0;
      var i := 0;
      while i < |own|
        invariant 0 <= i <= |own|
        invariant keys.Keys == old(keys).Keys && (old(LocksEarned()) ==> LocksEarned())
        invariant forall k :: k in keys ==>
                                keys[k] == (if k in own[..i] then Refresh(policy, k, old(keys)[k], now) else old(keys)[k])
        invariant locked <==> exists k :: k in own[..i] && k in keys && Locked(keys[k], now)
        invariant retryAfter >= 0 && (retryAfter > 0 <==> locked)
        invariant forall k :: k in own[..i] && k in keys && Locked(keys[k], now) ==>
                                keys[k].lockedUntil.value - now <= retryAfter
        invariant locked ==> exists k :: k in own[..i] && k in keys && Locked(keys[k], now)
                                         && keys[k].lockedUntil.value - now == retryAfter
      {
        var k := own[i];
        assert own[..i + 1] == own[..i] + [k];
        assert k !in own[..i];
        i := i + 1;
        var ra := RemainingLock(k, now);
        if ra > retryAfter {
          retryAfter, locked := ra, true;
        }
      }
      assert own[..i] == own;
    }
  }

  function OwnKeys(surface: string, peer: string, account: string): (ks: seq<Key>)
    ensures forall i, j :: 0 <= i < j < |ks| ==> ks[i] != ks[j]
  {
    [Key(surface, peer, "")] + if account == "" then [] else [Key(surface, peer, account)]
  }

  /** They are the peer's keys without an account and with this one, and never another peer's or the
      account's own. */
  lemma OwnKeysAre(surface: string, peer: string, account: string)
    ensures forall k :: k in OwnKeys(surface, peer, account) <==>
                        k.surface == surface && k.peer == peer && (k.account == "" || k.account == account)
  {
    assert Key(surface, peer, "") in OwnKeys(surface, peer, account);
    assert account != "" ==> Key(surface, peer, account) in OwnKeys(surface, peer, account);
  }

  // ---- What a refresh and the making of room promise ----

  /** No key is left with more reservations than its threshold, nor, unlocked, with any that is
      Window old; a younger one is not touched. */
  lemma RefreshSettles(p: Policy, k: Key, s: KeyState, now: int)
    requires Normal(p)
    ensures var r, t := Refresh(p, k, s, now), Threshold(p, k);
            && r.pending <= t
            && (r.lockedUntil.None? && now - s.lastSeen >= p.window ==> r.pending <= 0)
            && (s.pending <= t && now - s.lastSeen < p.window ==> r.pending == s.pending)
  {
  }

  /** So reservations that are never given back do not bar a key for good. */
  lemma LeakedReservationsDecay(p: Policy, k: Key, s: KeyState, now: int)
    requires Normal(p) && s.lockedUntil.None? && s.failures < Threshold(p, k) && now - s.lastSeen >= p.window
    ensures CheckState(p, k, s, now).allowed && CheckState(p, k, s, now).st.pending <= 1
  {
  }

  /** The key given up was seen no later than any other idle one. */
  lemma OldestIdleGoes(p: Policy, m: map<Key, KeyState>, k: Key, now: int, n: map<Key, KeyState>, x: Key)
    requires Created(p, m, k, now, n) && x in m && x !in n
    ensures |m| >= p.maxKeys && m[x].pending <= 0
    ensures forall y :: y in m && m[y].pending <= 0 && !Locked(m[y], now) ==> !Locked(m[x], now) && m[x].lastSeen <= m[y].lastSeen
    ensures forall y :: y in m && m[y].pending <= 0 && (Locked(m[x], now) <==> Locked(m[y], now)) ==> m[x].lastSeen <= m[y].lastSeen
  {
    var v :| EvictChoice(m, now, v) && n == Drop(m, v)[k := Fresh(now)];
    assert v == Some(x);
    forall y | y in m && m[y].pending <= 0 ensures Idle(m, now, y) || Parked(m, now, y) {
    }
  }

  // ---- Polling is invisible ----

  /** Refreshing early and again later is refreshing once, later. */
  lemma RefreshAbsorbs(p: Policy, k: Key, s: KeyState, t1: int, t2: int)
    requires Normal(p) && t1 <= t2
    ensures Refresh(p, k, Refresh(p, k, s, t1), t2) == Refresh(p, k, s, t2)
  {
  }

  function Polled(p: Policy, k: Key, s: KeyState, times: seq<int>): KeyState
    decreases |times|
  {
    if times == [] then s else Polled(p, k, Refresh(p, k, s, times[0]), times[1..])
  }

  /** However often a key is polled beforehand, the next Check and the next Fail do exactly
      what they would have done without the polls. */
  lemma {:induction false} PollsInvisible(p: Policy, k: Key, s: KeyState, times: seq<int>, now: int)
    requires Normal(p)
    requires forall i :: 0 <= i < |times| ==> times[i] <= now
    ensures CheckState(p, k, Polled(p, k, s, times), now) == CheckState(p, k, s, now)
    ensures FailState(p, k, Polled(p, k, s, times), now) == FailState(p, k, s, now)
    decreases |times|
  {
    if times != [] {
      var r := Refresh(p, k, s, times[0]);
      assert forall i :: 0 <= i < |times[1..]| ==> times[1..][i] == times[i + 1];
      PollsInvisible(p, k, r, times[1..], now);
      RefreshAbsorbs(p, k, s, times[0], now);
      hide Refresh;
    }
  }
}
