/** Interleaved attempts against one limiter. Every call of the limiter is one step (it runs
    under the mutex); an attempt is a sequence of such steps, and the steps of any number of
    attempts interleave with one another, with polls and with the passing of time. */
module AuthRuns {
  import opened Prelude
  import opened AuthLimit
  import opened AuthLadder

  datatype Outcome = Failed | Succeeded | Released

  datatype Phase = Checking | Verifying | Denied | Resolving(outcome: Outcome)

  /** One attempt: the reservations it holds, the keys it has still to check, and the time
      of its first check. */
  datatype Handle = Handle(held: seq<Key>, rest: seq<Key>, phase: Phase, start: int)

  /** `logs` (the counted failures of a key since it was created or last succeeded) and
      `peak` (the most keys that ever held a reservation at once) are history. */
  datatype Sys = Sys(now: int, keys: map<Key, KeyState>, handles: seq<Handle>,
                     logs: map<Key, seq<int>>, peak: nat)

  datatype Action =
    | Tick(to: int)
    | Begin(surface: string, peer: string, account: string)
    | CheckNext(i: nat, made: map<Key, KeyState>)
    | Decide(i: nat, outcome: Outcome)
    | ReturnNext(i: nat)
    | ResolveNext(i: nat, made: map<Key, KeyState>)
    | Poll(key: Key)

  function Start(now: int): Sys { Sys(now, map[], [], map[], 0) }

  function PendingKeys(m: map<Key, KeyState>): set<Key> { set k | k in m && m[k].pending > 0 }

  /** Logs follow the keys: an evicted key loses its log, a new key starts with none. */
  function Carry(logs: map<Key, seq<int>>, m: map<Key, KeyState>): map<Key, seq<int>> {
    map k | k in m :: if k in m && k in logs then logs[k] else []
  }

  function With(s: Sys, keys: map<Key, KeyState>, logs: map<Key, seq<int>>, i: nat, h: Handle): Sys
    requires i < |s.handles|
  {
    Sys(s.now, keys, s.handles[i := h], logs, Max(s.peak, |PendingKeys(keys)|))
  }

  ghost predicate Step(p: Policy, s: Sys, a: Action, s': Sys) {
    match a
    case Tick(to) =>
      // An attempt is resolved less than Window after its first check.
      && s.now <= to
      && (forall i :: 0 <= i < |s.handles| && s.handles[i].held != [] ==> to < s.handles[i].start + p.window)
      && s' == s.(now := to)
    case Begin(surface, peer, account) =>
      s' == s.(handles := s.handles + [Handle([], AttemptKeys(surface, peer, account), Checking, s.now)])
    case CheckNext(i, made) =>
      && i < |s.handles| && s.handles[i].phase == Checking && s.handles[i].rest != []
      && var h := s.handles[i];
      var k := h.rest[0];
      && Created(p, s.keys, k, s.now, made) && k in made
      && var r := CheckState(p, k, made[k], s.now);
      var h' := if r.allowed
                then Handle(h.held + [k], h.rest[1..], if |h.rest| == 1 then Verifying else Checking,
                            if h.held == [] then s.now else h.start)
                else h.(rest := [], phase := Denied);
      s' == With(s, made[k := r.st], Carry(s.logs, made), i, h')
    case Decide(i, outcome) =>
      && i < |s.handles| && s.handles[i].phase == Verifying
      && s' == s.(handles := s.handles[i := s.handles[i].(phase := Resolving(outcome))])
    case ReturnNext(i) =>
      && i < |s.handles| && s.handles[i].phase == Denied && s.handles[i].held != []
      && ReturnOne(s, i, s')
    case ResolveNext(i, made) =>
      && i < |s.handles| && s.handles[i].phase.Resolving? && s.handles[i].held != []
      && var h := s.handles[i];
      var k := h.held[0];
      var h' := h.(held := h.held[1..]);
      (match h.phase.outcome
      case Released => ReturnOne(s, i, s')
      case Succeeded =>
        if k in s.keys
        then s' == With(s, s.keys[k := SuccessState(s.keys[k], s.now)], s.logs[k := []], i, h')
        else s' == With(s, s.keys, s.logs, i, h')
      case Failed =>
        && Created(p, s.keys, k, s.now, made) && k in made
        && s' == With(s, made[k := FailState(p, k, made[k], s.now).st],
                      Carry(s.logs, made)[k := Carry(s.logs, made)[k] + [s.now]], i, h'))
    case Poll(k) =>
      && k in s.keys
      && s' == s.(keys := s.keys[k := Refresh(p, k, s.keys[k], s.now)])
  }

  ghost predicate ReturnOne(s: Sys, i: nat, s': Sys)
    requires i < |s.handles| && s.handles[i].held != []
  {
    var h := s.handles[i];
    var k := h.held[0];
    s' == With(s, if k in s.keys then s.keys[k := ReleaseState(s.keys[k], s.now)] else s.keys,
               s.logs, i, h.(held := h.held[1..]))
  }

  ghost predicate IsRun(p: Policy, run: seq<Sys>) {
    && run != []
    && (exists now :: run[0] == Start(now))
    && forall i :: 0 < i < |run| ==> Follows(p, run[i - 1], run[i])
  }

  ghost predicate Follows(p: Policy, s: Sys, s': Sys) { exists a :: Step(p, s, a, s') }

  // ---- Outstanding reservations ----

  function Outstanding(hs: seq<Handle>, k: Key): nat {
    if hs == [] then 0 else multiset(Last(hs).held)[k] + Outstanding(Init(hs), k)
  }

  lemma {:induction false} OutstandingUpdate(hs: seq<Handle>, i: nat, h: Handle, k: Key)
    requires i < |hs|
    ensures Outstanding(hs[i := h], k) ==
            Outstanding(hs, k) - multiset(hs[i].held)[k] + multiset(h.held)[k]
  {
    if i == |hs| - 1 {
      assert Init(hs[i := h]) == Init(hs);
    } else {
      assert Init(hs[i := h]) == Init(hs)[i := h];
      OutstandingUpdate(Init(hs), i, h, k);
    }
  }

  lemma {:induction false} OutstandingHolder(hs: seq<Handle>, k: Key) returns (i: nat)
    requires Outstanding(hs, k) > 0
    ensures i < |hs| && k in hs[i].held
  {
    if k in multiset(Last(hs).held) {
      i := |hs| - 1;
    } else {
      i := OutstandingHolder(Init(hs), k);
    }
  }

  lemma {:induction false} HolderIsOutstanding(hs: seq<Handle>, i: nat, k: Key)
    requires i < |hs|
    ensures Outstanding(hs, k) >= multiset(hs[i].held)[k]
  {
    if i < |hs| - 1 {
      HolderIsOutstanding(Init(hs), i, k);
    }
  }

  // ---- One key ----

  /** The state of a key is what its log says it is. */
  ghost predicate KeyOk(p: Policy, k: Key, s: KeyState, log: seq<int>, now: int)
    requires Normal(p)
  {
    var t := Threshold(p, k);
    var a := After(p, t, log);
    && 0 <= s.failures && 0 <= s.pending && s.failures + s.pending <= t
    && s.lastSeen <= now
    && LogOk(p, t, log)
    && (log != [] ==> Last(log) <= now)
    && (match s.lastFailure
        case None =>
          && s.failures == 0 && s.lockLen == 0 && s.lockedUntil.None?
          && (log == [] || now - Last(log) >= p.window)
          && Admissible(p, t, log, now)
        case Some(x) =>
          && log != [] && x == Last(log) && s.lockLen == LockLen(p, a.locks)
          && (match s.lockedUntil
              case Some(u) => a.streak == t && s.failures == t && u == x + s.lockLen
              case None => s.failures == (if a.streak == t then t - 1 else a.streak)
                           && Admissible(p, t, log, now)))
  }

  lemma KeyRefresh(p: Policy, k: Key, s: KeyState, log: seq<int>, now: int)
    requires Normal(p) && KeyOk(p, k, s, log, now)
    requires s.pending > 0 ==> now < s.lastSeen + p.window
    ensures var r := Refresh(p, k, s, now);
            && KeyOk(p, k, r, log, now)
            && r.pending == s.pending && r.lastSeen == s.lastSeen
            && (Locked(r, now) <==> Locked(s, now))
            && (r.lockedUntil.Some? ==> Locked(r, now))
            && (!Locked(r, now) ==> r.failures == Before(p, Threshold(p, k), log, now).streak
                                    && r.lockLen == LockLen(p, Before(p, Threshold(p, k), log, now).locks))
  {
  }

  lemma KeyCheck(p: Policy, k: Key, s: KeyState, log: seq<int>, now: int)
    requires Normal(p) && KeyOk(p, k, s, log, now)
    requires s.pending > 0 ==> now < s.lastSeen + p.window
    ensures var r := CheckState(p, k, s, now);
            && KeyOk(p, k, r.st, log, now) && r.st.lastSeen == now
            && r.st.pending == s.pending + (if r.allowed then 1 else 0)
            && (r.allowed <==> !Locked(s, now) && Before(p, Threshold(p, k), log, now).streak + s.pending < Threshold(p, k))
  {
    KeyRefresh(p, k, s, log, now);
  }

  lemma KeyFail(p: Policy, k: Key, s: KeyState, log: seq<int>, now: int)
    requires Normal(p) && KeyOk(p, k, s, log, now)
    requires 0 < s.pending && now < s.lastSeen + p.window
    ensures var st := FailState(p, k, s, now).st;
            KeyOk(p, k, st, log + [now], now) && st.pending == s.pending - 1 && st.lastSeen == now
  {
    KeyRefresh(p, k, s, log, now);
    var t := Threshold(p, k);
    var st := FailState(p, k, s, now).st;
    assert Init(log + [now]) == log;
    assert Admissible(p, t, log, now);
    assert LogOk(p, t, log + [now]);
    var b := Before(p, t, log, now);
    assert After(p, t, log + [now]) == Ladder(b.streak + 1, if b.streak + 1 >= t then b.locks + 1 else b.locks);
  }

  lemma KeyFresh(p: Policy, k: Key, now: int)
    requires Normal(p)
    ensures KeyOk(p, k, Fresh(now), [], now)
  {
  }

  lemma KeyLater(p: Policy, k: Key, s: KeyState, log: seq<int>, now: int, later: int)
    requires Normal(p) && KeyOk(p, k, s, log, now) && now <= later
    ensures KeyOk(p, k, s, log, later)
  {
  }

  lemma KeyReleased(p: Policy, k: Key, s: KeyState, log: seq<int>, now: int)
    requires Normal(p) && KeyOk(p, k, s, log, now)
    ensures KeyOk(p, k, ReleaseState(s, now), log, now)
    ensures KeyOk(p, k, SuccessState(s, now), [], now)
  {
  }

  // ---- The invariant ----

  ghost predicate Inv(p: Policy, s: Sys) {
    Normal(p) && KeysOk(p, s.now, s.keys, s.logs) && CountsOk(s.keys, s.handles)
    && HandlesOk(p, s.now, s.keys, s.handles) && Bounded(p, s.keys, s.peak)
  }

  ghost predicate KeysOk(p: Policy, now: int, keys: map<Key, KeyState>, logs: map<Key, seq<int>>)
    requires Normal(p)
  {
    && logs.Keys == keys.Keys
    && forall k :: k in keys ==> KeyOk(p, k, keys[k], logs[k], now)
  }

  function PendingOf(keys: map<Key, KeyState>, k: Key): int {
    if k in keys then keys[k].pending else 0
  }

  /** Pending counts are exactly the reservations some attempt still holds. */
  ghost predicate CountsOk(keys: map<Key, KeyState>, hs: seq<Handle>) {
    forall k :: PendingOf(keys, k) == Outstanding(hs, k)
  }

  ghost predicate HandlesOk(p: Policy, now: int, keys: map<Key, KeyState>, hs: seq<Handle>) {
    forall i :: 0 <= i < |hs| ==> HandleOk(p, now, keys, hs[i])
  }

  ghost predicate HandleOk(p: Policy, now: int, keys: map<Key, KeyState>, h: Handle) {
    h.held != [] ==>
      && h.start <= now < h.start + p.window
      && forall k :: k in h.held ==> k in keys && h.start <= keys[k].lastSeen
  }

  ghost predicate Bounded(p: Policy, keys: map<Key, KeyState>, peak: nat) {
    |PendingKeys(keys)| <= peak && |keys| <= Max(p.maxKeys, peak + 1)
  }

  /** A reservation still out means the key was seen less than Window ago. */
  lemma NoDecay(p: Policy, now: int, keys: map<Key, KeyState>, hs: seq<Handle>, k: Key)
    requires CountsOk(keys, hs) && HandlesOk(p, now, keys, hs)
    requires k in keys && keys[k].pending > 0
    ensures now < keys[k].lastSeen + p.window
  {
    assert PendingOf(keys, k) == Outstanding(hs, k);
    var i := OutstandingHolder(hs, k);
    assert HandleOk(p, now, keys, hs[i]);
  }

  // ---- Making room ----

  /** Creating a bucket never costs another one its reservation. */
  lemma CreatedShape(p: Policy, m: map<Key, KeyState>, k: Key, now: int, n: map<Key, KeyState>)
    requires Created(p, m, k, now, n)
    ensures k in n && n[k] == if k in m then m[k] else Fresh(now)
    ensures forall x :: x in n && x != k ==> x in m && n[x] == m[x]
    ensures forall x :: x in m && m[x].pending > 0 ==> x in n
  {
  }

  /** A locked bucket is given up only when no idle one is left. */
  lemma LockedEvictedLast(p: Policy, m: map<Key, KeyState>, k: Key, now: int, n: map<Key, KeyState>, x: Key)
    requires Created(p, m, k, now, n) && x in m && x !in n && Locked(m[x], now)
    ensures forall y :: y in m && !Locked(m[y], now) ==> m[y].pending > 0
  {
    var v :| EvictChoice(m, now, v) && n == Drop(m, v)[k := Fresh(now)];
    assert v == Some(x);
    forall y | y in m && !Locked(m[y], now) ensures m[y].pending > 0 {
      assert !Idle(m, now, x);
      assert !Idle(m, now, y);
    }
  }

  lemma SizeIsKeys(m: map<Key, KeyState>)
    ensures |m| == |m.Keys|
  {
  }

  lemma CreatedSize(p: Policy, m: map<Key, KeyState>, k: Key, now: int, n: map<Key, KeyState>)
    requires Created(p, m, k, now, n)
    ensures |n| <= Max(|m|, Max(p.maxKeys, |PendingKeys(m)| + 1))
  {
    SizeIsKeys(n);
    SizeIsKeys(m);
    if k in m {
    } else if |m| < p.maxKeys {
      assert n.Keys == m.Keys + {k};
    } else {
      var v :| EvictChoice(m, now, v) && n == Drop(m, v)[k := Fresh(now)];
      VictimSize(m, now, v);
      hide EvictChoice;
      assert n.Keys == Drop(m, v).Keys + {k};
    }
  }

  lemma VictimSize(m: map<Key, KeyState>, now: int, v: Option<Key>)
    requires EvictChoice(m, now, v)
    ensures |Drop(m, v).Keys| < Max(|m.Keys|, |PendingKeys(m)| + 1)
  {
    if v == None {
      forall x | x in m ensures m[x].pending > 0 {
        assert !Idle(m, now, x) && !Parked(m, now, x);
      }
      assert m.Keys == PendingKeys(m);
    } else {
      assert Drop(m, v).Keys == m.Keys - {v.value};
      assert |m.Keys - {v.value}| == |m.Keys| - 1;
    }
  }

  // ---- One key, one attempt ----

  /** The step's effect on the held reservations matches its effect on the pending count. */
  ghost predicate Matches(hs: seq<Handle>, m: map<Key, KeyState>, i: nat, h: Handle, k: Key, st: KeyState)
    requires i < |hs|
  {
    && k in m
    && st.pending == m[k].pending + multiset(h.held)[k] - multiset(hs[i].held)[k]
    && (forall x :: x != k ==> multiset(h.held)[x] == multiset(hs[i].held)[x])
  }

  lemma CountsKept(p: Policy, keys: map<Key, KeyState>, hs: seq<Handle>, now: int, m: map<Key, KeyState>,
                   i: nat, h: Handle, k: Key, st: KeyState)
    requires CountsOk(keys, hs) && Created(p, keys, k, now, m) && i < |hs| && Matches(hs, m, i, h, k, st)
    requires forall x :: x in keys ==> keys[x].pending >= 0
    ensures CountsOk(m[k := st], hs[i := h])
  {
    CreatedShape(p, keys, k, now, m);
    hide Created;
    var keys', hs' := m[k := st], hs[i := h];
    forall x ensures PendingOf(keys', x) == Outstanding(hs', x) {
      OutstandingUpdate(hs, i, h, x);
      assert PendingOf(keys, x) == Outstanding(hs, x);
    }
  }

  lemma HandlesKept(p: Policy, keys: map<Key, KeyState>, hs: seq<Handle>, now: int, m: map<Key, KeyState>,
                    i: nat, h: Handle, k: Key, st: KeyState)
    requires CountsOk(keys, hs) && HandlesOk(p, now, keys, hs) && Created(p, keys, k, now, m) && i < |hs|
    requires st.lastSeen == now && p.window > 0
    requires forall x :: x in keys ==> keys[x].lastSeen <= now
    requires forall x :: x in h.held ==> x == k || x in hs[i].held
    requires h.held != [] ==> h.start == if hs[i].held == [] then now else hs[i].start
    ensures HandlesOk(p, now, m[k := st], hs[i := h])
  {
    CreatedShape(p, keys, k, now, m);
    hide Created;
    var keys', hs' := m[k := st], hs[i := h];
    forall j | 0 <= j < |hs'| ensures HandleOk(p, now, keys', hs'[j]) {
      HandleKept(p, keys, hs, now, m, j);
      assert j != i ==> hs'[j] == hs[j];
    }
  }

  /** Whatever an attempt holds outlives the making of room. */
  lemma HandleKept(p: Policy, keys: map<Key, KeyState>, hs: seq<Handle>, now: int, m: map<Key, KeyState>, j: nat)
    requires CountsOk(keys, hs) && HandlesOk(p, now, keys, hs) && j < |hs|
    requires forall x :: x in keys && keys[x].pending > 0 ==> x in m
    requires forall x :: x in keys && x in m ==> m[x] == keys[x]
    ensures HandleOk(p, now, keys, hs[j]) && HandleOk(p, now, m, hs[j])
  {
    assert HandleOk(p, now, keys, hs[j]);
    forall x | x in hs[j].held ensures x in m {
      HolderIsOutstanding(hs, j, x);
      assert x in multiset(hs[j].held);
      assert PendingOf(keys, x) == Outstanding(hs, x);
    }
  }

  lemma KeysKept(p: Policy, keys: map<Key, KeyState>, logs: map<Key, seq<int>>, now: int, m: map<Key, KeyState>,
                 k: Key, st: KeyState, log: seq<int>)
    requires Normal(p) && KeysOk(p, now, keys, logs) && Created(p, keys, k, now, m)
    requires KeyOk(p, k, st, log, now)
    ensures KeysOk(p, now, m[k := st], Carry(logs, m)[k := log])
  {
    hide KeyOk;
    CreatedShape(p, keys, k, now, m);
    hide Created;
  }

  lemma KeyRanges(p: Policy, now: int, keys: map<Key, KeyState>, logs: map<Key, seq<int>>)
    requires Normal(p) && KeysOk(p, now, keys, logs)
    ensures forall x :: x in keys ==> keys[x].pending >= 0 && keys[x].lastSeen <= now
  {
    forall x | x in keys ensures keys[x].pending >= 0 && keys[x].lastSeen <= now {
      assert KeyOk(p, x, keys[x], logs[x], now);
    }
  }

  /** Every step that touches one key on behalf of one attempt keeps the invariant. */
  lemma OneKeyStep(p: Policy, s: Sys, m: map<Key, KeyState>, i: nat, h: Handle, k: Key, st: KeyState, log: seq<int>)
    requires Inv(p, s) && Created(p, s.keys, k, s.now, m) && i < |s.handles|
    requires KeyOk(p, k, st, log, s.now) && st.lastSeen == s.now
    requires Matches(s.handles, m, i, h, k, st)
    requires forall x :: x in h.held ==> x == k || x in s.handles[i].held
    requires h.held != [] ==> h.start == if s.handles[i].held == [] then s.now else s.handles[i].start
    ensures Inv(p, With(s, m[k := st], Carry(s.logs, m)[k := log], i, h))
  {
    hide KeyOk;
    hide Created;
    hide Carry;
    KeyRanges(p, s.now, s.keys, s.logs);
    KeysKept(p, s.keys, s.logs, s.now, m, k, st, log);
    CountsKept(p, s.keys, s.handles, s.now, m, i, h, k, st);
    HandlesKept(p, s.keys, s.handles, s.now, m, i, h, k, st);
    hide KeysOk;
    hide CountsOk;
    hide HandlesOk;
    CreatedShape(p, s.keys, k, s.now, m);
    CreatedSize(p, s.keys, k, s.now, m);
    assert m[k := st].Keys == m.Keys && |m[k := st].Keys| == |m.Keys|;
  }

  /** The bucket a call works on, once created, is in order and has not leaked. */
  lemma CreatedKey(p: Policy, s: Sys, k: Key, m: map<Key, KeyState>)
    requires Inv(p, s) && Created(p, s.keys, k, s.now, m)
    ensures k in m && KeyOk(p, k, m[k], Carry(s.logs, m)[k], s.now)
    ensures m[k].pending > 0 ==> s.now < m[k].lastSeen + p.window
  {
    hide KeyOk;
    CreatedShape(p, s.keys, k, s.now, m);
    KeyFresh(p, k, s.now);
    if k in s.keys && s.keys[k].pending > 0 {
      NoDecay(p, s.now, s.keys, s.handles, k);
    }
  }

  lemma TailCounts(held: seq<Key>)
    requires held != []
    ensures multiset(held[1..]) == multiset(held) - multiset{held[0]}
    ensures held[0] in multiset(held)
  {
    assert held == [held[0]] + held[1..];
  }

  lemma HeldIsPending(p: Policy, s: Sys, i: nat)
    requires Inv(p, s) && i < |s.handles| && s.handles[i].held != []
    ensures var k := s.handles[i].held[0];
            k in s.keys && s.keys[k].pending > 0 && s.now < s.keys[k].lastSeen + p.window
  {
    var k := s.handles[i].held[0];
    HolderIsOutstanding(s.handles, i, k);
    assert k in multiset(s.handles[i].held);
    assert PendingOf(s.keys, k) == Outstanding(s.handles, k);
    NoDecay(p, s.now, s.keys, s.handles, k);
  }

  // ---- Every step ----

  lemma CheckNextKeeps(p: Policy, s: Sys, i: nat, made: map<Key, KeyState>, s': Sys)
    requires Inv(p, s) && Step(p, s, CheckNext(i, made), s')
    ensures Inv(p, s')
  {
    assert Normal(p);
    hide CheckState;
    hide KeyOk;
    hide Created;
    hide Inv;
    hide Before;
    var h := s.handles[i];
    var k := h.rest[0];
    var h' := s'.handles[i];
    CreatedKey(p, s, k, made);
    var log := Carry(s.logs, made)[k];
    KeyCheck(p, k, made[k], log, s.now);
    var r := CheckState(p, k, made[k], s.now);
    assert Carry(s.logs, made)[k := log] == Carry(s.logs, made);
    if r.allowed {
      assert h'.held == h.held + [k];
    } else {
      assert h'.held == h.held;
    }
    hide Carry;
    assert Matches(s.handles, made, i, h', k, r.st);
    OneKeyStep(p, s, made, i, h', k, r.st, log);
  }

  lemma ReturnKeeps(p: Policy, s: Sys, i: nat, s': Sys)
    requires Inv(p, s) && i < |s.handles| && s.handles[i].held != [] && ReturnOne(s, i, s')
    ensures Inv(p, s')
  {
    hide KeyOk;
    var h := s.handles[i];
    var k := h.held[0];
    HeldIsPending(p, s, i);
    TailCounts(h.held);
    KeyReleased(p, k, s.keys[k], s.logs[k], s.now);
    assert Carry(s.logs, s.keys)[k := s.logs[k]] == s.logs;
    OneKeyStep(p, s, s.keys, i, h.(held := h.held[1..]), k, ReleaseState(s.keys[k], s.now), s.logs[k]);
  }

  lemma SuccessKeeps(p: Policy, s: Sys, i: nat, made: map<Key, KeyState>, s': Sys)
    requires Inv(p, s) && Step(p, s, ResolveNext(i, made), s') && s.handles[i].phase.outcome == Succeeded
    ensures Inv(p, s')
  {
    hide KeyOk;
    var h := s.handles[i];
    var k := h.held[0];
    HeldIsPending(p, s, i);
    TailCounts(h.held);
    KeyReleased(p, k, s.keys[k], s.logs[k], s.now);
    assert Carry(s.logs, s.keys) == s.logs;
    OneKeyStep(p, s, s.keys, i, h.(held := h.held[1..]), k, SuccessState(s.keys[k], s.now), []);
  }

  lemma FailKeeps(p: Policy, s: Sys, i: nat, made: map<Key, KeyState>, s': Sys)
    requires Inv(p, s) && Step(p, s, ResolveNext(i, made), s') && s.handles[i].phase.outcome == Failed
    ensures Inv(p, s')
  {
    hide KeyOk;
    var h := s.handles[i];
    var k := h.held[0];
    HeldIsPending(p, s, i);
    TailCounts(h.held);
    KeyFail(p, k, s.keys[k], s.logs[k], s.now);
    hide FailState;
    assert made == s.keys && Carry(s.logs, s.keys) == s.logs;
    OneKeyStep(p, s, made, i, h.(held := h.held[1..]), k, FailState(p, k, made[k], s.now).st, s.logs[k] + [s.now]);
  }

  lemma PollKeeps(p: Policy, s: Sys, k: Key, s': Sys)
    requires Inv(p, s) && Step(p, s, Poll(k), s')
    ensures Inv(p, s')
  {
    hide KeyOk;
    hide Refresh;
    hide Before;
    var st := Refresh(p, k, s.keys[k], s.now);
    if s.keys[k].pending > 0 { NoDecay(p, s.now, s.keys, s.handles, k); }
    KeyRefresh(p, k, s.keys[k], s.logs[k], s.now);
    Rekeyed(s.keys, k, st);
    KeysKept(p, s.keys, s.logs, s.now, s.keys, k, st, s.logs[k]);
    assert Carry(s.logs, s.keys)[k := s.logs[k]] == s.logs;
    ReservationsUntouched(p, s.now, s.keys, s.handles, k, st);
    hide CountsOk;
    hide HandlesOk;
  }

  lemma ReservationsUntouched(p: Policy, now: int, keys: map<Key, KeyState>, hs: seq<Handle>, k: Key, st: KeyState)
    requires CountsOk(keys, hs) && HandlesOk(p, now, keys, hs) && k in keys
    requires st.pending == keys[k].pending && st.lastSeen == keys[k].lastSeen
    ensures CountsOk(keys[k := st], hs) && HandlesOk(p, now, keys[k := st], hs)
  {
    var keys' := keys[k := st];
    forall x ensures PendingOf(keys', x) == Outstanding(hs, x) {
      assert PendingOf(keys, x) == Outstanding(hs, x);
    }
    forall i | 0 <= i < |hs| ensures HandleOk(p, now, keys', hs[i]) {
      assert HandleOk(p, now, keys, hs[i]);
    }
  }

  lemma Rekeyed(m: map<Key, KeyState>, k: Key, st: KeyState)
    requires k in m && st.pending == m[k].pending
    ensures |m[k := st]| == |m| && PendingKeys(m[k := st]) == PendingKeys(m)
  {
    SizeIsKeys(m);
    SizeIsKeys(m[k := st]);
    assert m[k := st].Keys == m.Keys;
  }

  lemma TickKeeps(p: Policy, s: Sys, to: int, s': Sys)
    requires Inv(p, s) && Step(p, s, Tick(to), s')
    ensures Inv(p, s')
  {
    forall k | k in s.keys ensures KeyOk(p, k, s.keys[k], s.logs[k], to) {
      KeyLater(p, k, s.keys[k], s.logs[k], s.now, to);
    }
    hide KeyOk;
    forall i | 0 <= i < |s'.handles| ensures HandleOk(p, s'.now, s'.keys, s'.handles[i]) {
      assert HandleOk(p, s.now, s.keys, s.handles[i]);
    }
  }

  /** Handing an attempt its keys, or its verdict, moves no reservation. */
  lemma PaperworkKeeps(p: Policy, s: Sys, a: Action, s': Sys)
    requires Inv(p, s) && (a.Begin? || a.Decide?) && Step(p, s, a, s')
    ensures Inv(p, s')
  {
    hide KeyOk;
    if a.Begin? {
      assert Init(s'.handles) == s.handles;
    }
    forall x ensures PendingOf(s'.keys, x) == Outstanding(s'.handles, x) {
      assert PendingOf(s.keys, x) == Outstanding(s.handles, x);
      if a.Decide? {
        OutstandingUpdate(s.handles, a.i, s'.handles[a.i], x);
      }
    }
    forall j | 0 <= j < |s'.handles| ensures HandleOk(p, s'.now, s'.keys, s'.handles[j]) {
      assert j < |s.handles| ==> HandleOk(p, s.now, s.keys, s.handles[j]);
    }
  }

  lemma StepKeeps(p: Policy, s: Sys, a: Action, s': Sys)
    requires Inv(p, s) && Step(p, s, a, s')
    ensures Inv(p, s')
  {
    hide Inv;
    match a
    case Tick(to) => TickKeeps(p, s, to, s');
    case Begin(surface, peer, account) => PaperworkKeeps(p, s, a, s');
    case CheckNext(i, made) => CheckNextKeeps(p, s, i, made, s');
    case Decide(i, outcome) => PaperworkKeeps(p, s, a, s');
    case ReturnNext(i) => ReturnKeeps(p, s, i, s');
    case ResolveNext(i, made) =>
      if s.handles[i].phase.outcome.Released? { ReturnKeeps(p, s, i, s'); }
      if s.handles[i].phase.outcome.Succeeded? { SuccessKeeps(p, s, i, made, s'); }
      if s.handles[i].phase.outcome.Failed? { FailKeeps(p, s, i, made, s'); }
    case Poll(k) => PollKeeps(p, s, k, s');
  }

  lemma {:induction false} RunKeeps(p: Policy, run: seq<Sys>, n: nat)
    requires Normal(p) && IsRun(p, run) && n < |run|
    ensures Inv(p, run[n])
  {
    if n == 0 {
      assert forall k :: Outstanding([], k) == 0;
      assert PendingKeys(map[]) == {};
    } else {
      RunKeeps(p, run, n - 1);
      assert Follows(p, run[n - 1], run[n]);
      var a :| Step(p, run[n - 1], a, run[n]);
      StepKeeps(p, run[n - 1], a, run[n]);
    }
  }

  // ---- What every run keeps ----

  /** Pending counts are exact, and completed failures plus reservations never pass the
      threshold. */
  lemma ReservationsExact(p: Policy, run: seq<Sys>, n: nat, k: Key)
    requires Normal(p) && IsRun(p, run) && n < |run|
    ensures PendingOf(run[n].keys, k) == Outstanding(run[n].handles, k)
    ensures k in run[n].keys ==> run[n].keys[k].failures + run[n].keys[k].pending <= Threshold(p, k)
  {
    RunKeeps(p, run, n);
    assert k in run[n].keys ==> KeyOk(p, k, run[n].keys[k], run[n].logs[k], run[n].now);
  }

  /** No credential is being verified against a locked key. */
  lemma NoCheckInFlightWhileLocked(p: Policy, run: seq<Sys>, n: nat, i: nat, k: Key)
    requires Normal(p) && IsRun(p, run) && n < |run| && i < |run[n].handles| && k in run[n].handles[i].held
    ensures k in run[n].keys && !Locked(run[n].keys[k], run[n].now)
  {
    var s := run[n];
    RunKeeps(p, run, n);
    HolderIsOutstanding(s.handles, i, k);
    assert k in multiset(s.handles[i].held);
    assert PendingOf(s.keys, k) == Outstanding(s.handles, k);
    assert KeyOk(p, k, s.keys[k], s.logs[k], s.now);
  }

  /** Once every attempt, granted or denied, has handed back what it held, no key is left
      with a reservation. */
  lemma {:induction false} NothingHeldNothingPending(p: Policy, run: seq<Sys>, n: nat, k: Key)
    requires Normal(p) && IsRun(p, run) && n < |run|
    requires forall i :: 0 <= i < |run[n].handles| ==> run[n].handles[i].held == []
    ensures PendingOf(run[n].keys, k) == 0
  {
    ReservationsExact(p, run, n, k);
    if Outstanding(run[n].handles, k) > 0 {
      var i := OutstandingHolder(run[n].handles, k);
      assert false;
    }
  }

  /** The map never outgrows MaxKeys by more than the reservations force it to. */
  lemma MapIsBounded(p: Policy, run: seq<Sys>, n: nat)
    requires Normal(p) && IsRun(p, run) && n < |run|
    ensures |run[n].keys| <= Max(p.maxKeys, run[n].peak + 1)
  {
    RunKeeps(p, run, n);
  }

  /** The n-th consecutive lock of a key lasts LockStart doubled n - 1 times, capped. */
  lemma LockLadder(p: Policy, run: seq<Sys>, n: nat, k: Key)
    requires Normal(p) && IsRun(p, run) && n < |run| && k in run[n].keys && k in run[n].logs
    requires Dense(p, run[n].logs[k])
    ensures var s := run[n].keys[k];
            var log := run[n].logs[k];
            var t := Threshold(p, k);
            && (s.lockedUntil.Some? ==> |log| >= t && s.lockLen == Min(p.lockStart * Pow2(|log| - t), p.lockMax)
                                        && s.lockedUntil.value == Last(log) + s.lockLen)
            && (|log| >= t && s.lastFailure.Some? && !Locked(s, run[n].now) ==> s.pending <= 1)
  {
    RunKeeps(p, run, n);
    var s, log, t := run[n].keys[k], run[n].logs[k], Threshold(p, k);
    assert KeyOk(p, k, s, log, run[n].now);
    LadderOfDenseLog(p, t, log);
    if |log| >= t {
      LockLenClosedForm(p, |log| - t);
    }
  }

  /** A lock that lasted Window or more takes the whole ladder with it when it expires. */
  lemma LongLockForgets(p: Policy, run: seq<Sys>, n: nat, k: Key, now: int)
    requires Normal(p) && IsRun(p, run) && n < |run| && k in run[n].keys
    requires var s := run[n].keys[k]; s.lockedUntil.Some? && s.lockLen >= p.window && now >= s.lockedUntil.value
    ensures var r := Refresh(p, k, run[n].keys[k], now);
            r.failures == 0 && r.lockLen == 0 && r.lastFailure.None? && r.lockedUntil.None?
  {
    RunKeeps(p, run, n);
    assert KeyOk(p, k, run[n].keys[k], run[n].logs[k], run[n].now);
  }

  /** With the default policy that happens at the sixth consecutive lock, and no earlier. */
  lemma DefaultLadder()
    ensures LockLen(DEFAULT_POLICY, 6) == DEFAULT_POLICY.window
    ensures forall n :: 1 <= n <= 5 ==> LockLen(DEFAULT_POLICY, n) < DEFAULT_POLICY.window
  {
    var p := DEFAULT_POLICY;
    assert LockLen(p, 1) == 30 * SECOND;
    assert LockLen(p, 2) == 60 * SECOND;
    assert LockLen(p, 3) == 120 * SECOND;
    assert LockLen(p, 4) == 240 * SECOND;
    assert LockLen(p, 5) == 480 * SECOND;
  }

  // ---- The rate bound, exactly ----

  lemma RunExtend(p: Policy, run: seq<Sys>, a: Action, s': Sys)
    requires IsRun(p, run) && Step(p, Last(run), a, s')
    ensures IsRun(p, run + [s'])
  {
    var run' := run + [s'];
    forall i | 0 < i < |run'| ensures Follows(p, run'[i - 1], run'[i]) {
      if i < |run| {
        assert Follows(p, run[i - 1], run[i]);
      } else {
        assert Follows(p, Last(run), s');
      }
    }
    var now :| run[0] == Start(now);
    assert run'[0] == Start(now);
  }

  /** A state in which nothing is held and at most the key k exists, with exactly this log. */
  ghost predicate Settled(s: Sys, k: Key, log: seq<int>) {
    && (forall i :: 0 <= i < |s.handles| ==> s.handles[i].held == [])
    && s.keys.Keys == s.logs.Keys == (if log == [] then {} else {k})
    && (log != [] ==> s.logs[k] == log && s.now == Last(log))
  }

  /** The check made at that time is granted. */
  ghost predicate Admitted(p: Policy, run: seq<Sys>, k: Key, log: seq<int>, now: int)
    requires run != []
  {
    var keys := Last(run).keys;
    CheckState(p, k, if k in keys then keys[k] else Fresh(now), now).allowed
  }

  lemma AdmittedHolds(p: Policy, run: seq<Sys>, k: Key, log: seq<int>, now: int)
    requires Normal(p) && IsRun(p, run) && Settled(Last(run), k, log)
    requires Last(run).now <= now && Admissible(p, Threshold(p, k), log, now)
    ensures Admitted(p, run, k, log, now)
  {
    var s := Last(run);
    RunKeeps(p, run, |run| - 1);
    NothingHeldNothingPending(p, run, |run| - 1, k);
    if k in s.keys {
      assert KeyOk(p, k, s.keys[k], log, s.now);
      KeyLater(p, k, s.keys[k], log, s.now, now);
      KeyCheck(p, k, s.keys[k], log, now);
    }
  }

  /** ... and so the attempt reaches the point where its credential is verified. */
  lemma AttemptGranted(p: Policy, run: seq<Sys>, k: Key, log: seq<int>, now: int)
    returns (longer: seq<Sys>, i: nat)
    requires Normal(p) && IsRun(p, run) && Settled(Last(run), k, log) && k.account == ""
    requires Last(run).now <= now && Admitted(p, run, k, log, now)
    ensures IsRun(p, longer) && Last(longer).now == now
    ensures i == |Last(longer).handles| - 1 && Last(longer).handles[i] == Handle([k], [], Verifying, now)
    ensures forall j :: 0 <= j < i ==> Last(longer).handles[j].held == []
    ensures Last(longer).keys.Keys == Last(longer).logs.Keys == {k} && Last(longer).logs[k] == log
  {
    var s0 := Last(run);
    var s1 := s0.(now := now);
    RunExtend(p, run, Tick(now), s1);
    i := |s0.handles|;
    var s2 := s1.(handles := s1.handles + [Handle([], [k], Checking, now)]);
    assert AttemptKeys(k.surface, k.peer, "") == [k];
    RunExtend(p, run + [s1], Begin(k.surface, k.peer, ""), s2);
    var made := if k in s0.keys then s0.keys else map[k := Fresh(now)];
    assert log == [] ==> s0.keys == map[];
    assert Created(p, s2.keys, k, now, made);
    hide CheckState;
    var r := CheckState(p, k, made[k], now);
    var h' := Handle([] + [k], [k][1..], Verifying, now);
    assert h' == Handle([k], [], Verifying, now);
    var s3 := With(s2, made[k := r.st], Carry(s2.logs, made), i, h');
    assert Step(p, s2, CheckNext(i, made), s3);
    RunExtend(p, run + [s1] + [s2], CheckNext(i, made), s3);
    longer := run + [s1] + [s2] + [s3];
  }

  /** One more failure, at any time the log admits, can always be brought about. */
  lemma OneMoreFailure(p: Policy, run: seq<Sys>, k: Key, log: seq<int>, now: int) returns (longer: seq<Sys>)
    requires Normal(p) && IsRun(p, run) && Settled(Last(run), k, log) && k.account == ""
    requires Last(run).now <= now && Admissible(p, Threshold(p, k), log, now)
    ensures IsRun(p, longer) && Settled(Last(longer), k, log + [now])
  {
    AdmittedHolds(p, run, k, log, now);
    var run3, i := AttemptGranted(p, run, k, log, now);
    var s3 := Last(run3);
    var s4 := s3.(handles := s3.handles[i := s3.handles[i].(phase := Resolving(Failed))]);
    RunExtend(p, run3, Decide(i, Failed), s4);
    hide FailState;
    var h' := s4.handles[i].(held := [k][1..]);
    var s5 := With(s4, s4.keys[k := FailState(p, k, s4.keys[k], now).st],
                   Carry(s4.logs, s4.keys)[k := Carry(s4.logs, s4.keys)[k] + [now]], i, h');
    assert Step(p, s4, ResolveNext(i, s4.keys), s5);
    RunExtend(p, run3 + [s4], ResolveNext(i, s4.keys), s5);
    longer := run3 + [s4] + [s5];
  }

  /** Every log the reference admits is the log of some run: the reference is exact. */
  lemma {:induction false} EveryLogHappens(p: Policy, k: Key, log: seq<int>) returns (run: seq<Sys>)
    requires Normal(p) && k.account == "" && LogOk(p, Threshold(p, k), log)
    ensures IsRun(p, run) && Settled(Last(run), k, log)
    ensures log == [] || Last(run).now <= Last(log)
    decreases |log|
  {
    if log == [] {
      run := [Start(0)];
      assert run[0] == Start(0);
    } else {
      var front := Init(log);
      if front == [] {
        run := [Start(Last(log))];
        assert run[0] == Start(Last(log));
      } else {
        run := EveryLogHappens(p, k, front);
      }
      run := OneMoreFailure(p, run, k, front, Last(log));
      assert front + [Last(log)] == log;
    }
  }

  ghost predicate RateBounded(p: Policy, run: seq<Sys>, k: Key, from: int)
    requires run != []
  {
    k in Last(run).logs ==> CountIn(Last(run).logs[k], from, from + p.lockStart) <= Threshold(p, k)
  }

  /** No run counts more than the threshold of failures on a key within any half-open
      interval of length LockStart. */
  lemma RateBoundOnRuns(p: Policy, run: seq<Sys>, k: Key, from: int)
    requires Normal(p) && IsRun(p, run) && (p.lockStart <= p.window || Threshold(p, k) == 1)
    ensures RateBounded(p, run, k, from)
  {
    RunKeeps(p, run, |run| - 1);
    var s := Last(run);
    if k in s.logs {
      assert KeyOk(p, k, s.keys[k], s.logs[k], s.now);
      RateBound(p, Threshold(p, k), s.logs[k], from);
    }
  }

  /** For peer buckets the two policy settings decide it either way. */
  lemma RateBoundExactly(p: Policy, k: Key)
    requires Normal(p) && k.account == ""
    ensures (p.lockStart <= p.window || Threshold(p, k) == 1)
       <==> (forall run, from :: IsRun(p, run) ==> RateBounded(p, run, k, from))
  {
    if p.lockStart <= p.window || Threshold(p, k) == 1 {
      forall run, from | IsRun(p, run) ensures RateBounded(p, run, k, from) {
        RateBoundOnRuns(p, run, k, from);
      }
    } else {
      var t := Threshold(p, k);
      RateBoundFails(p, t);
      var run := EveryLogHappens(p, k, Burst(p, t));
      assert !RateBounded(p, run, k, 0);
    }
  }
}
