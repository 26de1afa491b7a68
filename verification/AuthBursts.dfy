/** The rate bound for every key: where the policy does not keep it, runs that break it are built
    for the keys that carry an account too, whose attempts count on two other keys besides. */
module AuthBursts {
  import opened Prelude
  import opened AuthLimit
  import opened AuthLadder
  import opened AuthRuns

  // ---- Reachable states, one call at a time ----

  ghost predicate Reach(p: Policy, s: Sys) { exists run :: IsRun(p, run) && Last(run) == s }

  lemma ReachStep(p: Policy, s: Sys, a: Action, s': Sys)
    requires Reach(p, s) && Step(p, s, a, s')
    ensures Reach(p, s')
  {
    var run :| IsRun(p, run) && Last(run) == s;
    hide Step;
    RunExtend(p, run, a, s');
    InitOfSnoc(run, s');
  }

  lemma ReachInv(p: Policy, s: Sys)
    requires Normal(p) && Reach(p, s)
    ensures Inv(p, s)
  {
    var run :| IsRun(p, run) && Last(run) == s;
    RunKeeps(p, run, |run| - 1);
  }

  function LogOf(s: Sys, k: Key): seq<int> { if k in s.logs then s.logs[k] else [] }

  function Pend(s: Sys, k: Key): int { PendingOf(s.keys, k) }

  /** The key is there as it was. */
  ghost predicate Kept(s: Sys, s': Sys, k: Key) {
    k in s.keys && k in s'.keys && LogOf(s', k) == LogOf(s, k) && Pend(s', k) == Pend(s, k)
  }

  /** A check at this time is granted to a key with this log. */
  predicate Open(p: Policy, k: Key, log: seq<int>, now: int, pending: int)
    requires Normal(p)
  {
    var t := Threshold(p, k);
    After(p, t, log).streak < t && Before(p, t, log, now).streak + pending < t
  }

  lemma OpenIsAllowed(p: Policy, s: Sys, k: Key, made: map<Key, KeyState>)
    requires Inv(p, s) && Created(p, s.keys, k, s.now, made) && Open(p, k, LogOf(s, k), s.now, Pend(s, k))
    ensures k in made && CheckState(p, k, made[k], s.now).allowed
    ensures CheckState(p, k, made[k], s.now).st.pending == Pend(s, k) + 1
  {
    CreatedShape(p, s.keys, k, s.now, made);
    CreatedKey(p, s, k, made);
    var log := Carry(s.logs, made)[k];
    assert log == LogOf(s, k) && made[k].pending == Pend(s, k);
    KeyCheck(p, k, made[k], log, s.now);
  }

  // ---- Making room ----

  lemma {:induction false} Oldest(m: map<Key, KeyState>, ks: set<Key>) returns (x: Key)
    requires ks != {} && ks <= m.Keys
    ensures x in ks && forall k :: k in ks ==> m[x].lastSeen <= m[k].lastSeen
    decreases ks
  {
    var y :| y in ks;
    if ks == {y} {
      x := y;
    } else {
      var z := Oldest(m, ks - {y});
      x := if m[y].lastSeen <= m[z].lastSeen then y else z;
    }
  }

  lemma AVictim(m: map<Key, KeyState>, now: int) returns (v: Option<Key>)
    ensures EvictChoice(m, now, v)
  {
    var idle, parked := set k | k in m && Idle(m, now, k), set k | k in m && Parked(m, now, k);
    forall k ensures Idle(m, now, k) <==> k in idle
      ensures Parked(m, now, k) <==> k in parked
    {
    }
    hide Idle;
    hide Parked;
    if idle != {} {
      var x := Oldest(m, idle);
      v := Some(x);
    } else if parked != {} {
      var x := Oldest(m, parked);
      v := Some(x);
    } else {
      v := None;
    }
  }

  lemma Room(p: Policy, m: map<Key, KeyState>, k: Key, now: int) returns (made: map<Key, KeyState>)
    ensures Created(p, m, k, now, made)
  {
    if k in m {
      made := m;
    } else if |m| < p.maxKeys {
      made := m[k := Fresh(now)];
    } else {
      var v := AVictim(m, now);
      made := Drop(m, v)[k := Fresh(now)];
    }
  }

  // ---- One call ----

  function Granted(s: Sys, i: nat): Handle
    requires i < |s.handles| && s.handles[i].rest != []
  {
    var h := s.handles[i];
    Handle(h.held + [h.rest[0]], h.rest[1..], if |h.rest| == 1 then Verifying else Checking, if h.held == [] then s.now else h.start)
  }

  /** A granted check: the next key is reserved, and what was reserved is kept. */
  lemma Take(p: Policy, s: Sys, i: nat) returns (s': Sys, made: map<Key, KeyState>)
    requires Normal(p) && Reach(p, s) && i < |s.handles| && s.handles[i].phase == Checking && s.handles[i].rest != []
    requires var k := s.handles[i].rest[0]; Open(p, k, LogOf(s, k), s.now, Pend(s, k))
    ensures Reach(p, s') && s'.now == s.now && Took(s, i, s')
    ensures Created(p, s.keys, s.handles[i].rest[0], s.now, made) && s'.keys.Keys == made.Keys
  {
    ReachInv(p, s);
    LogsAreOfKeys(p, s);
    var k := s.handles[i].rest[0];
    made := Room(p, s.keys, k, s.now);
    OpenIsAllowed(p, s, k, made);
    CreatedShape(p, s.keys, k, s.now, made);
    assert k in s.keys ==> made == s.keys;
    hide Created;
    hide Inv;
    hide CheckState;
    hide Open;
    hide Reach;
    var st := CheckState(p, k, made[k], s.now).st;
    s' := With(s, made[k := st], Carry(s.logs, made), i, Granted(s, i));
    assert Step(p, s, CheckNext(i, made), s');
    ReachStep(p, s, CheckNext(i, made), s');
    hide Step;
    TookBy(s, i, made, st, s');
  }

  lemma TookBy(s: Sys, i: nat, made: map<Key, KeyState>, st: KeyState, s': Sys)
    requires i < |s.handles| && s.handles[i].rest != [] && s.logs.Keys == s.keys.Keys
    requires var k := s.handles[i].rest[0];
             && k in made && st.pending == Pend(s, k) + 1
             && (forall x :: x in made && x != k ==> x in s.keys && made[x] == s.keys[x])
             && (forall x :: x in s.keys && s.keys[x].pending > 0 ==> x in made)
             && (k in s.keys ==> made == s.keys)
             && s' == With(s, made[k := st], Carry(s.logs, made), i, Granted(s, i))
    ensures Took(s, i, s') && s'.keys.Keys == made.Keys
  {
  }

  lemma LogsAreOfKeys(p: Policy, s: Sys)
    requires Inv(p, s)
    ensures s.logs.Keys == s.keys.Keys
  {
  }

  ghost predicate Took(s: Sys, i: nat, s': Sys)
    requires i < |s.handles| && s.handles[i].rest != []
  {
    var h := s.handles[i];
    var k := h.rest[0];
    && |s'.handles| == |s.handles|
    && s'.handles[i].held == h.held + [k] && s'.handles[i].rest == h.rest[1..]
    && s'.handles[i].phase == (if |h.rest| == 1 then Verifying else Checking)
    && (forall j :: 0 <= j < |s.handles| && j != i ==> s'.handles[j] == s.handles[j])
    && k in s'.keys && LogOf(s', k) == LogOf(s, k) && Pend(s', k) == Pend(s, k) + 1
    && (forall x :: x != k && Pend(s, x) > 0 ==> Kept(s, s', x))
    && (forall x :: x != k && x in s'.keys ==> Kept(s, s', x))
    && (k in s.keys ==> forall x :: x in s.keys ==> x in s'.keys)
  }

  /** The handle gives its first reservation back, and nothing else changes. */
  ghost predicate GaveBack(s: Sys, i: nat, s': Sys, log: seq<int>)
    requires i < |s.handles| && s.handles[i].held != []
  {
    var h := s.handles[i];
    var k := h.held[0];
    && s'.now == s.now && |s'.handles| == |s.handles| && s'.handles[i] == h.(held := h.held[1..])
    && (forall j :: 0 <= j < |s.handles| && j != i ==> s'.handles[j] == s.handles[j])
    && s'.keys.Keys == s.keys.Keys && k in s'.keys && LogOf(s', k) == log && Pend(s', k) == Pend(s, k) - 1
    && (forall x :: x != k && x in s.keys ==> Kept(s, s', x))
  }

  lemma FailFirst(p: Policy, s: Sys, i: nat) returns (s': Sys)
    requires Normal(p) && Reach(p, s) && i < |s.handles| && s.handles[i].phase == Resolving(Failed) && s.handles[i].held != []
    ensures Reach(p, s') && GaveBack(s, i, s', LogOf(s, s.handles[i].held[0]) + [s.now])
  {
    ReachInv(p, s);
    LogsAreOfKeys(p, s);
    var k := s.handles[i].held[0];
    HeldIsPending(p, s, i);
    FailDrops(p, s, k);
    hide KeyOk;
    hide Inv;
    hide FailState;
    hide Reach;
    var st := FailState(p, k, s.keys[k], s.now).st;
    assert Carry(s.logs, s.keys) == s.logs;
    s' := With(s, s.keys[k := st], s.logs[k := s.logs[k] + [s.now]], i, s.handles[i].(held := s.handles[i].held[1..]));
    assert Step(p, s, ResolveNext(i, s.keys), s');
    ReachStep(p, s, ResolveNext(i, s.keys), s');
    hide Step;
    GaveBackBy(s, i, st, s.logs[k] + [s.now], s');
  }

  lemma FailDrops(p: Policy, s: Sys, k: Key)
    requires Inv(p, s) && k in s.keys && 0 < s.keys[k].pending && s.now < s.keys[k].lastSeen + p.window
    ensures FailState(p, k, s.keys[k], s.now).st.pending == s.keys[k].pending - 1
  {
    assert KeyOk(p, k, s.keys[k], s.logs[k], s.now);
    KeyFail(p, k, s.keys[k], s.logs[k], s.now);
  }

  lemma ReturnFirst(p: Policy, s: Sys, i: nat) returns (s': Sys)
    requires Normal(p) && Reach(p, s) && i < |s.handles| && s.handles[i].phase == Resolving(Released) && s.handles[i].held != []
    ensures Reach(p, s') && GaveBack(s, i, s', LogOf(s, s.handles[i].held[0]))
  {
    ReachInv(p, s);
    LogsAreOfKeys(p, s);
    var k := s.handles[i].held[0];
    HeldIsPending(p, s, i);
    hide Inv;
    hide Reach;
    var st := ReleaseState(s.keys[k], s.now);
    s' := With(s, s.keys[k := st], s.logs, i, s.handles[i].(held := s.handles[i].held[1..]));
    assert Step(p, s, ResolveNext(i, s.keys), s');
    ReachStep(p, s, ResolveNext(i, s.keys), s');
    hide Step;
    assert s.logs == s.logs[k := s.logs[k]];
    GaveBackBy(s, i, st, s.logs[k], s');
  }

  lemma GaveBackBy(s: Sys, i: nat, st: KeyState, log: seq<int>, s': Sys)
    requires i < |s.handles| && s.handles[i].held != [] && s.logs.Keys == s.keys.Keys
    requires var h := s.handles[i];
             var k := h.held[0];
             && k in s.keys && st.pending == s.keys[k].pending - 1
             && s' == With(s, s.keys[k := st], s.logs[k := log], i, h.(held := h.held[1..]))
    ensures GaveBack(s, i, s', log)
  {
  }

  lemma DecideNow(p: Policy, s: Sys, i: nat, outcome: Outcome) returns (s': Sys)
    requires Reach(p, s) && i < |s.handles| && s.handles[i].phase == Verifying
    ensures Reach(p, s') && s' == s.(handles := s.handles[i := s.handles[i].(phase := Resolving(outcome))])
  {
    s' := s.(handles := s.handles[i := s.handles[i].(phase := Resolving(outcome))]);
    ReachStep(p, s, Decide(i, outcome), s');
  }

  lemma BeginNow(p: Policy, s: Sys, surface: string, peer: string, account: string) returns (s': Sys)
    requires Reach(p, s)
    ensures Reach(p, s')
    ensures s' == s.(handles := s.handles + [Handle([], AttemptKeys(surface, peer, account), Checking, s.now)])
  {
    s' := s.(handles := s.handles + [Handle([], AttemptKeys(surface, peer, account), Checking, s.now)]);
    ReachStep(p, s, Begin(surface, peer, account), s');
  }

  // ---- Whole attempts ----

  ghost predicate Distinct(ks: seq<Key>) { forall i, j :: 0 <= i < j < |ks| ==> ks[i] != ks[j] }

  ghost predicate AllThere(s: Sys, ks: seq<Key>) { forall y :: y in ks ==> y in s.keys }

  /** What taking these keys does to one key: it is reserved, and its log is as it was unless the
      key had to be made anew; another one is kept, or forgotten if nothing held it. */
  ghost predicate KeyTook(s: Sys, ks: seq<Key>, s': Sys, x: Key) {
    if x in ks then
      && x in s'.keys && Pend(s', x) == Pend(s, x) + 1 && (LogOf(s', x) == LogOf(s, x) || LogOf(s', x) == [])
      && (Pend(s, x) > 0 || AllThere(s, ks) ==> LogOf(s', x) == LogOf(s, x))
    else (Pend(s, x) > 0 || x in s'.keys ==> Kept(s, s', x)) && (AllThere(s, ks) && x in s.keys ==> Kept(s, s', x))
  }

  ghost predicate TookRest(s: Sys, i: nat, s': Sys)
    requires i < |s.handles|
  {
    var h := s.handles[i];
    && s'.now == s.now && |s'.handles| == |s.handles|
    && s'.handles[i].held == h.held + h.rest && s'.handles[i].rest == [] && s'.handles[i].phase == Verifying
    && (forall j :: 0 <= j < |s.handles| && j != i ==> s'.handles[j] == s.handles[j])
    && forall x :: KeyTook(s, h.rest, s', x)
  }

  /** A check of a key that was forgotten is granted. */
  lemma OpenWhenGone(p: Policy, k: Key, now: int)
    requires Normal(p)
    ensures Open(p, k, [], now, 0)
  {
  }

  lemma StateFacts(p: Policy, s: Sys)
    requires Normal(p) && Reach(p, s)
    ensures s.logs.Keys == s.keys.Keys && forall k :: Pend(s, k) >= 0
  {
    ReachInv(p, s);
    LogsAreOfKeys(p, s);
    forall k ensures Pend(s, k) >= 0 {
      assert PendingOf(s.keys, k) == Outstanding(s.handles, k);
    }
  }

  lemma {:induction false} TakeRest(p: Policy, s: Sys, i: nat) returns (s': Sys)
    requires Normal(p) && Reach(p, s) && i < |s.handles| && s.handles[i].phase == Checking
    requires s.handles[i].rest != [] && Distinct(s.handles[i].rest)
    requires forall x :: x in s.handles[i].rest ==> Open(p, x, LogOf(s, x), s.now, Pend(s, x))
    ensures Reach(p, s') && TookRest(s, i, s')
    decreases |s.handles[i].rest|
  {
    var h := s.handles[i];
    StateFacts(p, s);
    var s1, made := Take(p, s, i);
    StateFacts(p, s1);
    hide Reach;
    hide Open;
    if |h.rest| == 1 {
      s' := s1;
      assert h.rest == [h.rest[0]];
      forall x ensures KeyTook(s, h.rest, s', x) {
        OneTook(s, i, s1, x);
      }
    } else {
      RestSplits(h.rest);
      forall x | x in h.rest[1..] ensures Open(p, x, LogOf(s1, x), s1.now, Pend(s1, x)) {
        OneLeft(p, s, i, s1, x);
      }
      s' := TakeRest(p, s1, i);
      hide Took;
      forall x ensures KeyTook(s, h.rest, s', x) {
        OneTook(s, i, s1, x);
        assert KeyTook(s1, h.rest[1..], s', x);
        TookBoth(s, h.rest, s1, s', x);
      }
    }
  }

  lemma RestSplits(ks: seq<Key>)
    requires |ks| > 1 && Distinct(ks)
    ensures Distinct(ks[1..]) && forall x :: x in ks <==> x == ks[0] || x in ks[1..]
    ensures ks[0] !in ks[1..]
  {
    assert ks == [ks[0]] + ks[1..];
  }

  lemma OneTook(s: Sys, i: nat, s1: Sys, x: Key)
    requires i < |s.handles| && s.handles[i].rest != [] && Took(s, i, s1)
    ensures KeyTook(s, [s.handles[i].rest[0]], s1, x)
  {
  }

  lemma OneLeft(p: Policy, s: Sys, i: nat, s1: Sys, x: Key)
    requires Normal(p) && i < |s.handles| && s.handles[i].rest != [] && Took(s, i, s1) && s1.now == s.now
    requires x != s.handles[i].rest[0] && Open(p, x, LogOf(s, x), s.now, Pend(s, x))
    requires Pend(s, x) >= 0 && s1.logs.Keys == s1.keys.Keys
    ensures Open(p, x, LogOf(s1, x), s1.now, Pend(s1, x))
  {
    if x !in s1.keys {
      OpenWhenGone(p, x, s.now);
    }
  }

  lemma TookBoth(s: Sys, ks: seq<Key>, s1: Sys, s': Sys, x: Key)
    requires |ks| > 1 && Distinct(ks) && Pend(s, x) >= 0 && s1.logs.Keys == s1.keys.Keys
    requires KeyTook(s, [ks[0]], s1, x) && KeyTook(s1, ks[1..], s', x)
    requires AllThere(s, ks) ==> AllThere(s1, ks[1..])
    ensures KeyTook(s, ks, s', x)
  {
    RestSplits(ks);
  }

  // ---- Handing back ----

  /** What resolving an attempt does to one key. */
  ghost predicate KeyGave(s: Sys, ks: seq<Key>, s': Sys, x: Key, failed: bool) {
    if x in ks then x in s.keys && LogOf(s', x) == (if failed then LogOf(s, x) + [s.now] else LogOf(s, x)) && Pend(s', x) == Pend(s, x) - 1
    else x in s.keys ==> Kept(s, s', x)
  }

  ghost predicate GaveAll(s: Sys, i: nat, s': Sys, failed: bool)
    requires i < |s.handles|
  {
    && s'.now == s.now && |s'.handles| == |s.handles| && s'.handles[i].held == []
    && (forall j :: 0 <= j < |s.handles| && j != i ==> s'.handles[j] == s.handles[j])
    && s'.keys.Keys == s.keys.Keys
    && forall x :: KeyGave(s, s.handles[i].held, s', x, failed)
  }

  lemma {:induction false} GiveRest(p: Policy, s: Sys, i: nat) returns (s': Sys)
    requires Normal(p) && Reach(p, s) && i < |s.handles| && Distinct(s.handles[i].held)
    requires s.handles[i].phase == Resolving(Failed) || s.handles[i].phase == Resolving(Released)
    ensures Reach(p, s') && GaveAll(s, i, s', s.handles[i].phase == Resolving(Failed))
    decreases |s.handles[i].held|
  {
    var h := s.handles[i];
    var failed := h.phase == Resolving(Failed);
    if h.held == [] {
      s' := s;
    } else {
      var s1;
      if failed {
        s1 := FailFirst(p, s, i);
      } else {
        s1 := ReturnFirst(p, s, i);
      }
      hide Reach;
      HeldSplits(h.held);
      s' := GiveRest(p, s1, i);
      forall x ensures KeyGave(s, h.held, s', x, failed) {
        OneGave(s, i, s1, x, failed);
        assert KeyGave(s1, h.held[1..], s', x, failed);
        GaveBoth(s, h.held, s1, s', x, failed);
      }
    }
  }

  lemma HeldSplits(ks: seq<Key>)
    requires ks != [] && Distinct(ks)
    ensures Distinct(ks[1..]) && (forall x :: x in ks <==> x == ks[0] || x in ks[1..]) && ks[0] !in ks[1..]
  {
    assert ks == [ks[0]] + ks[1..];
  }

  lemma OneGave(s: Sys, i: nat, s1: Sys, x: Key, failed: bool)
    requires i < |s.handles| && s.handles[i].held != []
    requires var l := LogOf(s, s.handles[i].held[0]); GaveBack(s, i, s1, if failed then l + [s.now] else l)
    ensures KeyGave(s, [s.handles[i].held[0]], s1, x, failed)
  {
  }

  lemma GaveBoth(s: Sys, ks: seq<Key>, s1: Sys, s': Sys, x: Key, failed: bool)
    requires ks != [] && Distinct(ks) && s1.now == s.now && s1.keys.Keys == s.keys.Keys
    requires KeyGave(s, [ks[0]], s1, x, failed) && KeyGave(s1, ks[1..], s', x, failed)
    ensures KeyGave(s, ks, s', x, failed)
  {
    HeldSplits(ks);
  }

  lemma Resolve(p: Policy, s: Sys, i: nat, failed: bool) returns (s': Sys)
    requires Normal(p) && Reach(p, s) && i < |s.handles| && s.handles[i].phase == Verifying && Distinct(s.handles[i].held)
    ensures Reach(p, s') && GaveAll(s, i, s', failed)
  {
    var s1 := DecideNow(p, s, i, if failed then Failed else Released);
    hide Reach;
    s' := GiveRest(p, s1, i);
    forall x ensures KeyGave(s, s.handles[i].held, s', x, failed) {
      assert KeyGave(s1, s.handles[i].held, s', x, failed);
    }
  }

  /** Every attempt that holds anything is waiting for its verdict. */
  ghost predicate AllWaiting(s: Sys, n: nat) {
    forall j :: 0 <= j < |s.handles| && j < n && s.handles[j].held != [] ==>
                  s.handles[j].phase == Verifying && Distinct(s.handles[j].held)
  }

  ghost predicate SameLogs(s: Sys, s': Sys) {
    s'.now == s.now && s'.keys.Keys == s.keys.Keys && forall x :: x in s.keys ==> LogOf(s', x) == LogOf(s, x)
  }

  /** They are all released. */
  lemma {:induction false} ReleaseAll(p: Policy, s: Sys, n: nat) returns (s': Sys)
    requires Normal(p) && Reach(p, s) && n <= |s.handles| && AllWaiting(s, n)
    requires forall j :: n <= j < |s.handles| ==> s.handles[j].held == []
    ensures Reach(p, s') && SameLogs(s, s') && |s'.handles| == |s.handles|
    ensures forall j :: 0 <= j < |s'.handles| ==> s'.handles[j].held == []
    decreases n
  {
    hide Reach;
    if n == 0 {
      s' := s;
    } else if s.handles[n - 1].held == [] {
      s' := ReleaseAll(p, s, n - 1);
    } else {
      var s1 := Resolve(p, s, n - 1, false);
      assert SameLogs(s, s1) by {
        forall x | x in s.keys ensures LogOf(s1, x) == LogOf(s, x) {
          assert KeyGave(s, s.handles[n - 1].held, s1, x, false);
        }
      }
      s' := ReleaseAll(p, s1, n - 1);
    }
  }

  lemma NothingHeld(p: Policy, s: Sys)
    requires Normal(p) && Reach(p, s) && forall j :: 0 <= j < |s.handles| ==> s.handles[j].held == []
    ensures forall k :: Pend(s, k) == 0
  {
    ReachInv(p, s);
    forall k ensures Pend(s, k) == 0 {
      assert PendingOf(s.keys, k) == Outstanding(s.handles, k);
      if Outstanding(s.handles, k) > 0 {
        var i := OutstandingHolder(s.handles, k);
        assert false;
      }
    }
  }

  lemma Later(p: Policy, s: Sys, to: int) returns (s': Sys)
    requires Normal(p) && Reach(p, s) && s.now <= to && forall j :: 0 <= j < |s.handles| ==> s.handles[j].held == []
    ensures Reach(p, s') && s' == s.(now := to)
  {
    s' := s.(now := to);
    ReachStep(p, s, Tick(to), s');
  }

  // ---- Filling the map ----

  lemma {:induction false} LongPeer(ks: set<Key>) returns (peer: string)
    ensures peer != "" && forall k :: k in ks ==> |k.peer| < |peer|
    decreases ks
  {
    if ks == {} {
      peer := "x";
    } else {
      var k :| k in ks;
      peer := LongPeer(ks - {k});
      if |k.peer| >= |peer| {
        peer := k.peer + "x";
      }
    }
  }

  /** The keys nothing is reserved on. */
  function FreeKeys(s: Sys): set<Key> { set k | k in s.keys && s.keys[k].pending <= 0 }

  function Slack(p: Policy, s: Sys): nat { |FreeKeys(s)| + if |s.keys| < p.maxKeys then p.maxKeys - |s.keys| else 0 }

  lemma SlackShrinks(p: Policy, s: Sys, k: Key, made: map<Key, KeyState>, s': Sys)
    requires FreeKeys(s) != {} && k !in s.keys && Created(p, s.keys, k, s.now, made) && s'.keys.Keys == made.Keys
    requires Pend(s', k) > 0 && forall x :: x != k && x in s'.keys ==> Kept(s, s', x)
    ensures Slack(p, s') < Slack(p, s)
  {
    SizeIsKeys(s.keys);
    SizeIsKeys(s'.keys);
    FreeAfter(s, k, s');
    if |s.keys| < p.maxKeys {
      hide Kept;
      hide FreeKeys;
      assert s'.keys.Keys == s.keys.Keys + {k};
      assert FreeKeys(s') == FreeKeys(s);
    } else {
      var v :| EvictChoice(s.keys, s.now, v) && made == Drop(s.keys, v)[k := Fresh(s.now)];
      VictimIsFree(s, v);
      hide Kept;
      hide FreeKeys;
      hide EvictChoice;
      assert s'.keys.Keys == s.keys.Keys - {v.value} + {k};
      assert FreeKeys(s') == FreeKeys(s) - {v.value};
    }
  }

  lemma FreeAfter(s: Sys, k: Key, s': Sys)
    requires k !in s.keys && Pend(s', k) > 0 && forall x :: x != k && x in s'.keys ==> Kept(s, s', x)
    ensures forall x :: x in FreeKeys(s') <==> x in FreeKeys(s) && x in s'.keys
    ensures forall x :: x in FreeKeys(s) ==> x in s.keys
  {
    forall x ensures x in FreeKeys(s') <==> x in FreeKeys(s) && x in s'.keys {
      if x != k && x in s'.keys {
        assert Kept(s, s', x);
      }
    }
  }

  lemma VictimIsFree(s: Sys, v: Option<Key>)
    requires EvictChoice(s.keys, s.now, v) && FreeKeys(s) != {}
    ensures v.Some? && v.value in FreeKeys(s)
  {
    var x :| x in FreeKeys(s);
    assert Idle(s.keys, s.now, x) || Parked(s.keys, s.now, x);
  }

  /** Attempts from elsewhere that are waiting for their verdicts: what is held is kept, and of the
      keys with an account only those. */
  ghost predicate Filled(s: Sys, s': Sys) {
    && s'.now == s.now && |s.handles| <= |s'.handles|
    && (forall j :: 0 <= j < |s.handles| ==> s'.handles[j] == s.handles[j])
    && (forall j :: |s.handles| <= j < |s'.handles| ==> s'.handles[j].phase == Verifying && Distinct(s'.handles[j].held))
    && forall x :: Pend(s, x) > 0 || (x.account != "" && x in s'.keys) ==> Kept(s, s', x)
  }

  lemma FillOne(p: Policy, s: Sys) returns (s': Sys)
    requires Normal(p) && Reach(p, s) && FreeKeys(s) != {}
    ensures Reach(p, s') && Filled(s, s') && Slack(p, s') < Slack(p, s)
  {
    StateFacts(p, s);
    var peer := LongPeer(s.keys.Keys);
    var k := Key("", peer, "");
    assert k !in s.keys;
    var i := |s.handles|;
    var s1 := BeginNow(p, s, "", peer, "");
    assert s1.handles[i].rest == [k];
    OpenWhenGone(p, k, s.now);
    hide Open;
    var made;
    s', made := Take(p, s1, i);
    assert forall x :: Kept(s1, s', x) <==> Kept(s, s', x);
    assert FreeKeys(s1) == FreeKeys(s) && Slack(p, s1) == Slack(p, s);
    SlackShrinks(p, s1, k, made, s');
  }

  lemma FilledBoth(s: Sys, s1: Sys, s': Sys)
    requires Filled(s, s1) && Filled(s1, s')
    ensures Filled(s, s')
  {
    forall x | Pend(s, x) > 0 || (x.account != "" && x in s'.keys) ensures Kept(s, s', x) {
      assert Kept(s1, s', x);
    }
  }

  /** Until no key is left that nothing is reserved on. */
  lemma {:induction false} FillUp(p: Policy, s: Sys) returns (s': Sys)
    requires Normal(p) && Reach(p, s)
    ensures Reach(p, s') && Filled(s, s') && FreeKeys(s') == {}
    decreases Slack(p, s)
  {
    hide Reach;
    if FreeKeys(s) == {} {
      s' := s;
    } else {
      var s1 := FillOne(p, s);
      s' := FillUp(p, s1);
      FilledBoth(s, s1, s');
    }
  }

  // ---- When a check is granted ----

  lemma OpenAtOnce(p: Policy, k: Key, n: nat, pending: nat)
    requires Normal(p) && n + pending < Threshold(p, k)
    ensures Open(p, k, Repeat(0, n), 0, pending)
  {
    QuietPrefix(p, Threshold(p, k), n);
  }

  lemma OpenAfterWindow(p: Policy, k: Key, n: nat, pending: nat)
    requires Normal(p) && n < Threshold(p, k) && pending < Threshold(p, k)
    ensures Open(p, k, Repeat(0, n), p.window, pending)
  {
    QuietPrefix(p, Threshold(p, k), n);
  }

  // ---- Failures on the key of a peer and an account ----

  /** The attempt i of this peer on this account is waiting for its verdict, no other attempt holds
      its keys, and the peer's two keys have this log. */
  ghost predicate PairAt(s: Sys, i: nat, ks: seq<Key>, log: seq<int>) {
    && i < |s.handles| && s.handles[i].held == ks && s.handles[i].rest == [] && s.handles[i].phase == Verifying
    && |ks| == 3 && AllWaiting(s, |s.handles|)
    && LogOf(s, ks[0]) == LogOf(s, ks[1]) == log && LogOf(s, ks[2]) == []
    && Pend(s, ks[0]) == Pend(s, ks[1]) == Pend(s, ks[2]) == 1
  }

  /** Another attempt of the same peer gets as far as the account's own key. */
  ghost predicate PairEntered(s: Sys, i: nat, ks: seq<Key>, log: seq<int>, s': Sys, j: nat)
    requires |ks| == 3
  {
    && s'.now == s.now && j == |s.handles| && |s'.handles| == j + 1
    && (forall n :: 0 <= n < j ==> s'.handles[n] == s.handles[n])
    && s'.handles[j].held == ks[..2] && s'.handles[j].rest == ks[2..] && s'.handles[j].phase == Checking
    && LogOf(s', ks[0]) == LogOf(s', ks[1]) == log && LogOf(s', ks[2]) == []
    && Pend(s', ks[0]) == Pend(s', ks[1]) == 2 && Pend(s', ks[2]) == 1
  }

  lemma PairEnter(p: Policy, s: Sys, i: nat, surface: string, peer: string, account: string, log: seq<int>) returns (s': Sys, j: nat)
    requires Normal(p) && Reach(p, s) && peer != "" && account != ""
    requires var ks := AttemptKeys(surface, peer, account);
             PairAt(s, i, ks, log) && Open(p, ks[0], log, s.now, 1) && Open(p, ks[1], log, s.now, 1)
    ensures Reach(p, s') && PairEntered(s, i, AttemptKeys(surface, peer, account), log, s', j)
  {
    var ks := AttemptKeys(surface, peer, account);
    KeysApart(surface, peer, account);
    j := |s.handles|;
    var s1 := BeginNow(p, s, surface, peer, account);
    assert forall x :: LogOf(s1, x) == LogOf(s, x) && Pend(s1, x) == Pend(s, x);
    hide *;
    var s2, made2 := Take(p, s1, j);
    FirstTaken(s1, j, ks, s2);
    assert s2.handles[j].rest[0] == ks[1];
    var made3;
    s', made3 := Take(p, s2, j);
    SecondTaken(s2, j, ks, s');
    assert PairEntered(s, i, ks, log, s', j);
  }

  lemma KeysApart(surface: string, peer: string, account: string)
    requires account != ""
    ensures var ks := AttemptKeys(surface, peer, account);
            && |ks| == 3 && ks[0] != ks[1] && ks[0] != ks[2] && (peer != "" ==> ks[1] != ks[2])
            && ks[0].account == "" && ks[1].account == ks[2].account == account && ks[2].peer == ""
            && (peer != "" ==> Distinct(ks))
  {
  }

  lemma FirstTaken(s: Sys, j: nat, ks: seq<Key>, s': Sys)
    requires j < |s.handles| && |ks| == 3 && Distinct(ks) && s.handles[j].rest == ks && s.handles[j].held == [] && Took(s, j, s')
    ensures |s'.handles| == |s.handles| && forall n :: 0 <= n < |s.handles| && n != j ==> s'.handles[n] == s.handles[n]
    ensures s'.handles[j].rest == ks[1..] && s'.handles[j].held == ks[..1] && s'.handles[j].phase == Checking
    ensures LogOf(s', ks[0]) == LogOf(s, ks[0]) && Pend(s', ks[0]) == Pend(s, ks[0]) + 1
    ensures Pend(s, ks[1]) > 0 ==> LogOf(s', ks[1]) == LogOf(s, ks[1]) && Pend(s', ks[1]) == Pend(s, ks[1])
    ensures Pend(s, ks[2]) > 0 ==> LogOf(s', ks[2]) == LogOf(s, ks[2]) && Pend(s', ks[2]) == Pend(s, ks[2])
  {
  }

  lemma SecondTaken(s: Sys, j: nat, ks: seq<Key>, s': Sys)
    requires j < |s.handles| && |ks| == 3 && Distinct(ks) && s.handles[j].rest == ks[1..] && s.handles[j].held == ks[..1] && Took(s, j, s')
    ensures |s'.handles| == |s.handles| && forall n :: 0 <= n < |s.handles| && n != j ==> s'.handles[n] == s.handles[n]
    ensures s'.handles[j].rest == ks[2..] && s'.handles[j].held == ks[..2] && s'.handles[j].phase == Checking
    ensures LogOf(s', ks[1]) == LogOf(s, ks[1]) && Pend(s', ks[1]) == Pend(s, ks[1]) + 1
    ensures Pend(s, ks[0]) > 0 ==> LogOf(s', ks[0]) == LogOf(s, ks[0]) && Pend(s', ks[0]) == Pend(s, ks[0])
    ensures Pend(s, ks[2]) > 0 ==> LogOf(s', ks[2]) == LogOf(s, ks[2]) && Pend(s', ks[2]) == Pend(s, ks[2])
  {
    assert ks[1..][1..] == ks[2..] && ks[..1] + [ks[1]] == ks[..2];
  }

  /** The first attempt fails, and the account's own key, held by nobody, makes room for others. */
  lemma PairFails(p: Policy, s: Sys, i: nat, ks: seq<Key>, log: seq<int>, s1: Sys, j: nat) returns (s': Sys)
    requires Normal(p) && PairAt(s, i, ks, log) && Distinct(ks) && ks[2].account != ""
    requires Reach(p, s1) && PairEntered(s, i, ks, log, s1, j)
    ensures Reach(p, s') && s'.now == s.now && j < |s'.handles| && s'.handles[j] == s1.handles[j]
    ensures forall n :: 0 <= n < |s'.handles| && n != j && s'.handles[n].held != [] ==>
                          s'.handles[n].phase == Verifying && Distinct(s'.handles[n].held)
    ensures LogOf(s', ks[0]) == LogOf(s', ks[1]) == log + [s.now] && LogOf(s', ks[2]) == []
    ensures Pend(s', ks[0]) == Pend(s', ks[1]) == 1 && Pend(s', ks[2]) == 0
  {
    hide Reach;
    var s2 := Resolve(p, s1, i, true);
    assert KeyGave(s1, ks, s2, ks[0], true) && KeyGave(s1, ks, s2, ks[1], true) && KeyGave(s1, ks, s2, ks[2], true);
    s' := FillUp(p, s2);
    StateFacts(p, s');
    assert Kept(s2, s', ks[0]) && Kept(s2, s', ks[1]);
    UnheldIsGone(s2, s', ks[2]);
  }

  lemma UnheldIsGone(s: Sys, s': Sys, k: Key)
    requires Filled(s, s') && FreeKeys(s') == {} && k.account != "" && Pend(s, k) == 0
    ensures k !in s'.keys
  {
    assert k in s'.keys ==> k in FreeKeys(s');
  }

  lemma PairRound(p: Policy, s: Sys, i: nat, surface: string, peer: string, account: string, log: seq<int>) returns (s': Sys, j: nat)
    requires Normal(p) && Reach(p, s) && peer != "" && account != ""
    requires var ks := AttemptKeys(surface, peer, account);
             PairAt(s, i, ks, log) && Open(p, ks[0], log, s.now, 1) && Open(p, ks[1], log, s.now, 1)
    ensures Reach(p, s') && s'.now == s.now && PairAt(s', j, AttemptKeys(surface, peer, account), log + [s.now])
  {
    var ks := AttemptKeys(surface, peer, account);
    var s1;
    s1, j := PairEnter(p, s, i, surface, peer, account, log);
    var s2 := PairFails(p, s, i, ks, log, s1, j);
    assert s2.handles[j].rest[0] == ks[2];
    OpenWhenGone(p, ks[2], s2.now);
    hide Open;
    hide Reach;
    hide PairAt;
    var made;
    s', made := Take(p, s2, j);
    assert Kept(s2, s', ks[0]) && Kept(s2, s', ks[1]);
    assert ks[..2] + [ks[2]] == ks;
    PairIsAt(s', j, ks, log + [s.now]);
  }

  lemma PairIsAt(s: Sys, i: nat, ks: seq<Key>, log: seq<int>)
    requires i < |s.handles| && s.handles[i].held == ks && s.handles[i].rest == [] && s.handles[i].phase == Verifying
    requires |ks| == 3 && AllWaiting(s, |s.handles|)
    requires LogOf(s, ks[0]) == LogOf(s, ks[1]) == log && LogOf(s, ks[2]) == []
    requires Pend(s, ks[0]) == Pend(s, ks[1]) == Pend(s, ks[2]) == 1
    ensures PairAt(s, i, ks, log)
  {
  }

  lemma Begun(p: Policy)
    ensures Reach(p, Start(0))
  {
    var run := [Start(0)];
    assert run[0] == Start(0) && IsRun(p, run) && Last(run) == Start(0);
  }

  /** A first attempt, on keys that are not there. */
  lemma FirstAttempt(p: Policy, surface: string, peer: string, account: string) returns (s: Sys, i: nat)
    requires Normal(p) && peer != "" && account != ""
    ensures Reach(p, s) && s.now == 0 && PairAt(s, i, AttemptKeys(surface, peer, account), [])
  {
    var ks := AttemptKeys(surface, peer, account);
    KeysApart(surface, peer, account);
    Begun(p);
    i := 0;
    var s1 := BeginNow(p, Start(0), surface, peer, account);
    assert s1.handles[0] == Handle([], ks, Checking, 0);
    assert forall x :: LogOf(s1, x) == [] && Pend(s1, x) == 0;
    forall x | x in ks ensures Open(p, x, LogOf(s1, x), s1.now, Pend(s1, x)) {
      OpenWhenGone(p, x, s1.now);
    }
    hide Reach;
    hide Open;
    hide AttemptKeys;
    s := TakeRest(p, s1, 0);
    assert KeyTook(s1, ks, s, ks[0]) && KeyTook(s1, ks, s, ks[1]) && KeyTook(s1, ks, s, ks[2]);
    assert [] + ks == ks;
    PairIsAt(s, 0, ks, []);
  }

  /** An attempt on keys that are there and free. */
  lemma NextAttempt(p: Policy, s: Sys, surface: string, peer: string, account: string) returns (s': Sys, i: nat)
    requires Normal(p) && Reach(p, s) && peer != "" && account != "" && AllThere(s, AttemptKeys(surface, peer, account))
    requires forall j :: 0 <= j < |s.handles| ==> s.handles[j].held == []
    requires forall x :: x in AttemptKeys(surface, peer, account) ==> Open(p, x, LogOf(s, x), s.now, 0)
    ensures var ks := AttemptKeys(surface, peer, account);
            && Reach(p, s') && s'.now == s.now && i < |s'.handles| && AllWaiting(s', |s'.handles|)
            && s'.handles[i].held == ks && s'.handles[i].rest == [] && s'.handles[i].phase == Verifying
            && forall x :: x in ks ==> LogOf(s', x) == LogOf(s, x) && Pend(s', x) == 1
  {
    var ks := AttemptKeys(surface, peer, account);
    KeysApart(surface, peer, account);
    NothingHeld(p, s);
    i := |s.handles|;
    var s1 := BeginNow(p, s, surface, peer, account);
    assert s1.handles[i] == Handle([], ks, Checking, s.now);
    forall x ensures LogOf(s1, x) == LogOf(s, x) && Pend(s1, x) == 0 {
      assert Pend(s, x) == 0;
    }
    assert AllThere(s1, ks);
    hide Reach;
    hide Open;
    hide AttemptKeys;
    s' := TakeRest(p, s1, i);
    forall x | x in ks ensures LogOf(s', x) == LogOf(s, x) && Pend(s', x) == 1 {
      assert KeyTook(s1, ks, s', x);
    }
    assert [] + ks == ks;
  }

  /** n failures at time 0 on both keys of the peer, none left on the account's own. */
  lemma {:induction false} PairBatch(p: Policy, surface: string, peer: string, account: string, n: nat) returns (s: Sys, i: nat)
    requires Normal(p) && peer != "" && account != "" && n < p.failuresBeforeLock
    ensures Reach(p, s) && s.now == 0 && PairAt(s, i, AttemptKeys(surface, peer, account), Repeat(0, n))
  {
    hide *;
    if n == 0 {
      s, i := FirstAttempt(p, surface, peer, account);
      assert Repeat(0, 0) == [];
    } else {
      var ks := AttemptKeys(surface, peer, account);
      assert |ks| == 3 && Threshold(p, ks[0]) == p.failuresBeforeLock && Threshold(p, ks[1]) == p.failuresBeforeLock by {
        PairThresholds(p, surface, peer, account);
      }
      var s1, i1 := PairBatch(p, surface, peer, account, n - 1);
      OpenAtOnce(p, ks[0], n - 1, 1);
      OpenAtOnce(p, ks[1], n - 1, 1);
      s, i := PairRound(p, s1, i1, surface, peer, account, Repeat(0, n - 1));
      assert Repeat(0, n) == Repeat(0, n - 1) + [0] by { RepeatMore(0, n); }
    }
  }

  lemma PairThresholds(p: Policy, surface: string, peer: string, account: string)
    requires account != "" && peer != ""
    ensures var ks := AttemptKeys(surface, peer, account);
            |ks| == 3 && Threshold(p, ks[0]) == p.failuresBeforeLock && Threshold(p, ks[1]) == p.failuresBeforeLock
            && Threshold(p, ks[2]) == p.accountFailuresBeforeLock
  {
  }

  lemma RepeatMore(x: int, n: nat)
    requires n > 0
    ensures Repeat(x, n) == Repeat(x, n - 1) + [x]
  {
  }

  /** Once Window has passed the streak has gone stale, and two more failures fit in. */
  lemma PairAgain(p: Policy, surface: string, peer: string, account: string) returns (s: Sys, i: nat)
    requires Normal(p) && peer != "" && account != "" && p.failuresBeforeLock >= 2
    ensures Reach(p, s) && s.now == p.window
    ensures PairAt(s, i, AttemptKeys(surface, peer, account), Repeat(0, p.failuresBeforeLock - 1))
  {
    var ks, t := AttemptKeys(surface, peer, account), p.failuresBeforeLock;
    KeysApart(surface, peer, account);
    PairThresholds(p, surface, peer, account);
    var s1, i1 := PairBatch(p, surface, peer, account, t - 1);
    var s2 := ReleaseAll(p, s1, |s1.handles|);
    StateFacts(p, s2);
    var s3 := Later(p, s2, p.window);
    assert forall x :: LogOf(s3, x) == LogOf(s2, x);
    assert AllThere(s3, ks) && LogOf(s3, ks[0]) == LogOf(s3, ks[1]) == Repeat(0, t - 1) && LogOf(s3, ks[2]) == [];
    OpenAfterWindow(p, ks[0], t - 1, 0);
    OpenAfterWindow(p, ks[1], t - 1, 0);
    OpenWhenGone(p, ks[2], p.window);
    hide Open;
    hide Reach;
    hide AttemptKeys;
    hide Repeat;
    s, i := NextAttempt(p, s3, surface, peer, account);
    PairIsAt(s, i, ks, Repeat(0, t - 1));
  }

  /** t + 1 failures within Window of each other on the key of a peer and an account. */
  lemma PairBurst(p: Policy, surface: string, peer: string, account: string) returns (s: Sys)
    requires Normal(p) && peer != "" && account != "" && p.failuresBeforeLock >= 2
    ensures Reach(p, s) && LogOf(s, Key(surface, peer, account)) == Repeat(0, p.failuresBeforeLock - 1) + [p.window] + [p.window]
  {
    var ks, t := AttemptKeys(surface, peer, account), p.failuresBeforeLock;
    KeysApart(surface, peer, account);
    PairThresholds(p, surface, peer, account);
    assert ks[1] == Key(surface, peer, account);
    OpenAfterWindow(p, ks[0], t - 1, 1);
    OpenAfterWindow(p, ks[1], t - 1, 1);
    hide Open;
    hide Reach;
    hide AttemptKeys;
    hide Repeat;
    var s1, i1 := PairAgain(p, surface, peer, account);
    var s2, i2 := PairRound(p, s1, i1, surface, peer, account, Repeat(0, t - 1));
    s := Resolve(p, s2, i2, true);
    assert KeyGave(s2, ks, s, ks[1], true);
  }

  // ---- Failures on an account's own key ----

  /** The attempt i of this peer on this account is waiting for its verdict, no other attempt holds
      the account's own key, which has this log, and the peer has not failed yet. */
  ghost predicate CeilingAt(s: Sys, i: nat, ks: seq<Key>, log: seq<int>) {
    && i < |s.handles| && s.handles[i].held == ks && s.handles[i].rest == [] && s.handles[i].phase == Verifying
    && |ks| == 3 && AllWaiting(s, |s.handles|)
    && LogOf(s, ks[0]) == LogOf(s, ks[1]) == [] && LogOf(s, ks[2]) == log
    && Pend(s, ks[0]) > 0 && Pend(s, ks[1]) > 0 && Pend(s, ks[2]) == 1
  }

  /** An attempt of a peer not seen before starts beside it. */
  ghost predicate CeilingEntered(s: Sys, i: nat, ks: seq<Key>, us: seq<Key>, log: seq<int>, s': Sys, j: nat) {
    && |us| == 3 && us[0] !in ks && us[1] !in ks
    && s'.now == s.now && i < j == |s.handles| && |s'.handles| == j + 1
    && (forall n :: 0 <= n < j ==> s'.handles[n] == s.handles[n])
    && s'.handles[j].held == us && s'.handles[j].rest == [] && s'.handles[j].phase == Verifying
    && LogOf(s', us[0]) == LogOf(s', us[1]) == [] && LogOf(s', us[2]) == log
    && Pend(s', us[0]) > 0 && Pend(s', us[1]) > 0 && Pend(s', us[2]) == 2
  }

  lemma CeilingEnter(p: Policy, s: Sys, i: nat, surface: string, peer: string, account: string, log: seq<int>)
    returns (s': Sys, j: nat, next: string)
    requires Normal(p) && Reach(p, s) && peer != "" && account != ""
    requires var ks := AttemptKeys(surface, peer, account); CeilingAt(s, i, ks, log) && Open(p, ks[2], log, s.now, 1)
    ensures next != "" && Reach(p, s')
    ensures CeilingEntered(s, i, AttemptKeys(surface, peer, account), AttemptKeys(surface, next, account), log, s', j)
  {
    var ks := AttemptKeys(surface, peer, account);
    KeysApart(surface, peer, account);
    next := LongPeer(s.keys.Keys);
    var us := AttemptKeys(surface, next, account);
    KeysApart(surface, next, account);
    assert us[0] !in s.keys && us[1] !in s.keys && us[2] == ks[2];
    StateFacts(p, s);
    j := |s.handles|;
    var s1 := BeginNow(p, s, surface, next, account);
    assert s1.handles[j] == Handle([], us, Checking, s.now);
    assert forall x :: LogOf(s1, x) == LogOf(s, x) && Pend(s1, x) == Pend(s, x);
    assert LogOf(s1, us[0]) == [] && LogOf(s1, us[1]) == [] && Pend(s1, us[0]) == 0 && Pend(s1, us[1]) == 0;
    OpenWhenGone(p, us[0], s.now);
    OpenWhenGone(p, us[1], s.now);
    assert forall x :: x in us ==> x == us[0] || x == us[1] || x == us[2];
    NewKeys(s, ks, us);
    hide *;
    s' := TakeRest(p, s1, j);
    AllThreeTaken(s1, j, us, s');
    assert CeilingEntered(s, i, ks, us, log, s', j) by {
      CeilingIsEntered(s, i, ks, us, log, s1, s', j);
    }
  }

  lemma AllThreeTaken(s: Sys, j: nat, us: seq<Key>, s': Sys)
    requires j < |s.handles| && |us| == 3 && s.handles[j].held == [] && s.handles[j].rest == us && TookRest(s, j, s')
    requires Pend(s, us[0]) >= 0 && Pend(s, us[1]) >= 0
    ensures s'.now == s.now && |s'.handles| == |s.handles| && s'.handles[j].held == us && s'.handles[j].rest == []
    ensures s'.handles[j].phase == Verifying && forall n :: 0 <= n < |s.handles| && n != j ==> s'.handles[n] == s.handles[n]
    ensures Pend(s', us[0]) == Pend(s, us[0]) + 1 && Pend(s', us[1]) == Pend(s, us[1]) + 1 && Pend(s', us[2]) == Pend(s, us[2]) + 1
    ensures LogOf(s, us[0]) == [] ==> LogOf(s', us[0]) == []
    ensures LogOf(s, us[1]) == [] ==> LogOf(s', us[1]) == []
    ensures Pend(s, us[2]) > 0 ==> LogOf(s', us[2]) == LogOf(s, us[2])
  {
    assert KeyTook(s, us, s', us[0]) && KeyTook(s, us, s', us[1]) && KeyTook(s, us, s', us[2]);
    assert [] + us == us;
  }

  lemma CeilingIsEntered(s: Sys, i: nat, ks: seq<Key>, us: seq<Key>, log: seq<int>, s1: Sys, s': Sys, j: nat)
    requires |us| == 3 && us[0] !in ks && us[1] !in ks && s1.now == s.now && i < j == |s.handles| && |s1.handles| == j + 1
    requires forall n :: 0 <= n < j ==> s1.handles[n] == s.handles[n]
    requires s'.now == s1.now && |s'.handles| == j + 1 && forall n :: 0 <= n < j ==> s'.handles[n] == s1.handles[n]
    requires s'.handles[j].held == us && s'.handles[j].rest == [] && s'.handles[j].phase == Verifying
    requires LogOf(s', us[0]) == LogOf(s', us[1]) == [] && LogOf(s', us[2]) == log
    requires Pend(s', us[0]) > 0 && Pend(s', us[1]) > 0 && Pend(s', us[2]) == 2
    ensures CeilingEntered(s, i, ks, us, log, s', j)
  {
  }

  lemma NewKeys(s: Sys, ks: seq<Key>, us: seq<Key>)
    requires |ks| == |us| == 3 && us[0] !in s.keys && us[1] !in s.keys
    requires Pend(s, ks[0]) > 0 && Pend(s, ks[1]) > 0 && Pend(s, ks[2]) > 0
    ensures us[0] !in ks && us[1] !in ks
  {
    assert forall x :: x in ks ==> x == ks[0] || x == ks[1] || x == ks[2];
  }

  /** Then the one before it fails. */
  lemma CeilingRound(p: Policy, s: Sys, i: nat, surface: string, peer: string, account: string, log: seq<int>)
    returns (s': Sys, j: nat, next: string)
    requires Normal(p) && Reach(p, s) && peer != "" && account != ""
    requires var ks := AttemptKeys(surface, peer, account); CeilingAt(s, i, ks, log) && Open(p, ks[2], log, s.now, 1)
    ensures next != "" && Reach(p, s') && s'.now == s.now
    ensures CeilingAt(s', j, AttemptKeys(surface, next, account), log + [s.now])
  {
    var ks := AttemptKeys(surface, peer, account);
    KeysApart(surface, peer, account);
    var s1;
    s1, j, next := CeilingEnter(p, s, i, surface, peer, account, log);
    var us := AttemptKeys(surface, next, account);
    KeysApart(surface, next, account);
    assert us[2] == ks[2] && us[2] in ks;
    hide Open;
    hide Reach;
    hide AttemptKeys;
    s' := Resolve(p, s1, i, true);
    assert KeyGave(s1, ks, s', us[0], true) && KeyGave(s1, ks, s', us[1], true) && KeyGave(s1, ks, s', us[2], true);
  }

  lemma {:induction false} CeilingBatch(p: Policy, surface: string, account: string, n: nat) returns (s: Sys, i: nat, peer: string)
    requires Normal(p) && account != "" && n < p.accountFailuresBeforeLock
    ensures peer != "" && Reach(p, s) && s.now == 0 && CeilingAt(s, i, AttemptKeys(surface, peer, account), Repeat(0, n))
  {
    hide Reach;
    hide Open;
    if n == 0 {
      peer := "x";
      s, i := FirstAttempt(p, surface, peer, account);
    } else {
      var s1, i1, peer1 := CeilingBatch(p, surface, account, n - 1);
      PairThresholds(p, surface, peer1, account);
      OpenAtOnce(p, AttemptKeys(surface, peer1, account)[2], n - 1, 1);
      hide AttemptKeys;
      hide CeilingAt;
      s, i, peer := CeilingRound(p, s1, i1, surface, peer1, account, Repeat(0, n - 1));
      RepeatMore(0, n);
    }
  }

  lemma CeilingAgain(p: Policy, surface: string, account: string) returns (s: Sys, i: nat, peer: string)
    requires Normal(p) && account != "" && p.accountFailuresBeforeLock >= 2
    ensures peer != "" && Reach(p, s) && s.now == p.window
    ensures CeilingAt(s, i, AttemptKeys(surface, peer, account), Repeat(0, p.accountFailuresBeforeLock - 1))
  {
    var t := p.accountFailuresBeforeLock;
    var s1, i1;
    s1, i1, peer := CeilingBatch(p, surface, account, t - 1);
    var ks := AttemptKeys(surface, peer, account);
    KeysApart(surface, peer, account);
    PairThresholds(p, surface, peer, account);
    var s2 := ReleaseAll(p, s1, |s1.handles|);
    StateFacts(p, s2);
    var s3 := Later(p, s2, p.window);
    assert forall x :: LogOf(s3, x) == LogOf(s2, x);
    assert AllThere(s3, ks) && LogOf(s3, ks[0]) == LogOf(s3, ks[1]) == [] && LogOf(s3, ks[2]) == Repeat(0, t - 1);
    OpenAfterWindow(p, ks[2], t - 1, 0);
    OpenWhenGone(p, ks[0], p.window);
    OpenWhenGone(p, ks[1], p.window);
    hide Open;
    hide Reach;
    hide AttemptKeys;
    hide Repeat;
    s, i := NextAttempt(p, s3, surface, peer, account);
  }

  /** t + 1 failures within Window of each other on an account's own key, all of different peers. */
  lemma CeilingBurst(p: Policy, surface: string, account: string) returns (s: Sys)
    requires Normal(p) && account != "" && p.accountFailuresBeforeLock >= 2
    ensures Reach(p, s) && LogOf(s, Key(surface, "", account)) == Repeat(0, p.accountFailuresBeforeLock - 1) + [p.window] + [p.window]
  {
    var t := p.accountFailuresBeforeLock;
    var s1, i1, peer1 := CeilingAgain(p, surface, account);
    PairThresholds(p, surface, peer1, account);
    OpenAfterWindow(p, AttemptKeys(surface, peer1, account)[2], t - 1, 1);
    hide Open;
    hide Reach;
    hide Repeat;
    var s2, i2, peer2 := CeilingRound(p, s1, i1, surface, peer1, account, Repeat(0, t - 1));
    var ks := AttemptKeys(surface, peer2, account);
    KeysApart(surface, peer2, account);
    assert ks[2] == Key(surface, "", account);
    hide AttemptKeys;
    s := Resolve(p, s2, i2, true);
    assert KeyGave(s2, ks, s, ks[2], true);
  }

  // ---- The rate bound, exactly ----

  lemma BurstBreaks(p: Policy, k: Key, s: Sys)
    requires Normal(p) && Threshold(p, k) >= 2 && p.lockStart > p.window && Reach(p, s)
    requires LogOf(s, k) == Repeat(0, Threshold(p, k) - 1) + [p.window] + [p.window]
    ensures exists run :: IsRun(p, run) && !RateBounded(p, run, k, 0)
  {
    var run :| IsRun(p, run) && Last(run) == s;
    CountAll(LogOf(s, k), 0, p.lockStart);
  }

  /** Every key keeps the rate bound over all runs if and only if LockStart is at most Window or the
      key locks at the first failure. */
  lemma RateBoundForEveryKey(p: Policy, k: Key)
    requires Normal(p)
    ensures (p.lockStart <= p.window || Threshold(p, k) == 1)
       <==> (forall run, from :: IsRun(p, run) ==> RateBounded(p, run, k, from))
  {
    hide RateBounded;
    if p.lockStart <= p.window || Threshold(p, k) == 1 {
      forall run, from | IsRun(p, run) ensures RateBounded(p, run, k, from) {
        RateBoundOnRuns(p, run, k, from);
      }
    } else if k.account == "" {
      RateBoundExactly(p, k);
    } else {
      var s;
      if k.peer != "" {
        s := PairBurst(p, k.surface, k.peer, k.account);
      } else {
        s := CeilingBurst(p, k.surface, k.account);
      }
      BurstBreaks(p, k, s);
    }
  }
}
