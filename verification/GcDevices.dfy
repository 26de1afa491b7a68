/** What one device can do about chunks another device knows: which chunks a cancelled intent that
    came back exposes, and which chunks some device can collect. */
module GcDevices {
  import opened Prelude
  import opened Gc
  import opened GcRuns

  // ---- Which chunks are exposed ----

  /** Device d first saw the chunk under intent at q, an intent file of it reads r, and later than
      both some phase saw it referenced. */
  ghost predicate ExposedBy(w: World, id: Id, d: Device, r: int, i: int) {
    && id in SeenBy(w, d) && SeenBy(w, d)[id].Some?
    && id in w.intents && Some(r) in w.intents[id]
    && 0 <= i < |w.history| && id in w.history[i].live && w.history[i].at > Max(SeenBy(w, d)[id].value, r)
  }

  ghost predicate Exposed(w: World, id: Id) { exists d, r, i :: ExposedBy(w, id, d, r, i) }

  /** The chunk is taken less than the fence after a phase that saw it referenced. */
  ghost predicate TakenEarly(w: World, a: Action, w': World, d: Device, fence: int, id: Id)
    requires WorldWf(w)
  {
    && Collects(w, a, w', d, fence, id)
    && exists i :: 0 <= i < |w.history| && id in w.history[i].live && w.history[i].at > w.now - EffectiveFence(fence)
  }

  /** Steps from w that bring back no cancelled intent, and end in such a collection. */
  ghost predicate LeadsToEarly(w: World, id: Id, run: seq<World>, a: Action, d: Device, fence: int) {
    && |run| >= 2 && run[0] == w
    && (forall i :: 0 < i < |run| ==> Follows(run[i - 1], run[i]) && Timely(run[i - 1], run[i]))
    && WorldWf(run[|run| - 2]) && TakenEarly(run[|run| - 2], a, run[|run| - 1], d, fence, id)
  }

  ghost predicate CanBeTakenEarly(w: World, id: Id) { exists run, a, d, fence :: LeadsToEarly(w, id, run, a, d, fence) }

  /** No such step exposes a chunk. */
  lemma ExposureIsOld(w: World, a: Action, w': World, id: Id)
    requires Inv(w) && Step(w, a, w') && Timely(w, w') && Exposed(w', id)
    ensures Exposed(w, id)
  {
    var d, r, i :| ExposedBy(w', id, d, r, i);
    hide Doomed;
    hide Inv;
    if i == |w.history| {
      NewSightingCancels(w, a, w', id);
    } else {
      HistoryStays(w, a, w', i);
      RecordsAreOld(w, a, w', id, d, r);
      assert ExposedBy(w, id, d, r, i);
    }
  }

  lemma HistoryStays(w: World, a: Action, w': World, i: nat)
    requires Inv(w) && Step(w, a, w') && i < |w'.history| && i != |w.history|
    ensures i < |w.history| && w'.history[i] == w.history[i] && w.history[i].at <= w.now
  {
    hide Doomed;
  }

  /** A phase that sees a chunk referenced leaves no intent for it. */
  lemma NewSightingCancels(w: World, a: Action, w': World, id: Id)
    requires Inv(w) && Step(w, a, w') && |w.history| < |w'.history| && id in w'.history[|w.history|].live
    ensures id !in w'.intents
  {
    hide Doomed;
  }

  /** Entries of a first-seen record and intent files are old, or dated now. */
  lemma RecordsAreOld(w: World, a: Action, w': World, id: Id, d: Device, r: int)
    requires Inv(w) && Step(w, a, w') && Timely(w, w')
    requires id in SeenBy(w', d) && SeenBy(w', d)[id].Some? && id in w'.intents && Some(r) in w'.intents[id]
    ensures (id in SeenBy(w, d) && SeenBy(w, d)[id] == SeenBy(w', d)[id]) || SeenBy(w', d)[id] == Some(w.now)
    ensures (id in w.intents && Some(r) in w.intents[id]) || r == w.now || a.Outside?
  {
    hide Doomed;
  }

  lemma {:induction false} ExposureStays(run: seq<World>, id: Id, n: nat)
    requires n < |run| && Inv(run[0]) && forall i :: 0 < i < |run| ==> Follows(run[i - 1], run[i]) && Timely(run[i - 1], run[i])
    ensures Inv(run[n]) && (Exposed(run[n], id) ==> Exposed(run[0], id))
  {
    if n > 0 {
      ExposureStays(run, id, n - 1);
      assert Follows(run[n - 1], run[n]);
      var a :| Step(run[n - 1], a, run[n]);
      hide Step;
      hide Exposed;
      StepKeeps(run[n - 1], a, run[n]);
      if Exposed(run[n], id) {
        ExposureIsOld(run[n - 1], a, run[n], id);
      }
    }
  }

  lemma EarlyIsExposed(w: World, a: Action, w': World, d: Device, fence: int, id: Id)
    requires Inv(w) && TakenEarly(w, a, w', d, fence, id)
    ensures Exposed(w, id)
  {
    var f, v := EffectiveFence(fence), ViewOf(w, d);
    assert Doomed(v, Live(w.refs), w.now, f, id);
    var i :| 0 <= i < |w.history| && id in w.history[i].live && w.history[i].at > w.now - f;
    assert ExposedBy(w, id, d, OldestTime(w.intents[id]).value, i);
  }

  /** From an exposed chunk: its reference goes, time passes, and the device runs its second phase. */
  lemma ExposedIsTaken(w: World, id: Id, d: Device, r: int, i: int)
    requires Inv(w) && ExposedBy(w, id, d, r, i)
    ensures CanBeTakenEarly(w, id)
  {
    var top := Max(SeenBy(w, d)[id].value, r);
    var now := Max(w.now, top + HOUR);
    var fence := now - top;
    var w1 := w.(refs := map[], chunks := map[id := [top]]);
    var w2 := w1.(now := now);
    var v := ViewOf(w2, d);
    var w3 := Put(w2, d, Phase2(v, Live(w2.refs), now, fence),
                  w2.history + [Observation(d, now, false, Live(w2.refs) * w2.chunks.Keys, w2.chunks.Keys, w2.intents.Keys)]);
    var run := [w, w1, w2, w3];
    assert Step(w, Outside(map[], map[id := [top]], w.intents), w1) && Step(w1, Tick(now), w2);
    assert Live(w2.refs) == {};
    assert NewestMtime([top]) == top;
    assert Doomed(v, {}, now, fence, id);
    assert Step(w2, Second(d, fence), w3);
    assert id !in w3.chunks;
    assert Collects(w2, Second(d, fence), w3, d, fence, id);
    hide Step;
    hide Phase2;
    hide Doomed;
    assert TakenEarly(w2, Second(d, fence), w3, d, fence, id);
    StepsAreTimely(w, w1, w2, w3);
    assert LeadsToEarly(w, id, run, Second(d, fence), d, fence);
  }

  lemma StepsAreTimely(w: World, w1: World, w2: World, w3: World)
    requires w1.intents == w.intents && w2.intents == w1.intents
    requires forall id :: id in w3.intents ==> id in w2.intents && w3.intents[id] == w2.intents[id]
    ensures Timely(w, w1) && Timely(w1, w2) && Timely(w2, w3)
  {
  }

  /** Steps that bring back no further intent can lead to a collection less than the fence after a
      sighting exactly from the stores where the chunk is exposed already. */
  lemma TakenEarlyExactly(w: World, id: Id)
    requires Inv(w)
    ensures CanBeTakenEarly(w, id) <==> Exposed(w, id)
  {
    if Exposed(w, id) {
      var d, r, i :| ExposedBy(w, id, d, r, i);
      ExposedIsTaken(w, id, d, r, i);
    }
    if CanBeTakenEarly(w, id) {
      var run, a, d, fence :| LeadsToEarly(w, id, run, a, d, fence);
      hide TakenEarly;
      hide Follows;
      hide Timely;
      hide Exposed;
      ExposureStays(run, id, |run| - 2);
      EarlyIsExposed(run[|run| - 2], a, run[|run| - 1], d, fence, id);
    }
  }

  // ---- Which chunks can be collected by some device ----

  /** What the devices share, and the first-seen record of each. */
  datatype Store = Store(chunks: Chunks, intents: Intents, seen: map<Device, Seen>)

  /** One undisturbed run of one of them. */
  datatype Turn = Turn(dev: Device, run: Run)

  function SeenIn(s: Store, d: Device): Seen { if d in s.seen then s.seen[d] else map[] }

  function Before(s: Store, d: Device): View { View(s.chunks, s.intents, SeenIn(s, d)) }

  ghost predicate StoreWf(s: Store) { Wf(View(s.chunks, s.intents, map[])) }

  function AfterTurn(s: Store, t: Turn): (s': Store)
    requires StoreWf(s)
    ensures StoreWf(s')
  {
    var v := After(Before(s, t.dev), t.run);
    Store(v.chunks, v.intents, s.seen[t.dev := v.seen])
  }

  function AfterTurns(s: Store, ts: seq<Turn>): (s': Store)
    requires StoreWf(s)
    ensures StoreWf(s')
    decreases |ts|
  {
    if ts == [] then s else AfterTurn(AfterTurns(s, Init(ts)), Last(ts))
  }

  /** Turns of these devices, none of which sees the chunk referenced. */
  ghost predicate IdleTurns(ts: seq<Turn>, devs: set<Device>, id: Id, fence: int) {
    forall i :: 0 <= i < |ts| ==>
                  ts[i].dev in devs && id !in ts[i].run.live && ts[i].run.t1 <= ts[i].run.t2 && ts[i].run.fence == fence
  }

  /** None of these devices can read all that it needs: the intent, or its own first-seen entry. */
  ghost predicate NoneCanRead(s: Store, devs: set<Device>, id: Id) {
    forall d :: d in devs ==> !Readable(Before(s, d), id)
  }

  lemma {:induction false} NoneCanCollect(s: Store, ts: seq<Turn>, devs: set<Device>, id: Id, fence: int)
    requires StoreWf(s) && id in s.chunks && NoneCanRead(s, devs, id) && IdleTurns(ts, devs, id, fence)
    ensures var s' := AfterTurns(s, ts); id in s'.chunks && s'.chunks[id] == s.chunks[id] && NoneCanRead(s', devs, id)
    decreases |ts|
  {
    if ts != [] {
      NoneCanCollect(s, Init(ts), devs, id, fence);
      var u, t := AfterTurns(s, Init(ts)), Last(ts);
      assert t.dev in devs && id !in t.run.live;
      TurnLeavesUnread(u, t, devs, id);
    }
  }

  lemma TurnLeavesUnread(s: Store, t: Turn, devs: set<Device>, id: Id)
    requires StoreWf(s) && id in s.chunks && NoneCanRead(s, devs, id) && t.dev in devs && id !in t.run.live
    ensures var s' := AfterTurn(s, t); id in s'.chunks && s'.chunks[id] == s.chunks[id] && NoneCanRead(s', devs, id)
  {
    var v := Before(s, t.dev);
    StuckOnce(v, t.run, id);
    var s' := AfterTurn(s, t);
    hide Confirm;
    forall d | d in devs ensures !Readable(Before(s', d), id) {
      assert !Readable(Before(s, d), id);
      if d == t.dev {
        assert Before(s', d) == After(v, t.run);
      }
    }
  }

  /** One run over a chunk it cannot read all of. */
  lemma StuckOnce(v: View, r: Run, id: Id)
    requires Wf(v) && id in v.chunks && id !in r.live && !Readable(v, id)
    ensures var u := After(v, r);
            && id in u.chunks && u.chunks[id] == v.chunks[id] && !Readable(u, id)
            && (id in v.intents && OldestTime(v.intents[id]).None? ==> id in u.intents && OldestTime(u.intents[id]).None?)
  {
    var p := Phase1(v, r.live, r.t1);
    assert !Doomed(p, r.live, r.t2, r.fence, id);
    hide Doomed;
  }

  /** Runs of one device, as turns. */
  lemma {:induction false} TurnsOfOne(s: Store, d: Device, rs: seq<Run>, devs: set<Device>, id: Id, fence: int) returns (ts: seq<Turn>)
    requires StoreWf(s) && d in devs && Idle(rs, id, fence)
    ensures IdleTurns(ts, devs, id, fence) && Before(AfterTurns(s, ts), d) == Runs(Before(s, d), rs)
  {
    ts := [];
    if rs != [] {
      var front := TurnsOfOne(s, d, Init(rs), devs, id, fence);
      var t := Turn(d, Last(rs));
      ts := front + [t];
      InitOfSnoc(front, t);
      hide Confirm;
      forall i | 0 <= i < |ts|
        ensures ts[i].dev in devs && id !in ts[i].run.live && ts[i].run.t1 <= ts[i].run.t2 && ts[i].run.fence == fence
      {
        assert i < |front| ==> ts[i] == front[i];
      }
      assert AfterTurns(s, ts) == AfterTurn(AfterTurns(s, front), t);
    }
  }

  /** So an unreferenced chunk can be collected by some runs of these devices, in any order, exactly
      when one of them can read its intent, if there is one, and its own first-seen entry, if any. */
  lemma CollectableBySomeExactly(s: Store, devs: set<Device>, id: Id, fence: int)
    requires StoreWf(s) && id in s.chunks
    ensures (exists d :: d in devs && Readable(Before(s, d), id)) <==>
            (exists ts :: IdleTurns(ts, devs, id, fence) && id !in AfterTurns(s, ts).chunks)
  {
    hide AfterTurns;
    hide Runs;
    hide Readable;
    if d :| d in devs && Readable(Before(s, d), id) {
      var rs := ThreeRuns(Before(s, d), id, fence);
      var ts := TurnsOfOne(s, d, rs, devs, id, fence);
      assert id !in Before(AfterTurns(s, ts), d).chunks;
    } else {
      forall ts | IdleTurns(ts, devs, id, fence) ensures id in AfterTurns(s, ts).chunks {
        NoneCanCollect(s, ts, devs, id, fence);
      }
    }
  }
}
