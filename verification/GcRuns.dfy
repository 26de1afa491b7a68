/** What the collection guarantees over whole histories: several devices confirming against
    one store, runs that stop half-way, and anything else changing index, chunks and intents
    between phases. */
module GcRuns {
  import opened Prelude
  import opened Gc

  type Device = string

  /** One completed phase: who ran it, when, which chunks it saw referenced, which present,
      and which under intent. `first` tells phase 1 from phase 2. */
  datatype Observation = Observation(dev: Device, at: int, first: bool, live: set<Id>, present: set<Id>, marked: set<Id>)

  datatype World = World(now: int, refs: Refs, chunks: Chunks, intents: Intents,
                         seen: map<Device, Seen>, history: seq<Observation>)

  datatype Action =
    | Tick(to: int)
    | Outside(refs: Refs, chunks: Chunks, intents: Intents)
    | First(dev: Device)
    | FirstCut(dev: Device, left: View)
    | Second(dev: Device, fence: int)
    | SecondCut(dev: Device, fence: int, left: View)

  function SeenBy(w: World, d: Device): Seen { if d in w.seen then w.seen[d] else map[] }

  function ViewOf(w: World, d: Device): View { View(w.chunks, w.intents, SeenBy(w, d)) }

  function Put(w: World, d: Device, v: View, history: seq<Observation>): World {
    World(w.now, w.refs, v.chunks, v.intents, w.seen[d := v.seen], history)
  }

  ghost predicate WorldWf(w: World) { Wf(View(w.chunks, w.intents, map[])) }

  ghost predicate Step(w: World, a: Action, w': World)
    requires WorldWf(w)
  {
    match a
    case Tick(to) => w.now <= to && w' == w.(now := to)
    case Outside(refs, chunks, intents) =>
      && Wf(View(chunks, intents, map[]))
      && w' == w.(refs := refs, chunks := chunks, intents := intents)
    case First(d) =>
      var v := ViewOf(w, d);
      w' == Put(w, d, Phase1(v, Live(w.refs), w.now),
                w.history + [Observation(d, w.now, true, Live(w.refs), w.chunks.Keys, w.intents.Keys)])
    case FirstCut(d, left) => Phase1Cut(ViewOf(w, d), left, w.now) && w' == Put(w, d, left, w.history)
    case Second(d, fence) =>
      var v := ViewOf(w, d);
      w' == Put(w, d, Phase2(v, Live(w.refs), w.now, EffectiveFence(fence)),
                w.history + [Observation(d, w.now, false, Live(w.refs) * w.chunks.Keys, w.chunks.Keys, w.intents.Keys)])
    case SecondCut(d, fence, left) =>
      && Phase2Cut(ViewOf(w, d), left, Live(w.refs), w.now, EffectiveFence(fence))
      && w' == Put(w, d, left, w.history)
  }

  ghost predicate Follows(w: World, w': World) { WorldWf(w) && exists a :: Step(w, a, w') }

  /** No intent file turns up that is older than some sighting of a reference to its chunk: no late
      sync brings back one that a device has cancelled since. */
  ghost predicate Timely(w: World, w': World) {
    forall id, r, i :: (id in w'.intents && Some(r) in w'.intents[id] && !(id in w.intents && Some(r) in w.intents[id])
                        && 0 <= i < |w.history| && id in w.history[i].live) ==> w.history[i].at <= r
  }

  ghost predicate AllTimely(run: seq<World>) { forall i :: 0 < i < |run| ==> Timely(run[i - 1], run[i]) }

  /** A history may start on any disk; no device has a first-seen record yet. */
  ghost predicate IsRun(run: seq<World>) {
    && run != []
    && WorldWf(run[0]) && run[0].seen == map[] && run[0].history == []
    && forall i :: 0 < i < |run| ==> Follows(run[i - 1], run[i])
  }

  // ---- The invariant ----

  /** Whoever saw a chunk referenced did so no later than the time on any intent it still has. */
  ghost predicate IntentsYoung(w: World) {
    forall id, r, i :: (id in w.intents && Some(r) in w.intents[id] && 0 <= i < |w.history| && id in w.history[i].live) ==>
                         w.history[i].at <= r
  }

  /** A confirm run of d at time t found the chunk present, unreferenced and under intent. */
  ghost predicate Witnessed(w: World, d: Device, id: Id, t: int) {
    exists i :: 0 <= i < |w.history|
                && var o := w.history[i];
                o.dev == d && o.at == t && o.first && id in o.present && id !in o.live && id in o.marked
  }

  ghost predicate SeenWitnessed(w: World) {
    forall d, id :: id in SeenBy(w, d) && SeenBy(w, d)[id].Some? ==> Witnessed(w, d, id, SeenBy(w, d)[id].value)
  }

  ghost predicate PastOnly(w: World) { forall i :: 0 <= i < |w.history| ==> w.history[i].at <= w.now }

  ghost predicate Inv(w: World) { WorldWf(w) && SeenWitnessed(w) && PastOnly(w) }

  lemma WitnessedLater(w: World, w': World, d: Device, id: Id, t: int)
    requires Witnessed(w, d, id, t) && w.history <= w'.history
    ensures Witnessed(w', d, id, t)
  {
    var i :| 0 <= i < |w.history|
             && var o := w.history[i];
             o.dev == d && o.at == t && o.first && id in o.present && id !in o.live && id in o.marked;
    assert w'.history[i] == w.history[i];
  }

  lemma FirstKeeps(w: World, d: Device, w': World)
    requires Inv(w) && Step(w, First(d), w')
    ensures Inv(w')
  {
    forall e, id | id in SeenBy(w', e) && SeenBy(w', e)[id].Some? ensures Witnessed(w', e, id, SeenBy(w', e)[id].value) {
      if e == d && id !in SeenBy(w, d) {
        assert w'.history[|w.history|] == Last(w'.history);
      } else {
        WitnessedLater(w, w', e, id, SeenBy(w, e)[id].value);
      }
    }
  }

  /** Nothing else adds to a first-seen record. */
  lemma ElsewhereKeeps(w: World, w': World)
    requires Inv(w) && WorldWf(w') && PastOnly(w') && w.history <= w'.history
    requires forall e, id :: id in SeenBy(w', e) ==> id in SeenBy(w, e) && SeenBy(w', e)[id] == SeenBy(w, e)[id]
    ensures Inv(w')
  {
    forall e, id | id in SeenBy(w', e) && SeenBy(w', e)[id].Some? ensures Witnessed(w', e, id, SeenBy(w', e)[id].value) {
      WitnessedLater(w, w', e, id, SeenBy(w, e)[id].value);
    }
  }

  lemma StepKeeps(w: World, a: Action, w': World)
    requires Inv(w) && Step(w, a, w')
    ensures Inv(w') && (!a.Outside? ==> Timely(w, w'))
  {
    hide Doomed;
    if a.First? {
      FirstKeeps(w, a.dev, w');
    } else {
      ElsewhereKeeps(w, w');
    }
  }

  /** An intent is dated after every sighting of a reference to its chunk, as long as no stale one
      turns up: the sightings of a phase cancel what intents there are. */
  lemma YoungStays(w: World, a: Action, w': World)
    requires Inv(w) && IntentsYoung(w) && Step(w, a, w') && Timely(w, w')
    ensures IntentsYoung(w')
  {
    hide Doomed;
    hide SeenWitnessed;
    forall id, r, i | id in w'.intents && Some(r) in w'.intents[id] && 0 <= i < |w'.history| && id in w'.history[i].live
      ensures w'.history[i].at <= r
    {
      if i < |w.history| {
        assert w'.history[i] == w.history[i];
      }
    }
  }

  lemma {:induction false} RunKeeps(run: seq<World>, n: nat)
    requires IsRun(run) && n < |run|
    ensures Inv(run[n]) && (AllTimely(run) ==> IntentsYoung(run[n]))
  {
    if n > 0 {
      RunKeeps(run, n - 1);
      assert Follows(run[n - 1], run[n]);
      var a :| Step(run[n - 1], a, run[n]);
      hide Step;
      hide IntentsYoung;
      StepKeeps(run[n - 1], a, run[n]);
      if AllTimely(run) {
        YoungStays(run[n - 1], a, run[n]);
      }
    }
  }

  /** Phase 2 of d, complete or not, took a copy of the chunk away. */
  ghost predicate Collects(w: World, a: Action, w': World, d: Device, fence: int, id: Id)
    requires WorldWf(w)
  {
    && (a == Second(d, fence) || (a.SecondCut? && a.dev == d && a.fence == fence)) && Step(w, a, w')
    && id in w.chunks && (id !in w'.chunks || w'.chunks[id] != w.chunks[id])
  }

  /** Collection is safe. When a confirm run of d takes a chunk at time t: nothing refers to it;
      every copy is at least the fence old; d itself, at least the fence ago, found it present,
      unreferenced and already marked; and, as long as no sync has brought back a cancelled intent,
      no phase completed by any device less than the fence ago saw it referenced. */
  lemma CollectionIsSafe(run: seq<World>, n: nat, a: Action, d: Device, fence: int, id: Id)
    requires IsRun(run) && n + 1 < |run| && WorldWf(run[n]) && Collects(run[n], a, run[n + 1], d, fence, id)
    ensures var w, f := run[n], EffectiveFence(fence);
            && id !in Live(w.refs)
            && (forall m :: m in w.chunks[id] ==> m <= w.now - f)
            && (AllTimely(run) ==> forall i :: 0 <= i < |w.history| && id in w.history[i].live ==> w.history[i].at <= w.now - f)
            && (exists t :: t <= w.now - f && Witnessed(w, d, id, t))
  {
    RunKeeps(run, n);
    var w, f := run[n], EffectiveFence(fence);
    var v := ViewOf(w, d);
    assert Doomed(v, Live(w.refs), w.now, f, id);
    assert Witnessed(w, d, id, v.seen[id].value);
  }

  // ---- Where a cancelled intent comes back ----

  const FREE: Refs := map[]

  function Used(c: Id): Refs { map["f" := {c}] }

  function Chunk(c: Id): Chunks { map[c := [0]] }

  function Intent(c: Id): Intents { map[c := [Some(0)]] }

  function OnlyA(c: Id): map<Device, Seen> { map["A" := map[c := Some(0)]] }

  function Both(c: Id): map<Device, Seen> { map["A" := map[c := Some(0)], "B" := map[]] }

  function ByA(c: Id): Observation { Observation("A", 0, true, {}, {c}, {c}) }

  function ByB(c: Id): Observation { Observation("B", 1, true, {c}, {c}, {c}) }

  function Taken(c: Id): Observation { Observation("A", HOUR, false, {}, {c}, {c}) }

  /** B sees the chunk referenced and cancels its intent; a late sync restores the file, with the
      date it had, after the reference is gone again. A's own record is old enough by then. */
  function Restored(c: Id): seq<World> {
    [World(0, FREE, Chunk(c), Intent(c), map[], []),
     World(0, FREE, Chunk(c), Intent(c), OnlyA(c), [ByA(c)]),
     World(1, FREE, Chunk(c), Intent(c), OnlyA(c), [ByA(c)]),
     World(1, Used(c), Chunk(c), Intent(c), OnlyA(c), [ByA(c)]),
     World(1, Used(c), Chunk(c), map[], Both(c), [ByA(c), ByB(c)]),
     World(1, FREE, Chunk(c), Intent(c), Both(c), [ByA(c), ByB(c)]),
     World(HOUR, FREE, Chunk(c), Intent(c), Both(c), [ByA(c), ByB(c)]),
     World(HOUR, FREE, map[], map[], map["A" := map[], "B" := map[]], [ByA(c), ByB(c), Taken(c)])]
  }

  lemma Lives(c: Id)
    ensures Live(FREE) == {} && Live(Used(c)) == {c}
  {
    assert "f" in Used(c) && Used(c)["f"] == {c};
  }

  lemma AMarks(c: Id)
    ensures Step(Restored(c)[0], First("A"), Restored(c)[1])
  {
    Lives(c);
    var w := Restored(c)[0];
    var v := ViewOf(w, "A");
    hide Live;
    var u := Phase1(v, {}, 0);
    assert u.intents == Intent(c) && u.seen == map[c := Some(0)];
    assert w.seen["A" := u.seen] == OnlyA(c);
    assert w.chunks.Keys == {c} && w.intents.Keys == {c};
    assert w.history + [ByA(c)] == [ByA(c)];
  }

  lemma BCancels(c: Id)
    ensures Step(Restored(c)[3], First("B"), Restored(c)[4])
  {
    Lives(c);
    var w := Restored(c)[3];
    var v := ViewOf(w, "B");
    hide Live;
    var u := Phase1(v, {c}, 1);
    assert u.intents == map[] && u.seen == map[];
    assert w.seen["B" := u.seen] == Both(c);
    assert w.chunks.Keys == {c} && w.intents.Keys == {c};
    assert w.history + [ByB(c)] == [ByA(c), ByB(c)];
  }

  lemma ATakes(c: Id)
    ensures Step(Restored(c)[6], Second("A", HOUR), Restored(c)[7])
  {
    Lives(c);
    var w := Restored(c)[6];
    var v := ViewOf(w, "A");
    hide Live;
    AllAged(v, c);
    var u := Phase2(v, {}, HOUR, HOUR);
    assert w.seen["A" := u.seen] == map["A" := map[], "B" := map[]];
    assert w.chunks.Keys == {c} && w.intents.Keys == {c} && {} * w.chunks.Keys == {};
    assert w.history + [Taken(c)] == [ByA(c), ByB(c), Taken(c)];
  }

  lemma AllAged(v: View, c: Id)
    requires v.chunks == Chunk(c) && v.intents == Intent(c) && v.seen == map[c := Some(0)]
    ensures Wf(v) && Phase2(v, {}, HOUR, HOUR) == View(map[], map[], map[])
  {
    assert OldestTime([Some(0)]) == Some(0) by {
      assert Init([Some(0)]) == [];
    }
    assert NewestMtime([0]) == 0;
    assert Doomed(v, {}, HOUR, HOUR, c);
    var u := Phase2(v, {}, HOUR, HOUR);
    assert u.chunks == map[] && u.intents == map[] && u.seen == map[];
  }

  /** Then the chunk is taken less than the fence after B saw it referenced. */
  lemma RestoredIntentBreaksIt(c: Id)
    ensures var run := Restored(c);
            && IsRun(run) && WorldWf(run[6]) && Collects(run[6], Second("A", HOUR), run[7], "A", HOUR, c)
            && !AllTimely(run)
            && c in run[6].history[1].live && run[6].history[1].at > run[6].now - EffectiveFence(HOUR)
  {
    var run := Restored(c);
    AMarks(c);
    BCancels(c);
    ATakes(c);
    IntentComesBack(c);
    forall i | 0 < i < |run| ensures Follows(run[i - 1], run[i]) {
      RestoredFollows(c, i);
    }
    hide Follows;
    hide Step;
  }

  lemma RestoredFollows(c: Id, i: nat)
    requires 0 < i < |Restored(c)|
    ensures Follows(Restored(c)[i - 1], Restored(c)[i])
  {
    var w, w' := Restored(c)[i - 1], Restored(c)[i];
    AMarks(c);
    BCancels(c);
    ATakes(c);
    var a := if i == 1 then First("A") else if i == 4 then First("B") else if i == 7 then Second("A", HOUR)
             else if i == 3 || i == 5 then Outside(w'.refs, w'.chunks, w'.intents) else Tick(w'.now);
    assert WorldWf(w);
    hide Live;
    hide Phase1;
    hide Phase2;
    assert Step(w, a, w');
  }

  lemma IntentComesBack(c: Id)
    ensures !AllTimely(Restored(c))
  {
    var w, w' := Restored(c)[4], Restored(c)[5];
    assert c in w'.intents && Some(0) in w'.intents[c] && c !in w.intents && c in w.history[1].live;
    assert !Timely(w, w');
  }

  // ---- One run ----

  /** After an undisturbed run, from any disk at all, the intents name exactly the unreferenced
      chunks still present, and every referenced chunk is as it was. */
  lemma ConfirmPostcondition(v: View, live: set<Id>, t1: int, t2: int, fence: int)
    requires Wf(v)
    ensures var r := Confirm(v, live, t1, t2, fence);
            && r.intents.Keys == r.chunks.Keys - live
            && (forall id :: id in live && id in v.chunks ==> id in r.chunks)
            && (forall id :: id in r.chunks ==> id in v.chunks && r.chunks[id] == v.chunks[id])
  {
    var p := Phase1(v, live, t1);
    var r := Confirm(v, live, t1, t2, fence);
    forall id | id in r.chunks && id !in live ensures id in r.intents {
      assert id in p.intents;
    }
  }

  // ---- Progress, and when there is none ----

  datatype Run = Run(live: set<Id>, t1: int, t2: int, fence: int)

  /** Consecutive undisturbed runs of one device. */
  function Runs(v: View, rs: seq<Run>): (r: View)
    requires Wf(v)
    ensures Wf(r)
    decreases |rs|
  {
    if rs == [] then v else
    var u := Runs(v, Init(rs));
    Confirm(u, Last(rs).live, Last(rs).t1, Last(rs).t2, Last(rs).fence)
  }

  /** Both records that bear on the chunk can be read, as far as they exist. */
  ghost predicate Readable(v: View, id: Id) {
    && (id in v.intents ==> OldestTime(v.intents[id]).Some?)
    && (id in v.seen ==> v.seen[id].Some?)
  }

  ghost predicate DatedBy(v: View, id: Id, t: int) {
    && (id in v.intents && OldestTime(v.intents[id]).Some? ==> OldestTime(v.intents[id]).value <= t)
    && (id in v.seen && v.seen[id].Some? ==> v.seen[id].value <= t)
  }

  /** The two worlds agree about this chunk, whatever happened to the others. */
  ghost predicate SameAt(v: View, w: View, id: Id) {
    && (id in v.chunks <==> id in w.chunks) && (id in v.chunks ==> v.chunks[id] == w.chunks[id])
    && (id in v.intents <==> id in w.intents) && (id in v.intents ==> v.intents[id] == w.intents[id])
    && (id in v.seen <==> id in w.seen) && (id in v.seen ==> v.seen[id] == w.seen[id])
  }

  /** One run over an unreferenced chunk it does not collect leaves it marked and dated. */
  lemma OneRun(v: View, r: Run, id: Id, t: int)
    requires Wf(v) && id in v.chunks && id !in r.live && Readable(v, id) && DatedBy(v, id, t) && r.t1 <= t
    ensures var u := Confirm(v, r.live, r.t1, r.t2, r.fence);
            id in u.chunks ==>
              && u.chunks[id] == v.chunks[id]
              && id in u.intents && Readable(u, id) && DatedBy(u, id, t)
              && (id in v.intents ==> id in u.seen)
  {
    assert OldestTime([Some(r.t1)]) == Some(r.t1) by {
      assert Init([Some(r.t1)]) == [];
    }
    var p := Phase1(v, r.live, r.t1);
    hide Doomed;
  }

  /** A chunk that stays unreferenced and old is gone after three runs, the first two at t or
      before and the third at least the fence later; the rest of the store may change freely
      in between. */
  lemma Progress(v1: View, r1: Run, v2: View, r2: Run, v3: View, r3: Run, id: Id, t: int)
    requires Wf(v1) && Wf(v2) && Wf(v3) && id in v1.chunks
    requires id !in r1.live && id !in r2.live && id !in r3.live
    requires Readable(v1, id) && DatedBy(v1, id, t) && r1.t1 <= t && r2.t1 <= t && r3.t1 <= r3.t2 && t + r3.fence <= r3.t2
    requires r3.t2 - NewestMtime(v1.chunks[id]) >= r3.fence
    requires SameAt(Confirm(v1, r1.live, r1.t1, r1.t2, r1.fence), v2, id)
    requires SameAt(Confirm(v2, r2.live, r2.t1, r2.t2, r2.fence), v3, id)
    ensures id !in Confirm(v3, r3.live, r3.t1, r3.t2, r3.fence).chunks
  {
    OneRun(v1, r1, id, t);
    if id in v2.chunks {
      OneRun(v2, r2, id, t);
      if id in v3.chunks {
        var p := Phase1(v3, r3.live, r3.t1);
        assert Doomed(p, r3.live, r3.t2, r3.fence, id);
      }
    }
  }

  /** A run that finds a marked chunk referenced forgets it, intent and first-seen entry both. */
  lemma ReferenceCancels(v: View, r: Run, id: Id)
    requires Wf(v) && id in v.chunks && id in v.intents && id in r.live
    ensures var u := Confirm(v, r.live, r.t1, r.t2, r.fence);
            id in u.chunks && u.chunks[id] == v.chunks[id] && id !in u.intents && id !in u.seen
  {
  }

  /** So marking starts over: neither of the next two runs collects the chunk unless the fence passes
      within the run itself, however old chunk and records were before. */
  lemma CancelRestarts(v1: View, r1: Run, v2: View, r2: Run, v3: View, r3: Run, id: Id)
    requires Wf(v1) && Wf(v2) && Wf(v3) && id in v1.chunks && id in v1.intents && id in r1.live
    requires id !in r2.live && id !in r3.live && r2.t2 - r2.t1 < r2.fence && r3.t2 - r3.t1 < r3.fence
    requires SameAt(Confirm(v1, r1.live, r1.t1, r1.t2, r1.fence), v2, id)
    requires SameAt(Confirm(v2, r2.live, r2.t1, r2.t2, r2.fence), v3, id)
    ensures id in Confirm(v2, r2.live, r2.t1, r2.t2, r2.fence).chunks && id in Confirm(v3, r3.live, r3.t1, r3.t2, r3.fence).chunks
  {
    ReferenceCancels(v1, r1, id);
    FirstMark(v2, r2, id);
    var p := Phase1(v3, r3.live, r3.t1);
    assert p.seen[id] == Some(r3.t1);
    assert !Doomed(p, r3.live, r3.t2, r3.fence, id);
    hide Doomed;
  }

  /** A run over a chunk without records marks it, and collects nothing. */
  lemma FirstMark(v: View, r: Run, id: Id)
    requires Wf(v) && id in v.chunks && id !in v.intents && id !in v.seen && id !in r.live && r.t2 - r.t1 < r.fence
    ensures var u := Confirm(v, r.live, r.t1, r.t2, r.fence);
            id in u.chunks && u.chunks[id] == v.chunks[id] && id in u.intents && u.intents[id] == [Some(r.t1)] && id !in u.seen
  {
    var p := Phase1(v, r.live, r.t1);
    assert OldestTime([Some(r.t1)]) == Some(r.t1) by {
      assert Init([Some(r.t1)]) == [];
    }
    assert !Doomed(p, r.live, r.t2, r.fence, id);
    hide Doomed;
  }

  /** A collected chunk leaves no record behind, so that one with the same name starts afresh. */
  lemma CollectedIsForgotten(v: View, r: Run, id: Id)
    requires Wf(v) && id in v.chunks && id !in Confirm(v, r.live, r.t1, r.t2, r.fence).chunks
    ensures var u := Confirm(v, r.live, r.t1, r.t2, r.fence); id !in u.intents && id !in u.seen
  {
  }

  /** Runs that never see the chunk referenced, all with one fence. */
  ghost predicate Idle(rs: seq<Run>, id: Id, fence: int) {
    forall i :: 0 <= i < |rs| ==> id !in rs[i].live && rs[i].t1 <= rs[i].t2 && rs[i].fence == fence
  }

  /** A chunk with an unreadable intent, or an unreadable first-seen entry, is never collected. */
  lemma {:induction false} UnreadableIsStuck(v: View, rs: seq<Run>, id: Id)
    requires Wf(v) && id in v.chunks && !Readable(v, id)
    requires forall i :: 0 <= i < |rs| ==> id !in rs[i].live
    ensures var r := Runs(v, rs); id in r.chunks && r.chunks[id] == v.chunks[id] && !Readable(r, id)
    decreases |rs|
  {
    if rs != [] {
      UnreadableIsStuck(v, Init(rs), id);
      var u := Runs(v, Init(rs));
      assert id !in Last(rs).live;
      assert !Doomed(Phase1(u, Last(rs).live, Last(rs).t1), Last(rs).live, Last(rs).t2, Last(rs).fence, id);
    }
  }

  function After(v: View, r: Run): (u: View)
    requires Wf(v)
    ensures Wf(u)
  {
    Confirm(v, r.live, r.t1, r.t2, r.fence)
  }

  lemma RunsOfThree(v: View, r1: Run, r2: Run, r3: Run)
    requires Wf(v)
    ensures Runs(v, [r1, r2, r3]) == After(After(After(v, r1), r2), r3)
  {
    hide Confirm;
    assert Init([r1]) == [] && Runs(v, [r1]) == After(v, r1);
    assert Init([r1, r2]) == [r1] && Runs(v, [r1, r2]) == After(After(v, r1), r2);
    assert Init([r1, r2, r3]) == [r1, r2];
  }

  lemma LastDate(v: View, id: Id) returns (t: int)
    ensures DatedBy(v, id, t)
  {
    t := Max(if id in v.intents && OldestTime(v.intents[id]).Some? then OldestTime(v.intents[id]).value else 0,
             if id in v.seen && v.seen[id].Some? then v.seen[id].value else 0);
  }

  lemma ThreeRuns(v: View, id: Id, fence: int) returns (rs: seq<Run>)
    requires Wf(v) && id in v.chunks && Readable(v, id)
    ensures Idle(rs, id, fence) && id !in Runs(v, rs).chunks
  {
    var t := LastDate(v, id);
    hide Confirm;
    hide DatedBy;
    hide Readable;
    var t3 := Max(Max(t, t + fence), NewestMtime(v.chunks[id]) + fence);
    var r1, r3 := Run({}, t, t, fence), Run({}, t3, t3, fence);
    RunsOfThree(v, r1, r1, r3);
    hide Runs;
    Progress(v, r1, After(v, r1), r1, After(After(v, r1), r1), r3, id, t);
    rs := [r1, r1, r3];
  }

  /** So an unreferenced chunk can be collected at all exactly when its records are readable. */
  lemma CollectableExactly(v: View, id: Id, fence: int)
    requires Wf(v) && id in v.chunks
    ensures Readable(v, id) <==> exists rs :: Idle(rs, id, fence) && id !in Runs(v, rs).chunks
  {
    hide Runs;
    if Readable(v, id) {
      var rs := ThreeRuns(v, id, fence);
    } else {
      forall rs | Idle(rs, id, fence) ensures id in Runs(v, rs).chunks {
        UnreadableIsStuck(v, rs, id);
      }
    }
  }
}
