/** Vector clocks and their ageing along the histories of writes by several devices. */
module Clocks {
  import opened Prelude
  import opened Manifests

  /** A foreign entry is dropped by the write that would bring its age to this. */
  const HORIZON := 8

  type Ages = map<Device, int>

  datatype Stamped = Stamped(clock: Clock, age: Ages)

  const BLANK := Stamped(map[], map[])

  function AgeOf(a: Ages, k: Device): int { if k in a then a[k] else 0 }

  // ---- One write ----

  /** The positive entries: a join with the empty clock. */
  function Joined(c: Clock): Clock { c - (set k | k in c && c[k] <= 0) }

  function OwnCounter(c: Clock, dev: Device, wallNano: int): int { Max(At(Joined(c), dev), wallNano) + 1 }

  /** The foreign entries that live through one more write. */
  predicate Outlives(base: Stamped, dev: Device, k: Device) {
    k in Joined(base.clock) && k != dev && AgeOf(base.age, k) + 1 < HORIZON
  }

  function Aged(base: Stamped, dev: Device): Clock {
    base.clock - (set k | k in base.clock && !Outlives(base, dev, k))
  }

  function AgeAfter(base: Stamped, dev: Device, k: Device): int {
    if Outlives(base, dev, k) then AgeOf(base.age, k) + 1 else 0
  }

  function AgesAfter(base: Stamped, dev: Device): Ages {
    map k | k in base.clock && Outlives(base, dev, k) :: AgeAfter(base, dev, k)
  }

  /** The record clock of a write by a device over a base. */
  function Next(base: Stamped, dev: Device, wallNano: int): Stamped {
    Stamped(Aged(base, dev)[dev := OwnCounter(base.clock, dev, wallNano)], AgesAfter(base, dev))
  }

  /** Element-wise maximum, in place on dst. */
  method JoinClock(dst: Clock, src: Clock) returns (out: Clock)
    ensures forall k :: k in out <==> k in dst || (k in src && src[k] > 0)
    ensures forall k :: k in out ==> out[k] == if k in src && src[k] > At(dst, k) then src[k] else dst[k]
    ensures dst == map[] ==> out == Joined(src)
  {
    out := dst;
    var todo := src.Keys;
    while todo != {}
      invariant todo <= src.Keys
      invariant forall k :: k in out <==> k in dst || (k in src.Keys - todo && src[k] > At(dst, k))
      invariant forall k :: k in out ==> out[k] == if k in src.Keys - todo && src[k] > At(dst, k) then src[k] else dst[k]
    {
      var k :| k in todo;
      todo := todo - {k};
      if src[k] > At(out, k) {
        out := out[k := src[k]];
      }
    }
  }

  /** The clock of a local write: the base joined, the own entry bumped, the others aged. */
  method NextRecordClock(deviceID: Device, cur: Option<Stamped>, wallNano: int) returns (seen: Clock, age: Ages)
    ensures deviceID == "" ==> seen == map[] && age == map[]
    ensures deviceID != "" ==> Stamped(seen, age) == Next(if cur.Some? then cur.value else BLANK, deviceID, wallNano)
  {
    seen, age := map[], map[];
    if deviceID == "" {
      return;
    }
    ghost var base := if cur.Some? then cur.value else BLANK;
    var prevAge: Ages := map[];
    if cur.Some? {
      seen := JoinClock(seen, cur.value.clock);
      prevAge := cur.value.age;
    }
    assert seen == Joined(base.clock);
    var own := At(seen, deviceID);
    if wallNano > own {
      own := wallNano;
    }
    own := own + 1;
    seen := seen[deviceID := own];
    ghost var full := seen;
    var todo := seen.Keys;
    AgeingStarts(base, deviceID, full);
    hide *;
    while todo != {}
      invariant todo <= full.Keys
      invariant AgedBut(base, deviceID, full, todo, seen, age)
    {
      var k :| k in todo;
      AgeingStep(base, deviceID, full, todo, seen, age, k);
      todo := todo - {k};
      if k == deviceID {
        continue;
      }
      var a := AgeOf(prevAge, k) + 1;
      if a >= HORIZON {
        seen := seen - {k};
        continue;
      }
      age := age[k := a];
    }
    AgeingEnds(base, deviceID, wallNano, full, seen, age);
  }

  /** The clock and ages while the ageing loop has yet to visit `todo`. */
  ghost predicate AgedBut(base: Stamped, dev: Device, full: Clock, todo: set<Device>, seen: Clock, age: Ages) {
    && dev in full && full - {dev} == Joined(base.clock) - {dev}
    && seen == full - (set k | k in full && k !in todo && k != dev && !Outlives(base, dev, k))
    && (forall k :: k in age <==> k in full && k !in todo && Outlives(base, dev, k))
    && (forall k :: k in age ==> age[k] == AgeOf(base.age, k) + 1)
  }

  lemma AgeingStarts(base: Stamped, dev: Device, full: Clock)
    requires dev in full && full - {dev} == Joined(base.clock) - {dev}
    ensures AgedBut(base, dev, full, full.Keys, full, map[])
  {
  }

  lemma AgeingStep(base: Stamped, dev: Device, full: Clock, todo: set<Device>, seen: Clock, age: Ages, k: Device)
    requires AgedBut(base, dev, full, todo, seen, age) && k in todo && todo <= full.Keys
    ensures var a := AgeOf(base.age, k) + 1;
            if k == dev then AgedBut(base, dev, full, todo - {k}, seen, age)
            else if a >= HORIZON then AgedBut(base, dev, full, todo - {k}, seen - {k}, age)
            else AgedBut(base, dev, full, todo - {k}, seen, age[k := a])
  {
    assert k != dev ==> k in full - {dev};
  }

  lemma AgeingEnds(base: Stamped, dev: Device, wallNano: int, full: Clock, seen: Clock, age: Ages)
    requires AgedBut(base, dev, full, {}, seen, age) && full[dev] == OwnCounter(base.clock, dev, wallNano)
    ensures Stamped(seen, age) == Next(base, dev, wallNano)
  {
    forall k | k != dev
      ensures k in full <==> k in Joined(base.clock)
      ensures k in full ==> full[k] == base.clock[k]
    {
      assert k in full <==> k in full - {dev};
      assert k in full ==> (full - {dev})[k] == (Joined(base.clock) - {dev})[k];
    }
    assert seen == Aged(base, dev)[dev := full[dev]];
    assert age == AgesAfter(base, dev);
  }

  /** The clock of a tombstone: the join and the bump without the ageing, so that it always
      dominates the record it deletes. */
  method AdvanceClock(deviceID: Device, prev: Clock, wallNano: int) returns (next: Clock)
    ensures deviceID == "" ==> next == map[]
    ensures deviceID != "" ==> next == Joined(prev)[deviceID := OwnCounter(prev, deviceID, wallNano)]
    ensures deviceID != "" ==> ClockOk(next) && (Dominates(next, prev) <==> prev != map[])
  {
    if deviceID == "" {
      return map[];
    }
    next := JoinClock(map[], prev);
    var own := At(next, deviceID);
    if wallNano > own {
      own := wallNano;
    }
    own := own + 1;
    next := next[deviceID := own];
    assert At(next, deviceID) > At(prev, deviceID);
  }

  /** A write supersedes its own base exactly when no live entry of the base ages out in it. */
  lemma NextDominatesBaseExactly(base: Stamped, dev: Device, wallNano: int)
    ensures Dominates(Next(base, dev, wallNano).clock, base.clock) <==>
            base.clock != map[] && forall k :: k in base.clock && k != dev && base.clock[k] > 0 ==> AgeOf(base.age, k) < 7
  {
    var next := Next(base, dev, wallNano).clock;
    assert At(next, dev) > At(base.clock, dev) && next[dev] > 0;
    forall k | k in base.clock && k != dev && base.clock[k] > 0
      ensures At(next, k) >= base.clock[k] <==> AgeOf(base.age, k) + 1 < HORIZON
    {
      assert k in Joined(base.clock);
    }
  }

  // ---- Histories ----

  /** A write by a device over the record it had at the path, if any. */
  datatype Write = Write(dev: Device, wall: int, base: Option<nat>)

  /** Every device has an id, and a base is written before what builds on it. Two writes may
      share a base: those are forks. */
  ghost predicate HistoryOk(h: seq<Write>) {
    forall i :: 0 <= i < |h| ==> h[i].dev != "" && (h[i].base.Some? ==> h[i].base.value < i)
  }

  /** The record that write i leaves. */
  ghost function Rec(h: seq<Write>, i: nat): Stamped
    requires HistoryOk(h) && i < |h|
  {
    Next(if h[i].base.Some? then Rec(h, h[i].base.value) else BLANK, h[i].dev, h[i].wall)
  }

  ghost predicate OnLineage(h: seq<Write>, i: nat, a: nat)
    requires HistoryOk(h) && i < |h|
  {
    a == i || (h[i].base.Some? && OnLineage(h, h[i].base.value, a))
  }

  /** The last write by k on the lineage of i. */
  ghost function LastBy(h: seq<Write>, i: nat, k: Device): (l: Option<nat>)
    requires HistoryOk(h) && i < |h|
    ensures l.Some? ==> l.value <= i && h[l.value].dev == k && OnLineage(h, i, l.value)
  {
    if h[i].dev == k then Some(i) else if h[i].base.Some? then LastBy(h, h[i].base.value, k) else None
  }

  /** How many writes on the lineage of i follow the last one by k. */
  ghost function Since(h: seq<Write>, i: nat, k: Device): nat
    requires HistoryOk(h) && i < |h|
  {
    if h[i].dev == k then 0 else 1 + if h[i].base.Some? then Since(h, h[i].base.value, k) else 0
  }

  ghost function Minted(h: seq<Write>, i: nat): int
    requires HistoryOk(h) && i < |h|
  {
    Rec(h, i).clock[h[i].dev]
  }

  /** A record knows k exactly while k's last write lies fewer than eight writes back on its
      lineage; the entry is the counter k minted there, and its age is that distance. */
  lemma {:induction false} AgeCountsWrites(h: seq<Write>, i: nat, k: Device)
    requires HistoryOk(h) && i < |h|
    ensures k in Rec(h, i).clock <==> LastBy(h, i, k).Some? && Since(h, i, k) < 8
    ensures k in Rec(h, i).clock ==>
              && AgeOf(Rec(h, i).age, k) == Since(h, i, k)
              && Rec(h, i).clock[k] == Minted(h, LastBy(h, i, k).value) > 0
    ensures k in Rec(h, i).age <==> k in Rec(h, i).clock && k != h[i].dev
  {
    if h[i].base.Some? {
      AgeCountsWrites(h, h[i].base.value, k);
    }
  }

  /** The writer's own entry is ahead of its base and of its wall clock. */
  lemma OwnEntryLeads(h: seq<Write>, i: nat)
    requires HistoryOk(h) && i < |h|
    ensures Minted(h, i) > h[i].wall && Minted(h, i) > 0
    ensures h[i].base.Some? ==> Minted(h, i) > At(Rec(h, h[i].base.value).clock, h[i].dev)
    ensures Minted(h, i) == h[i].wall + 1 || (h[i].base.Some? && Minted(h, i) == At(Rec(h, h[i].base.value).clock, h[i].dev) + 1)
            || Minted(h, i) == 1
  {
    if h[i].base.Some? {
      AgeCountsWrites(h, h[i].base.value, h[i].dev);
    }
  }

  lemma RecordClockOk(h: seq<Write>, i: nat)
    requires HistoryOk(h) && i < |h|
    ensures ClockOk(Rec(h, i).clock) && Rec(h, i).clock != map[]
  {
    forall k | k in Rec(h, i).clock ensures Rec(h, i).clock[k] > 0 {
      AgeCountsWrites(h, i, k);
    }
    assert h[i].dev in Rec(h, i).clock;
  }

  /** Dropping entries forges no dominance: a record dominates a write only if its own history
      holds a write by the same device with at least that counter. */
  lemma NoForgedDominance(h: seq<Write>, i: nat, j: nat)
    requires HistoryOk(h) && i < |h| && j < |h| && Dominates(Rec(h, j).clock, Rec(h, i).clock)
    ensures LastBy(h, j, h[i].dev).Some? && Minted(h, LastBy(h, j, h[i].dev).value) >= Minted(h, i)
  {
    var k := h[i].dev;
    assert k in Rec(h, i).clock;
    RecordClockOk(h, i);
    assert At(Rec(h, j).clock, k) >= Rec(h, i).clock[k];
    AgeCountsWrites(h, j, k);
  }

  /** A clock never has more entries than the horizon. */
  lemma ClockIsBounded(h: seq<Write>, i: nat)
    requires HistoryOk(h) && i < |h|
    ensures |Rec(h, i).clock| <= 8
  {
    var ks := Rec(h, i).clock.Keys;
    forall k | k in ks ensures Since(h, i, k) < HORIZON && LastBy(h, i, k).Some? {
      AgeCountsWrites(h, i, k);
    }
    forall k, l | k in ks && l in ks && Since(h, i, k) == Since(h, i, l) ensures k == l {
      SinceIsInjective(h, i, k, l);
    }
    FewKeys(h, i, ks, HORIZON);
  }

  lemma {:induction false} SinceIsInjective(h: seq<Write>, i: nat, k: Device, l: Device)
    requires HistoryOk(h) && i < |h| && LastBy(h, i, k).Some? && LastBy(h, i, l).Some?
    requires Since(h, i, k) == Since(h, i, l)
    ensures k == l
  {
    if h[i].dev != k && h[i].dev != l {
      SinceIsInjective(h, h[i].base.value, k, l);
    }
  }

  lemma {:induction false} FewKeys(h: seq<Write>, i: nat, ks: set<Device>, n: nat)
    requires HistoryOk(h) && i < |h|
    requires forall k :: k in ks ==> Since(h, i, k) < n
    requires forall k, l :: k in ks && l in ks && Since(h, i, k) == Since(h, i, l) ==> k == l
    ensures |ks| <= n
    decreases n
  {
    if n == 0 {
      assert ks == {};
    } else if exists k :: k in ks && Since(h, i, k) == n - 1 {
      var k :| k in ks && Since(h, i, k) == n - 1;
      FewKeys(h, i, ks - {k}, n - 1);
    } else {
      FewKeys(h, i, ks, n - 1);
    }
  }

  // ---- What dominance means, whatever the wall clocks say ----

  /** Record j knows a write by k with a counter no lower than the last one record i knows. */
  ghost predicate KnowsAsMuch(h: seq<Write>, i: nat, j: nat, k: Device)
    requires HistoryOk(h) && i < |h| && j < |h|
  {
    && k in Rec(h, j).clock && LastBy(h, j, k).Some? && LastBy(h, i, k).Some?
    && Minted(h, LastBy(h, j, k).value) >= Minted(h, LastBy(h, i, k).value)
  }

  /** A record dominates another exactly when the clocks differ and, of every device the other
      knows, it knows a write with at least that counter. */
  lemma DominanceIsHigherCounters(h: seq<Write>, i: nat, j: nat)
    requires HistoryOk(h) && i < |h| && j < |h|
    ensures Dominates(Rec(h, j).clock, Rec(h, i).clock) <==>
            Rec(h, j).clock != Rec(h, i).clock && forall k :: k in Rec(h, i).clock ==> KnowsAsMuch(h, i, j, k)
  {
    RecordClockOk(h, i);
    RecordClockOk(h, j);
    var a, b := Rec(h, j).clock, Rec(h, i).clock;
    forall k | k in b ensures At(a, k) >= At(b, k) <==> KnowsAsMuch(h, i, j, k) {
      AgeCountsWrites(h, i, k);
      AgeCountsWrites(h, j, k);
    }
    DominatesPointwise(a, b);
    hide Rec;
    assert (forall k :: At(a, k) >= At(b, k)) <==> forall k :: k in b ==> At(a, k) >= At(b, k);
  }

  /** The device of write i had already minted a counter as high: its wall clock stepped back, and
      it was not writing over a record that knew of that. */
  ghost predicate SteppedBack(h: seq<Write>, i: nat, a: nat)
    requires HistoryOk(h) && i < |h|
  {
    a < i && h[a].dev == h[i].dev && Minted(h, a) >= Minted(h, i)
  }

  /** A peer's edit is dominated by a record whose lineage has no write by that peer at or after the
      edit exactly when the clocks differ, the last write by the peer on that lineage, still known,
      had minted a counter as high, and of every other device the record knows as much. */
  lemma UnmergedPeerEditSurvives(h: seq<Write>, i: nat, j: nat)
    requires HistoryOk(h) && i < |h| && j < |h|
    requires forall a :: i <= a <= j && h[a].dev == h[i].dev ==> !OnLineage(h, j, a)
    ensures Dominates(Rec(h, j).clock, Rec(h, i).clock) <==>
            var k := h[i].dev;
            && Rec(h, j).clock != Rec(h, i).clock
            && k in Rec(h, j).clock && LastBy(h, j, k).Some? && SteppedBack(h, i, LastBy(h, j, k).value)
            && forall l :: l in Rec(h, i).clock && l != k ==> KnowsAsMuch(h, i, j, l)
    ensures Steady(h) ==> !Dominates(Rec(h, j).clock, Rec(h, i).clock)
  {
    var k := h[i].dev;
    DominanceIsHigherCounters(h, i, j);
    AgeCountsWrites(h, j, k);
    assert LastBy(h, i, k) == Some(i) && k in Rec(h, i).clock;
    hide Rec;
    if Steady(h) && k in Rec(h, j).clock && SteppedBack(h, i, LastBy(h, j, k).value) {
      MintedIsWall(h, LastBy(h, j, k).value);
      MintedIsWall(h, i);
      assert false;
    }
  }

  /** K's clock steps back before it writes anew; A, which builds on K's first write, dominates the
      second one without having seen it. */
  const STEPPED := [Write("K", 100, None), Write("A", 1, Some(0)), Write("K", 50, None)]

  lemma SteppedClockForgesDominance()
    ensures HistoryOk(STEPPED) && SteppedBack(STEPPED, 2, 0) && !OnLineage(STEPPED, 1, 2)
    ensures Dominates(Rec(STEPPED, 1).clock, Rec(STEPPED, 2).clock)
  {
    assert Rec(STEPPED, 0).clock["K"] == 101 && Rec(STEPPED, 2).clock["K"] == 51;
    assert LastBy(STEPPED, 1, "K") == Some(0) && Since(STEPPED, 1, "K") == 1;
    AgeCountsWrites(STEPPED, 1, "K");
    AgeCountsWrites(STEPPED, 1, "A");
    forall k | k in Rec(STEPPED, 2).clock ensures k == "K" {
      AgeCountsWrites(STEPPED, 2, k);
    }
    DominanceIsHigherCounters(STEPPED, 2, 1);
  }

  // ---- Under steady clocks ----

  /** Each device reads later and later times. */
  ghost predicate Steady(h: seq<Write>) {
    && (forall i :: 0 <= i < |h| ==> h[i].wall >= 0)
    && (forall i, j :: 0 <= i < j < |h| && h[i].dev == h[j].dev ==> h[i].wall < h[j].wall)
  }

  lemma {:induction false} MintedIsWall(h: seq<Write>, i: nat)
    requires HistoryOk(h) && Steady(h) && i < |h|
    ensures Minted(h, i) == h[i].wall + 1
  {
    OwnEntryLeads(h, i);
    if h[i].base.Some? {
      var b, k := h[i].base.value, h[i].dev;
      AgeCountsWrites(h, b, k);
      if k in Rec(h, b).clock {
        MintedIsWall(h, LastBy(h, b, k).value);
      }
    }
  }

  /** Record j knows a write by k no earlier than the last one record i knows. */
  ghost predicate KnowsAsLate(h: seq<Write>, i: nat, j: nat, k: Device)
    requires HistoryOk(h) && i < |h| && j < |h|
  {
    && k in Rec(h, j).clock && LastBy(h, j, k).Some? && LastBy(h, i, k).Some?
    && LastBy(h, j, k).value >= LastBy(h, i, k).value
  }

  /** What dominance means: for every device the dominated record knows, the other knows a
      write at least as late. */
  lemma DominanceIsLaterKnowledge(h: seq<Write>, i: nat, j: nat)
    requires HistoryOk(h) && Steady(h) && i < |h| && j < |h|
    ensures Dominates(Rec(h, j).clock, Rec(h, i).clock) <==>
            && i != j
            && forall k :: k in Rec(h, i).clock ==> KnowsAsLate(h, i, j, k)
  {
    RecordClockOk(h, i);
    RecordClockOk(h, j);
    var a, b := Rec(h, j).clock, Rec(h, i).clock;
    forall k | k in b
      ensures At(a, k) >= At(b, k) <==> KnowsAsLate(h, i, j, k)
    {
      LaterMeansMore(h, i, j, k);
    }
    DominatesPointwise(a, b);
    if a == b && i != j {
      SameClockSameWrite(h, i, j);
    }
    hide Rec;
    hide Steady;
    assert (forall k :: At(a, k) >= At(b, k)) <==> forall k :: k in b ==> At(a, k) >= At(b, k);
  }

  lemma LaterMeansMore(h: seq<Write>, i: nat, j: nat, k: Device)
    requires HistoryOk(h) && Steady(h) && i < |h| && j < |h| && k in Rec(h, i).clock
    ensures At(Rec(h, j).clock, k) >= Rec(h, i).clock[k] <==> KnowsAsLate(h, i, j, k)
  {
    AgeCountsWrites(h, i, k);
    AgeCountsWrites(h, j, k);
    MintedIsWall(h, LastBy(h, i, k).value);
    if k in Rec(h, j).clock {
      MintedIsWall(h, LastBy(h, j, k).value);
      hide Rec;
    }
  }

  lemma SameClockSameWrite(h: seq<Write>, i: nat, j: nat)
    requires HistoryOk(h) && Steady(h) && i < |h| && j < |h| && Rec(h, i).clock == Rec(h, j).clock
    ensures i == j
  {
    LaterMeansMore(h, i, j, h[i].dev);
    LaterMeansMore(h, j, i, h[j].dev);
    LaterMeansMore(h, j, i, h[i].dev);
    LaterMeansMore(h, i, j, h[j].dev);
    assert LastBy(h, i, h[i].dev) == Some(i) && LastBy(h, j, h[j].dev) == Some(j);
  }

  /** Every record on the lineage from j down to i knows k. */
  ghost predicate KnownAllAlong(h: seq<Write>, i: nat, j: nat, k: Device)
    requires HistoryOk(h) && j < |h|
  {
    k in Rec(h, j).clock && (i == j || (h[j].base.Some? && KnownAllAlong(h, i, h[j].base.value, k)))
  }

  /** A counter never falls while the records on the way know it. */
  lemma {:induction false} KnownAllAlongGrows(h: seq<Write>, i: nat, j: nat, k: Device)
    requires HistoryOk(h) && i < |h| && j < |h| && KnownAllAlong(h, i, j, k)
    ensures k in Rec(h, i).clock && KnowsAsMuch(h, i, j, k)
  {
    AgeCountsWrites(h, j, k);
    if i != j {
      var b := h[j].base.value;
      KnownAllAlongGrows(h, i, b, k);
      AgeCountsWrites(h, b, k);
      OwnEntryLeads(h, j);
    }
  }

  /** A record dominates an ancestor exactly when each of the ancestor's entries is there and has
      either never aged out on the way or been minted again as high, and the clocks differ. Under
      steady clocks it is enough that none has aged out in the end. */
  lemma AncestorDominatedExactly(h: seq<Write>, i: nat, j: nat)
    requires HistoryOk(h) && i < |h| && j < |h| && i != j && OnLineage(h, j, i)
    ensures Dominates(Rec(h, j).clock, Rec(h, i).clock) <==>
            && Rec(h, j).clock != Rec(h, i).clock
            && forall k :: k in Rec(h, i).clock ==> KnownAllAlong(h, i, j, k) || KnowsAsMuch(h, i, j, k)
    ensures Steady(h) ==>
              (Dominates(Rec(h, j).clock, Rec(h, i).clock) <==> forall k :: k in Rec(h, i).clock ==> k in Rec(h, j).clock)
  {
    DominanceIsHigherCounters(h, i, j);
    forall k | k in Rec(h, i).clock && KnownAllAlong(h, i, j, k) ensures KnowsAsMuch(h, i, j, k) {
      KnownAllAlongGrows(h, i, j, k);
    }
    if Steady(h) {
      DominanceIsLaterKnowledge(h, i, j);
      forall k | k in Rec(h, i).clock && k in Rec(h, j).clock ensures KnowsAsLate(h, i, j, k) {
        AgeCountsWrites(h, i, k);
        LastByGrows(h, i, j, k);
      }
    }
  }

  lemma {:induction false} LastByGrows(h: seq<Write>, i: nat, j: nat, k: Device)
    requires HistoryOk(h) && i < |h| && j < |h| && OnLineage(h, j, i) && LastBy(h, i, k).Some?
    ensures LastBy(h, j, k).Some? && LastBy(h, j, k).value >= LastBy(h, i, k).value
  {
    if i != j {
      LastByGrows(h, i, h[j].base.value, k);
      if h[j].dev == k {
        assert LastBy(h, i, k).value <= i;
        LineageIsEarlier(h, j, i);
      }
    }
  }

  lemma {:induction false} LineageIsEarlier(h: seq<Write>, j: nat, i: nat)
    requires HistoryOk(h) && j < |h| && OnLineage(h, j, i)
    ensures i <= j
  {
    if i != j {
      LineageIsEarlier(h, h[j].base.value, i);
    }
  }

  // ---- A device's own fork ----

  /** A device that edits the elected record of a path supersedes another fork of its own that it
      never merged exactly when, given that the elected record's history knows everyone else the
      fork knew, its own counter is at least the fork's and the clocks differ; under steady clocks,
      always when it writes later. */
  lemma OwnForkIsSuperseded(h: seq<Write>, i: nat, j: nat)
    requires HistoryOk(h) && i < |h| && j < |h| && h[i].dev == h[j].dev
    requires forall k :: k in Rec(h, i).clock && k != h[i].dev ==> KnowsAsMuch(h, i, j, k)
    ensures Dominates(Rec(h, j).clock, Rec(h, i).clock) <==> Minted(h, j) >= Minted(h, i) && Rec(h, j).clock != Rec(h, i).clock
    ensures Steady(h) && i < j ==> Dominates(Rec(h, j).clock, Rec(h, i).clock)
  {
    DominanceIsHigherCounters(h, i, j);
    assert LastBy(h, i, h[i].dev) == Some(i) && LastBy(h, j, h[j].dev) == Some(j);
    assert h[j].dev in Rec(h, j).clock && h[i].dev in Rec(h, i).clock;
    if Steady(h) && i < j {
      MintedIsWall(h, i);
      MintedIsWall(h, j);
    }
  }

  /** A shared file; B and A edit it concurrently; A then edits B's version. */
  const FORKED := [Write("A", 1, None), Write("A", 3, Some(0)), Write("B", 2, Some(0)), Write("A", 4, Some(2))]

  lemma ForkedWrites()
    ensures HistoryOk(FORKED) && Steady(FORKED)
    ensures !OnLineage(FORKED, 3, 1) && !OnLineage(FORKED, 2, 1) && !OnLineage(FORKED, 1, 2)
    ensures forall k :: LastBy(FORKED, 1, k).Some? ==> k == "A"
  {
  }

  /** A's first edit is on no lineage of its second, yet is dominated by it, so reconciliation
      drops it as superseded. */
  lemma OwnForkIsDropped()
    ensures HistoryOk(FORKED) && Steady(FORKED) && !OnLineage(FORKED, 3, 1)
    ensures Dominates(Rec(FORKED, 3).clock, Rec(FORKED, 1).clock)
    ensures !Dominates(Rec(FORKED, 2).clock, Rec(FORKED, 1).clock) && !Dominates(Rec(FORKED, 1).clock, Rec(FORKED, 2).clock)
  {
    ForkedWrites();
    hide Rec;
    hide LastBy;
    hide OnLineage;
    forall k | k in Rec(FORKED, 1).clock ensures k == FORKED[1].dev {
      AgeCountsWrites(FORKED, 1, k);
    }
    OwnForkIsSuperseded(FORKED, 1, 3);
    UnmergedPeerEditSurvives(FORKED, 1, 2);
    UnmergedPeerEditSurvives(FORKED, 2, 1);
  }
}
