/** Two-phase, fenced garbage collection of unreferenced chunks. Times are whole seconds,
    the precision at which intents and first-seen records are stored. */
module Gc {
  import opened Prelude

  type Id = string

  /** Every present chunk with the modification times of its copies on disk. */
  type Chunks = map<Id, seq<int>>

  /** Every marked chunk with the times its intent files record; None is an unreadable file. */
  type Intents = map<Id, seq<Option<int>>>

  /** A device's first-seen record; None is an entry that does not parse as a time. */
  type Seen = map<Id, Option<int>>

  /** The index: the chunks each manifest refers to. */
  type Refs = map<string, set<Id>>

  const HOUR: int := 3600
  const FENCE_DEFAULT: int := 72 * HOUR
  const FENCE_MIN: int := HOUR

  function EffectiveFence(asked: int): (f: int)
    ensures f >= FENCE_MIN
    ensures asked >= FENCE_MIN ==> f == asked
    ensures asked <= 0 ==> f == 72 * 3600
    ensures 0 < asked <= 3600 ==> f == 3600
  {
    var f := if asked <= 0 then FENCE_DEFAULT else asked;
    if f < FENCE_MIN then FENCE_MIN else f
  }

  function Live(refs: Refs): set<Id> { set p, id | p in refs && id in refs[p] :: id }

  /** The intent files of one chunk fold into the oldest readable time. */
  function OldestTime(files: seq<Option<int>>): (t: Option<int>)
    ensures t.Some? ==> t in files && forall r :: Some(r) in files ==> t.value <= r
    ensures t.None? ==> forall r :: Some(r) !in files
  {
    if files == [] then None else
    var t := OldestTime(Init(files));
    var f := Last(files);
    if f.Some? && (t.None? || f.value < t.value) then f else t
  }

  function NewestMtime(files: seq<int>): (t: int)
    requires files != []
    ensures t in files && forall m :: m in files ==> m <= t
  {
    assert files == Init(files) + [Last(files)];
    if |files| == 1 then files[0] else Max(NewestMtime(Init(files)), Last(files))
  }

  /** Everything a run of one device can change: the shared chunks and intents, and the
      device's own first-seen record. */
  datatype View = View(chunks: Chunks, intents: Intents, seen: Seen)

  ghost predicate Wf(v: View) {
    && (forall id :: id in v.chunks ==> v.chunks[id] != [])
    && (forall id :: id in v.intents ==> v.intents[id] != [])
  }

  function Phase1(v: View, live: set<Id>, now: int): View {
    View(v.chunks,
         map id | id in v.chunks && id !in live :: IntentsAfter(v, live, now, id),
         map id | id in v.seen.Keys + v.intents.Keys && StaysSeen(v, live, id) :: SeenAfter(v, live, now, id))
  }

  function IntentsAfter(v: View, live: set<Id>, now: int, id: Id): seq<Option<int>> {
    if id !in v.chunks || id in live then []
    else if id in v.intents then v.intents[id]
    else [Some(now)]
  }

  predicate StaysSeen(v: View, live: set<Id>, id: Id) {
    if id in v.intents then id in v.chunks && id !in live else id in v.seen
  }

  function SeenAfter(v: View, live: set<Id>, now: int, id: Id): Option<int> {
    if !StaysSeen(v, live, id) then None else if id in v.seen then v.seen[id] else Some(now)
  }

  predicate Aged(t: Option<int>, now: int, fence: int) { t.Some? && now - t.value >= fence }

  /** All three fences have passed and the chunk is still unreferenced. */
  predicate Doomed(v: View, live: set<Id>, now: int, fence: int, id: Id)
    requires id in v.chunks ==> v.chunks[id] != []
  {
    && id in v.intents && id in v.chunks && id !in live
    && Aged(OldestTime(v.intents[id]), now, fence)
    && id in v.seen && Aged(v.seen[id], now, fence)
    && now - NewestMtime(v.chunks[id]) >= fence
  }

  function Phase2(v: View, live: set<Id>, now: int, fence: int): View
    requires Wf(v)
  {
    var doomed := set id | id in v.chunks && Doomed(v, live, now, fence, id);
    var settled := doomed + (v.intents.Keys * v.chunks.Keys * live);
    View(v.chunks - doomed, v.intents - settled, v.seen - settled)
  }

  function Confirm(v: View, live: set<Id>, t1: int, t2: int, fence: int): (r: View)
    requires Wf(v)
    ensures Wf(r)
  {
    Phase2(Phase1(v, live, t1), live, t2, fence)
  }

  ghost predicate SameBut<T>(a: map<Id, T>, b: map<Id, T>, id: Id) {
    && (forall k :: k in a && k != id ==> k in b && b[k] == a[k])
    && (forall k :: k in b && k != id ==> k in a)
  }

  /** Every file in `later` was already in `earlier`, or is one the caller allows. */
  ghost predicate FilesFrom(earlier: Intents, later: Intents, added: set<Option<int>>) {
    forall id :: id in later ==>
                   later[id] != [] && forall r :: r in later[id] ==> (id in earlier && r in earlier[id]) || r in added
  }

  /** What a phase 1 that stopped early leaves behind: it may have dropped intent files and
      added ones dated now; chunks and the first-seen record are as they were. */
  ghost predicate Phase1Cut(v: View, w: View, now: int) {
    w.chunks == v.chunks && w.seen == v.seen && FilesFrom(v.intents, w.intents, {Some(now)})
  }

  /** What a phase 2 that stopped early leaves behind: only doomed chunks have lost copies,
      only intent files have gone besides, and the first-seen record is as it was. */
  ghost predicate Phase2Cut(v: View, w: View, live: set<Id>, now: int, fence: int)
    requires Wf(v)
  {
    && w.seen == v.seen && FilesFrom(v.intents, w.intents, {})
    && (forall id :: id in w.chunks ==> id in v.chunks && w.chunks[id] != [] && forall m :: m in w.chunks[id] ==> m in v.chunks[id])
    && (forall id :: id in v.chunks && !Doomed(v, live, now, fence, id) ==> id in w.chunks && w.chunks[id] == v.chunks[id])
  }

  // ---- What a run has to write and remove ----

  ghost function FilesOf<T>(m: map<Id, seq<T>>, id: Id): nat { if id in m then |m[id]| else 0 }

  /** How many files these ids have. */
  ghost function Files<T>(m: map<Id, seq<T>>, ids: set<Id>): nat {
    if ids == {} then 0 else
    var id :| id in ids;
    FilesOf(m, id) + Files(m, ids - {id})
  }

  lemma {:induction false} FilesBut<T>(m: map<Id, seq<T>>, ids: set<Id>, id: Id)
    requires id in ids
    ensures Files(m, ids) == FilesOf(m, id) + Files(m, ids - {id})
  {
    var x :| x in ids && Files(m, ids) == FilesOf(m, x) + Files(m, ids - {x});
    if x != id {
      FilesBut(m, ids - {x}, id);
      FilesBut(m, ids - {id}, x);
      assert ids - {x} - {id} == ids - {id} - {x};
    }
  }

  lemma FilesAnd<T>(m: map<Id, seq<T>>, ids: set<Id>, id: Id)
    requires id !in ids
    ensures Files(m, ids + {id}) == FilesOf(m, id) + Files(m, ids)
  {
    FilesBut(m, ids + {id}, id);
    assert ids + {id} - {id} == ids;
  }

  lemma {:induction false} FilesWithin<T>(m: map<Id, seq<T>>, some: set<Id>, ids: set<Id>)
    requires some <= ids
    ensures Files(m, some) <= Files(m, ids)
    decreases ids
  {
    if id :| id in ids && id !in some {
      FilesBut(m, ids, id);
      FilesWithin(m, some, ids - {id});
    } else {
      assert some == ids;
    }
  }

  /** The marked chunks whose intents go in phase 1. */
  function Unmarked(v: View, live: set<Id>): set<Id> { v.intents.Keys - (v.chunks.Keys - live) }

  ghost function ReviewCost(v: View, live: set<Id>): nat { Files(v.intents, Unmarked(v, live)) }

  /** How many chunks the marking has to mark. */
  ghost function MarkCost(chunks: set<Id>, live: set<Id>, listed: set<Id>): nat { |chunks - live - listed| }

  ghost function Phase1Cost(v: View, live: set<Id>, now: int): nat {
    ReviewCost(v, live) + MarkCost(v.chunks.Keys, live, v.intents.Keys) + if Phase1(v, live, now).seen != v.seen then 1 else 0
  }

  lemma CostOne(v: View, live: set<Id>, now: int)
    ensures Phase1Cost(v, live, now)
            == ReviewCost(v, live) + MarkCost(v.chunks.Keys, live, v.intents.Keys) + if Phase1(v, live, now).seen != v.seen then 1 else 0
  {
  }

  function Taken(v: View, live: set<Id>, now: int, fence: int): set<Id>
    requires Wf(v)
  {
    set id | id in v.chunks && Doomed(v, live, now, fence, id)
  }

  ghost function CollectCost(v: View, live: set<Id>, now: int, fence: int): nat
    requires Wf(v)
  {
    Files(v.chunks, Taken(v, live, now, fence)) + Files(v.intents, Taken(v, live, now, fence) + (v.intents.Keys * v.chunks.Keys * live))
  }

  /** What settling one marked chunk costs. */
  ghost function SettleCost(v: View, live: set<Id>, now: int, fence: int, id: Id): nat
    requires Wf(v)
  {
    var doomed := Doomed(v, live, now, fence, id);
    (if doomed then FilesOf(v.chunks, id) else 0) + if doomed || (id in live && id in v.chunks) then FilesOf(v.intents, id) else 0
  }

  lemma CostTwo(v: View, live: set<Id>, now: int, fence: int)
    requires Wf(v)
    ensures Phase2Cost(v, live, now, fence)
            == CollectCost(v, live, now, fence) + if Phase2(v, live, now, fence).seen != v.seen then 1 else 0
  {
  }

  ghost function Phase2Cost(v: View, live: set<Id>, now: int, fence: int): nat
    requires Wf(v)
  {
    CollectCost(v, live, now, fence)
    + if Phase2(v, live, now, fence).seen != v.seen then 1 else 0
  }

  ghost function ConfirmCost(v: View, live: set<Id>, t1: int, t2: int, fence: int): nat
    requires Wf(v)
  {
    Phase1Cost(v, live, t1) + Phase2Cost(Phase1(v, live, t1), live, t2, fence)
  }

  // ---- Half-way through the review of phase 1 ----

  /** The intents when those in `todo` are still to be reviewed. */
  ghost predicate KeptSoFar(v: View, live: set<Id>, todo: set<Id>, intents: Intents) {
    && (forall id :: id in intents <==> id in v.intents && (id in todo || (id in v.chunks && id !in live)))
    && (forall id :: id in intents ==> intents[id] == v.intents[id])
  }

  ghost predicate SeenSoFar(v: View, live: set<Id>, now: int, todo: set<Id>, first: Seen) {
    && (forall id :: id in first <==>
                     if id in v.intents && id !in todo then id in v.chunks && id !in live else id in v.seen)
    && (forall id :: id in first ==> first[id] == if id in v.seen then v.seen[id] else Some(now))
  }

  lemma ReviewStart(v: View, live: set<Id>, now: int)
    ensures KeptSoFar(v, live, v.intents.Keys, v.intents) && SeenSoFar(v, live, now, v.intents.Keys, v.seen)
  {
  }

  lemma KeptHas(v: View, live: set<Id>, todo: set<Id>, intents: Intents, id: Id)
    requires KeptSoFar(v, live, todo, intents) && id in todo && id in v.intents
    ensures id in intents && intents[id] == v.intents[id]
  {
  }

  lemma IntentsHold(v: View, id: Id)
    requires Wf(v) && id in v.intents
    ensures v.intents[id] != []
  {
  }

  lemma KeptStep(v: View, live: set<Id>, todo: set<Id>, before: Intents, intents: Intents, id: Id)
    requires Wf(v) && KeptSoFar(v, live, todo, before) && id in todo && id in v.intents && SameBut(before, intents, id)
    requires id in intents ==> intents[id] != [] && forall r :: r in intents[id] ==> r in v.intents[id]
    requires id !in live && id in v.chunks ==> intents == before
    ensures id !in intents || (id !in live && id in v.chunks) ==> KeptSoFar(v, live, todo - {id}, intents)
    ensures FilesFrom(v.intents, intents, {})
  {
  }

  lemma SeenStep(v: View, live: set<Id>, now: int, todo: set<Id>, first: Seen, id: Id)
    requires SeenSoFar(v, live, now, todo, first) && id in todo && id in v.intents
    ensures id in live || id !in v.chunks ==> SeenSoFar(v, live, now, todo - {id}, first - {id})
    ensures id !in live && id in v.chunks ==>
              SeenSoFar(v, live, now, todo - {id}, if id in first then first else first[id := Some(now)])
  {
  }

  /** What the review has spent when these chunks are still to come. */
  ghost function ReviewPaid(v: View, live: set<Id>, todo: set<Id>): nat { Files(v.intents, Unmarked(v, live) - todo) }

  lemma PaidStart(v: View, live: set<Id>)
    ensures ReviewPaid(v, live, v.intents.Keys) == 0
  {
    assert Unmarked(v, live) - v.intents.Keys == {};
  }

  lemma PaidStep(v: View, live: set<Id>, todo: set<Id>, id: Id)
    requires id in todo && id in v.intents
    ensures ReviewPaid(v, live, todo - {id})
            == ReviewPaid(v, live, todo) + if id in live || id !in v.chunks then |v.intents[id]| else 0
    ensures ReviewPaid(v, live, todo - {id}) <= ReviewCost(v, live)
  {
    var all := Unmarked(v, live);
    FilesWithin(v.intents, all - (todo - {id}), all);
    if id in all {
      FilesAnd(v.intents, all - todo, id);
      assert all - (todo - {id}) == all - todo + {id};
    } else {
      assert all - (todo - {id}) == all - todo;
    }
  }

  lemma PaidDone(v: View, live: set<Id>)
    ensures ReviewPaid(v, live, {}) == ReviewCost(v, live)
  {
    assert Unmarked(v, live) - {} == Unmarked(v, live);
  }

  /** What the report says of the chunks reviewed so far. */
  ghost predicate ToldSoFar(v: View, live: set<Id>, todo: set<Id>, cancelled: set<Id>, reaped: set<Id>) {
    cancelled == (v.intents.Keys - todo) * live && reaped == (v.intents.Keys - todo) - live - v.chunks.Keys
  }

  lemma ToldStep(v: View, live: set<Id>, todo: set<Id>, cancelled: set<Id>, reaped: set<Id>, id: Id)
    requires ToldSoFar(v, live, todo, cancelled, reaped) && id in todo && id in v.intents
    ensures ToldSoFar(v, live, todo - {id}, if id in live then cancelled + {id} else cancelled,
                      if id !in live && id !in v.chunks then reaped + {id} else reaped)
  {
  }

  lemma ToldStart(v: View, live: set<Id>)
    ensures ToldSoFar(v, live, v.intents.Keys, {}, {})
  {
  }

  lemma ToldDone(v: View, live: set<Id>, cancelled: set<Id>, reaped: set<Id>)
    requires ToldSoFar(v, live, {}, cancelled, reaped)
    ensures cancelled == v.intents.Keys * live && reaped == v.intents.Keys - live - v.chunks.Keys
  {
  }

  lemma ReviewDone(v: View, live: set<Id>, now: int, intents: Intents, first: Seen)
    requires KeptSoFar(v, live, {}, intents) && SeenSoFar(v, live, now, {}, first)
    ensures intents == v.intents - Unmarked(v, live)
    ensures first == Phase1(v, live, now).seen
  {
  }

  // ---- Half-way through the marking of phase 1 ----

  /** The review left these intents, when `listed` had some as the phase began. */
  ghost predicate Reviewed(chunks: set<Id>, live: set<Id>, listed: set<Id>, was: Intents) {
    was.Keys <= listed && was.Keys <= chunks - live && listed * chunks - live <= was.Keys
  }

  /** The intents are those there were and new ones dated now. */
  ghost predicate DatedFrom(was: Intents, now: int, intents: Intents) {
    forall id :: id in intents ==> intents[id] == if id in was then was[id] else [Some(now)]
  }

  lemma DatedSame(was: Intents, now: int)
    ensures DatedFrom(was, now, was)
  {
  }

  /** The intents when the chunks in `todo` are still to be looked at. */
  ghost predicate MarkedSoFar(chunks: set<Id>, live: set<Id>, was: Intents, now: int, todo: set<Id>, intents: Intents) {
    && (forall id :: id in intents <==> id in was || (id in chunks && id !in todo && id !in live))
    && (forall id :: id in intents ==> intents[id] == if id in was then was[id] else [Some(now)])
  }

  ghost predicate ListedSoFar(chunks: set<Id>, live: set<Id>, listed: set<Id>, todo: set<Id>, candidates: set<Id>, written: set<Id>) {
    candidates == chunks - todo - live && written == candidates - listed
  }

  lemma MarkStart(chunks: set<Id>, live: set<Id>, listed: set<Id>, was: Intents, now: int)
    requires Reviewed(chunks, live, listed, was)
    ensures MarkedSoFar(chunks, live, was, now, chunks, was) && ListedSoFar(chunks, live, listed, chunks, {}, {})
  {
  }

  lemma MarkStep(chunks: set<Id>, live: set<Id>, listed: set<Id>, was: Intents, now: int, todo: set<Id>, intents: Intents, id: Id)
    requires Reviewed(chunks, live, listed, was) && MarkedSoFar(chunks, live, was, now, todo, intents)
    requires id in todo && todo <= chunks
    ensures id in live || id in listed ==> MarkedSoFar(chunks, live, was, now, todo - {id}, intents)
    ensures id !in live && id !in listed ==>
              id !in intents && MarkedSoFar(chunks, live, was, now, todo - {id}, intents[id := [Some(now)]])
  {
    if id !in live && id in listed {
      assert id in was;
    }
  }

  lemma ListStep(chunks: set<Id>, live: set<Id>, listed: set<Id>, todo: set<Id>, candidates: set<Id>, written: set<Id>, id: Id)
    requires ListedSoFar(chunks, live, listed, todo, candidates, written) && id in todo && todo <= chunks
    ensures id in live ==> ListedSoFar(chunks, live, listed, todo - {id}, candidates, written)
    ensures id !in live && id in listed ==> ListedSoFar(chunks, live, listed, todo - {id}, candidates + {id}, written)
    ensures id !in live && id !in listed ==>
              && |written + {id}| == |written| + 1 && |written| < MarkCost(chunks, live, listed)
              && ListedSoFar(chunks, live, listed, todo - {id}, candidates + {id}, written + {id})
  {
    assert id !in candidates && id !in written;
    if id !in live && id !in listed {
      SubsetSize(written + {id}, chunks - live - listed);
    }
  }

  lemma MarkDone(chunks: set<Id>, live: set<Id>, listed: set<Id>, was: Intents, now: int,
                 intents: Intents, candidates: set<Id>, written: set<Id>)
    requires Reviewed(chunks, live, listed, was) && MarkedSoFar(chunks, live, was, now, {}, intents)
    requires ListedSoFar(chunks, live, listed, {}, candidates, written)
    ensures intents.Keys == candidates == chunks - live && written == candidates - listed
    ensures MarkCost(chunks, live, listed) == |written|
  {
  }

  lemma MarkKeeps(chunks: set<Id>, live: set<Id>, was: Intents, now: int, todo: set<Id>, intents: Intents)
    requires MarkedSoFar(chunks, live, was, now, todo, intents)
    ensures DatedFrom(was, now, intents)
  {
  }

  lemma ReviewLeaves(v: View, live: set<Id>, intents: Intents)
    requires intents == v.intents - Unmarked(v, live)
    ensures Reviewed(v.chunks.Keys, live, v.intents.Keys, intents)
  {
  }

  lemma ReviewedFrom(v: View, live: set<Id>, was: Intents)
    requires Wf(v) && was == v.intents - Unmarked(v, live)
    ensures FilesFrom(v.intents, was, {})
  {
  }

  /** Review, marking and dates together are phase 1. */
  lemma PhaseOne(v: View, live: set<Id>, now: int, was: Intents, intents: Intents)
    requires was == v.intents - Unmarked(v, live) && intents.Keys == v.chunks.Keys - live
    requires DatedFrom(was, now, intents)
    ensures Phase1(v, live, now) == View(v.chunks, intents, Phase1(v, live, now).seen)
  {
    assert intents == Phase1(v, live, now).intents;
  }

  lemma PhaseOneCut(v: View, live: set<Id>, now: int, was: Intents, intents: Intents)
    requires Wf(v) && FilesFrom(v.intents, was, {})
    requires DatedFrom(was, now, intents)
    ensures Phase1Cut(v, View(v.chunks, intents, v.seen), now)
  {
  }

  // ---- Half-way through phase 2 ----

  /** The chunks removed, and the marks settled, when those in `todo` are still to be seen to. */
  ghost predicate CollectedSoFar(v: View, live: set<Id>, now: int, fence: int, todo: set<Id>, removed: set<Id>, settled: set<Id>)
    requires Wf(v)
  {
    && todo <= v.intents.Keys
    && (forall id :: id in removed <==> id in v.intents && id !in todo && Doomed(v, live, now, fence, id))
    && (forall id :: id in settled <==> id in removed || (id in v.intents && id !in todo && id in v.chunks && id in live))
  }

  lemma CollectStep(v: View, live: set<Id>, now: int, fence: int, todo: set<Id>, removed: set<Id>, settled: set<Id>, id: Id)
    requires Wf(v) && CollectedSoFar(v, live, now, fence, todo, removed, settled) && id in todo
    ensures id !in removed && id !in settled
    ensures var gone := Doomed(v, live, now, fence, id);
            CollectedSoFar(v, live, now, fence, todo - {id}, if gone then removed + {id} else removed,
                           if gone || (id in v.chunks && id in live) then settled + {id} else settled)
  {
  }

  lemma CollectDone(v: View, live: set<Id>, now: int, fence: int, removed: set<Id>, settled: set<Id>)
    requires Wf(v) && CollectedSoFar(v, live, now, fence, {}, removed, settled)
    ensures removed <= v.chunks.Keys
    ensures View(v.chunks - removed, v.intents - settled, v.seen - settled) == Phase2(v, live, now, fence)
  {
    assert removed == set id | id in v.chunks && Doomed(v, live, now, fence, id);
    assert settled == removed + (v.intents.Keys * v.chunks.Keys * live);
  }

  lemma CollectStart(v: View, live: set<Id>, now: int, fence: int)
    requires Wf(v)
    ensures CollectedSoFar(v, live, now, fence, v.intents.Keys, {}, {})
  {
  }

  /** Stopping at any chunk leaves a proper cut. */
  lemma CollectCut(v: View, live: set<Id>, now: int, fence: int, todo: set<Id>, removed: set<Id>, settled: set<Id>,
                   id: Id, chunks: Chunks, intents: Intents)
    requires Wf(v) && CollectedSoFar(v, live, now, fence, todo, removed, settled)
    requires SameBut(v.chunks - removed, chunks, id) && SameBut(v.intents - settled, intents, id)
    requires id in intents ==> id in v.intents && intents[id] != [] && forall r :: r in intents[id] ==> r in v.intents[id]
    requires id in chunks ==> id in v.chunks && chunks[id] != [] && forall m :: m in chunks[id] ==> m in v.chunks[id]
    requires !Doomed(v, live, now, fence, id) ==> chunks == v.chunks - removed
    ensures Phase2Cut(v, View(chunks, intents, v.seen), live, now, fence)
  {
    hide Doomed;
  }

  /** Whether a chunk is doomed depends on nothing but that chunk. */
  lemma DoomedIsLocal(v: View, w: View, live: set<Id>, now: int, fence: int, id: Id)
    requires Wf(v) && Wf(w)
    requires id in v.chunks <==> id in w.chunks
    requires id in v.chunks ==> v.chunks[id] == w.chunks[id]
    requires id in v.intents <==> id in w.intents
    requires id in v.intents ==> v.intents[id] == w.intents[id]
    requires id in v.seen <==> id in w.seen
    requires id in v.seen ==> v.seen[id] == w.seen[id]
    ensures Doomed(v, live, now, fence, id) == Doomed(w, live, now, fence, id)
  {
  }

  // ---- The state of phase 2 half-way ----

  /** `w` holds the chunks and intents as they are and the dates to be saved; `spent` writes
      have been made. */
  ghost predicate Underway(v: View, live: set<Id>, now: int, fence: int, todo: set<Id>, removed: set<Id>, settled: set<Id>,
                           w: View, spent: int)
    requires Wf(v)
  {
    && CollectedSoFar(v, live, now, fence, todo, removed, settled)
    && w == View(v.chunks - removed, v.intents - settled, v.seen - settled)
    && spent == Files(v.chunks, removed) + Files(v.intents, settled)
  }

  lemma UnderwayStart(v: View, live: set<Id>, now: int, fence: int)
    requires Wf(v)
    ensures Underway(v, live, now, fence, v.intents.Keys, {}, {}, v, 0)
  {
    CollectStart(v, live, now, fence);
    assert v == View(v.chunks - {}, v.intents - {}, v.seen - {});
  }

  lemma UnderwayHas(v: View, live: set<Id>, now: int, fence: int, todo: set<Id>, removed: set<Id>, settled: set<Id>,
                    w: View, spent: int, id: Id)
    requires Wf(v) && Underway(v, live, now, fence, todo, removed, settled, w, spent) && id in todo
    ensures Wf(w) && id in w.intents && (id in w.chunks ==> w.chunks[id] != [])
    ensures Doomed(w, live, now, fence, id) == Doomed(v, live, now, fence, id)
  {
    hide Doomed;
    CollectHas(v, live, now, fence, todo, removed, settled, id);
    assert id in v.chunks <==> id in w.chunks;
    DoomedIsLocal(v, w, live, now, fence, id);
  }

  lemma CollectHas(v: View, live: set<Id>, now: int, fence: int, todo: set<Id>, removed: set<Id>, settled: set<Id>, id: Id)
    requires Wf(v) && CollectedSoFar(v, live, now, fence, todo, removed, settled) && id in todo
    ensures id in v.intents && id !in removed && id !in settled
  {
  }

  lemma UnderwayStep(v: View, live: set<Id>, now: int, fence: int, todo: set<Id>, removed: set<Id>, settled: set<Id>,
                     w: View, spent: int, id: Id, gone: bool, sets: bool)
    requires Wf(v) && Wf(w) && Underway(v, live, now, fence, todo, removed, settled, w, spent) && id in todo
    requires gone == Doomed(w, live, now, fence, id) && sets == (gone || (id in live && id in w.chunks))
    ensures spent + SettleCost(w, live, now, fence, id) <= CollectCost(v, live, now, fence)
    ensures Underway(v, live, now, fence, todo - {id}, if gone then removed + {id} else removed, if sets then settled + {id} else settled,
                     View(if gone then w.chunks - {id} else w.chunks, if sets then w.intents - {id} else w.intents,
                          if sets then w.seen - {id} else w.seen),
                     spent + SettleCost(w, live, now, fence, id))
  {
    hide Doomed;
    UnderwayHas(v, live, now, fence, todo, removed, settled, w, spent, id);
    CollectHas(v, live, now, fence, todo, removed, settled, id);
    assert id in v.chunks <==> id in w.chunks;
    CollectStep(v, live, now, fence, todo, removed, settled, id);
    UnderwayPaid(v, live, now, fence, todo, removed, settled, id, gone, sets);
    LessOne(v.chunks, removed, id);
    LessOne(v.intents, settled, id);
    LessOne(v.seen, settled, id);
  }

  lemma LessOne<T>(m: map<Id, T>, ids: set<Id>, id: Id)
    ensures m - ids - {id} == m - (ids + {id})
  {
  }

  lemma UnderwayPaid(v: View, live: set<Id>, now: int, fence: int, todo: set<Id>, removed: set<Id>, settled: set<Id>,
                     id: Id, gone: bool, sets: bool)
    requires Wf(v) && CollectedSoFar(v, live, now, fence, todo, removed, settled) && id in todo
    requires gone == Doomed(v, live, now, fence, id) && sets == (gone || (id in live && id in v.chunks))
    ensures Files(v.chunks, if gone then removed + {id} else removed)
            == Files(v.chunks, removed) + if gone then FilesOf(v.chunks, id) else 0
    ensures Files(v.intents, if sets then settled + {id} else settled)
            == Files(v.intents, settled) + if sets then FilesOf(v.intents, id) else 0
    ensures Files(v.chunks, if gone then removed + {id} else removed) + Files(v.intents, if sets then settled + {id} else settled)
            <= CollectCost(v, live, now, fence)
  {
    CollectHas(v, live, now, fence, todo, removed, settled, id);
    FilesAnd(v.chunks, removed, id);
    FilesAnd(v.intents, settled, id);
    var taken := Taken(v, live, now, fence);
    FilesWithin(v.chunks, if gone then removed + {id} else removed, taken);
    FilesWithin(v.intents, if sets then settled + {id} else settled, taken + (v.intents.Keys * v.chunks.Keys * live));
  }

  lemma UnderwayDone(v: View, live: set<Id>, now: int, fence: int, removed: set<Id>, settled: set<Id>, w: View, spent: int)
    requires Wf(v) && Underway(v, live, now, fence, {}, removed, settled, w, spent)
    ensures w == Phase2(v, live, now, fence) && spent == CollectCost(v, live, now, fence)
    ensures removed == v.chunks.Keys - w.chunks.Keys
    ensures Phase2Cut(v, View(w.chunks, w.intents, v.seen), live, now, fence)
  {
    CollectDone(v, live, now, fence, removed, settled);
    assert removed == Taken(v, live, now, fence);
    assert settled == removed + (v.intents.Keys * v.chunks.Keys * live);
    CollectCutWhole(v, live, now, fence, removed, settled);
  }

  lemma CollectCutWhole(v: View, live: set<Id>, now: int, fence: int, removed: set<Id>, settled: set<Id>)
    requires Wf(v) && CollectedSoFar(v, live, now, fence, {}, removed, settled)
    ensures Phase2Cut(v, View(v.chunks - removed, v.intents - settled, v.seen), live, now, fence)
  {
    hide Doomed;
  }

  /** Settling one chunk of `w` was broken off and left these chunks and intents. */
  ghost predicate BrokenOff(w: View, live: set<Id>, now: int, fence: int, id: Id, chunks: Chunks, intents: Intents)
    requires Wf(w)
  {
    && SameBut(w.chunks, chunks, id) && SameBut(w.intents, intents, id)
    && (id in intents ==> id in w.intents && intents[id] != [] && forall r :: r in intents[id] ==> r in w.intents[id])
    && (id in chunks ==> id in w.chunks && chunks[id] != [] && forall m :: m in chunks[id] ==> m in w.chunks[id])
    && (!Doomed(w, live, now, fence, id) ==> chunks == w.chunks)
  }

  lemma UnderwayCut(v: View, live: set<Id>, now: int, fence: int, todo: set<Id>, removed: set<Id>, settled: set<Id>,
                    w: View, spent: int, id: Id, chunks: Chunks, intents: Intents)
    requires Wf(v) && Wf(w) && Underway(v, live, now, fence, todo, removed, settled, w, spent) && id in todo
    requires BrokenOff(w, live, now, fence, id, chunks, intents)
    ensures Phase2Cut(v, View(chunks, intents, v.seen), live, now, fence)
  {
    hide Doomed;
    UnderwayHas(v, live, now, fence, todo, removed, settled, w, spent, id);
    CollectCut(v, live, now, fence, todo, removed, settled, id, chunks, intents);
  }

  datatype Report = Report(candidates: set<Id>, written: set<Id>, cancelled: set<Id>, reaped: set<Id>)

  /** One vault as one device sees it. The first `budget` disk writes and removals succeed
      and the next one fails, which ends the run: an error and a crash leave the same disk. */
  class Store {
    var refs: Refs
    var chunks: Chunks
    var intents: Intents
    var seen: Seen
    var budget: nat

    constructor (refs: Refs, v: View, budget: nat)
      ensures this.refs == refs && this.budget == budget && Look() == v
    {
      this.refs := refs;
      chunks, intents, seen := v.chunks, v.intents, v.seen;
      this.budget := budget;
    }

    ghost function Look(): View
      reads this
    {
      View(chunks, intents, seen)
    }

    method Spend() returns (ok: bool)
      modifies this`budget
      ensures ok <==> old(budget) > 0
      ensures budget == old(budget) - if ok then 1 else 0
    {
      ok := budget > 0;
      if ok {
        budget := budget - 1;
      }
    }

    /** Deletes the intent files of one chunk one by one. */
    method RemoveIntents(id: Id) returns (ok: bool)
      requires id in intents && intents[id] != []
      modifies this`intents, this`budget
      ensures SameBut(old(intents), intents, id)
      ensures ok ==> id !in intents
      ensures !ok ==> budget == 0
      ensures ok <==> old(budget) >= |old(intents)[id]|
      ensures ok ==> budget == old(budget) - |old(intents)[id]|
      ensures id in intents ==> intents[id] != [] && forall r :: r in intents[id] ==> r in old(intents)[id]
    {
      var left := intents[id];
      while left != []
        invariant left == (if id in intents then intents[id] else [])
        invariant id in intents <==> left != []
        invariant forall r :: r in left ==> r in old(intents)[id]
        invariant budget == old(budget) - (|old(intents)[id]| - |left|)
        invariant SameBut(old(intents), intents, id)
        decreases |left|
      {
        ok := Spend();
        if !ok {
          return;
        }
        left := left[1..];
        intents := if left == [] then intents - {id} else intents[id := left];
      }
      ok := true;
    }

    method WriteIntent(id: Id, now: int) returns (ok: bool)
      requires id !in intents
      modifies this`intents, this`budget
      ensures intents == if ok then old(intents)[id := [Some(now)]] else old(intents)
      ensures !ok ==> budget == 0
      ensures ok <==> old(budget) > 0
      ensures budget == old(budget) - if ok then 1 else 0
    {
      ok := Spend();
      if ok {
        intents := intents[id := [Some(now)]];
      }
    }

    /** One marked chunk: its intents go when it is referenced or missing; otherwise it gets a
        first-seen date unless it has one. */
    method ReviewOne(id: Id, live: set<Id>, now: int, seenSoFar: Seen) returns (ok: bool, first: Seen)
      requires id in intents && intents[id] != []
      modifies this`intents, this`budget
      ensures SameBut(old(intents), intents, id)
      ensures id in live || id !in chunks ==> first == seenSoFar - {id} && (ok ==> id !in intents)
      ensures id !in live && id in chunks ==> ok && intents == old(intents)
      ensures id !in live && id in chunks ==> first == if id in seenSoFar then seenSoFar else seenSoFar[id := Some(now)]
      ensures id in intents ==> intents[id] != [] && forall r :: r in intents[id] ==> r in old(intents)[id]
      ensures !ok ==> budget == 0
      ensures var cost := if id in live || id !in chunks then |old(intents)[id]| else 0;
              (ok <==> old(budget) >= cost) && (ok ==> budget == old(budget) - cost)
    {
      ok, first := true, seenSoFar;
      if id in live || id !in chunks {
        first := first - {id};
        ok := RemoveIntents(id);
      } else if id !in first {
        first := first[id := Some(now)];
      }
    }

    /** Cancels the intents of referenced chunks, reaps those of missing chunks, and dates this
        device's first sight of the others. The dates are returned, not yet saved. */
    method ReviewIntents(live: set<Id>, now: int)
      returns (ok: bool, first: Seen, cancelled: set<Id>, reaped: set<Id>)
      requires Wf(Look())
      modifies this`intents, this`budget
      ensures ok ==> intents == old(intents) - Unmarked(old(Look()), live)
      ensures ok ==> first == Phase1(old(Look()), live, now).seen
      ensures ok ==> cancelled == old(intents).Keys * live && reaped == old(intents).Keys - live - chunks.Keys
      ensures !ok ==> budget == 0 && FilesFrom(old(intents), intents, {})
      ensures ok <==> old(budget) >= ReviewCost(old(Look()), live)
      ensures ok ==> budget == old(budget) - ReviewCost(old(Look()), live)
    {
      hide *;
      ghost var v, start := Look(), budget;
      first, cancelled, reaped := seen, {}, {};
      ReviewBegins(live, now);
      var todo := intents.Keys;
      while todo != {}
        invariant todo <= v.intents.Keys && v.chunks == chunks
        invariant KeptSoFar(v, live, todo, intents)
        invariant SeenSoFar(v, live, now, todo, first)
        invariant ToldSoFar(v, live, todo, cancelled, reaped)
        invariant budget == start - ReviewPaid(v, live, todo)
      {
        var id :| id in todo;
        SeenStep(v, live, now, todo, first, id);
        KeptHas(v, live, todo, intents, id);
        ToldStep(v, live, todo, cancelled, reaped, id);
        PaidStep(v, live, todo, id);
        IntentsHold(v, id);
        ghost var before := intents;
        ok, first := ReviewOne(id, live, now, first);
        KeptStep(v, live, todo, before, intents, id);
        if !ok {
          return;
        }
        todo := todo - {id};
        if id in live {
          cancelled := cancelled + {id};
        } else if id !in chunks {
          reaped := reaped + {id};
        }
      }
      ReviewDone(v, live, now, intents, first);
      PaidDone(v, live);
      ToldDone(v, live, cancelled, reaped);
      ok := true;
    }

    lemma ReviewBegins(live: set<Id>, now: int)
      ensures Look().intents == intents && Look().chunks == chunks && Look().seen == seen
      ensures KeptSoFar(Look(), live, intents.Keys, intents) && SeenSoFar(Look(), live, now, intents.Keys, seen)
      ensures ToldSoFar(Look(), live, intents.Keys, {}, {}) && ReviewPaid(Look(), live, intents.Keys) == 0
    {
      ReviewStart(Look(), live, now);
      ToldStart(Look(), live);
      PaidStart(Look(), live);
    }

    /** Marks every unreferenced chunk that had no intent when the phase began. */
    method MarkCandidates(live: set<Id>, listed: set<Id>, now: int)
      returns (ok: bool, candidates: set<Id>, written: set<Id>)
      requires Reviewed(chunks.Keys, live, listed, intents)
      modifies this`intents, this`budget
      ensures ok ==> intents.Keys == candidates == chunks.Keys - live && written == candidates - listed
      ensures !ok ==> budget == 0
      ensures ok <==> old(budget) >= MarkCost(chunks.Keys, live, listed)
      ensures ok ==> budget == old(budget) - MarkCost(chunks.Keys, live, listed)
      ensures DatedFrom(old(intents), now, intents)
    {
      hide *;
      candidates, written := {}, {};
      var todo := chunks.Keys;
      MarkStart(chunks.Keys, live, listed, intents, now);
      while todo != {}
        invariant todo <= chunks.Keys
        invariant MarkedSoFar(chunks.Keys, live, old(intents), now, todo, intents)
        invariant ListedSoFar(chunks.Keys, live, listed, todo, candidates, written)
        invariant budget == old(budget) - |written|
      {
        var id :| id in todo;
        MarkStep(chunks.Keys, live, listed, old(intents), now, todo, intents, id);
        ListStep(chunks.Keys, live, listed, todo, candidates, written, id);
        MarkKeeps(chunks.Keys, live, old(intents), now, todo, intents);
        todo := todo - {id};
        if id in live {
          continue;
        }
        candidates := candidates + {id};
        if id in listed {
          continue;
        }
        ok := WriteIntent(id, now);
        if !ok {
          return;
        }
        written := written + {id};
      }
      MarkDone(chunks.Keys, live, listed, old(intents), now, intents, candidates, written);
      MarkKeeps(chunks.Keys, live, old(intents), now, todo, intents);
      ok := true;
    }

    method SaveSeen(first: Seen) returns (ok: bool)
      modifies this`seen, this`budget
      ensures seen == if ok then first else old(seen)
      ensures !ok ==> budget == 0
      ensures var cost := if first != old(seen) then 1 else 0; (ok <==> old(budget) >= cost) && (ok ==> budget == old(budget) - cost)
    {
      ok := true;
      if first != seen {
        ok := Spend();
        if ok {
          seen := first;
        }
      }
    }

    method RunPhase1(now: int) returns (ok: bool, report: Report)
      requires Wf(Look())
      modifies this`intents, this`seen, this`budget
      ensures ok ==> Look() == Phase1(old(Look()), Live(refs), now)
      ensures ok ==> report.candidates == chunks.Keys - Live(refs)
      ensures ok ==> report.written == chunks.Keys - Live(refs) - old(intents).Keys
      ensures ok ==> report.cancelled == old(intents).Keys * Live(refs)
      ensures ok ==> report.reaped == old(intents).Keys - Live(refs) - chunks.Keys
      ensures !ok ==> budget == 0 && Phase1Cut(old(Look()), Look(), now)
      ensures ok <==> old(budget) >= Phase1Cost(old(Look()), Live(refs), now)
      ensures ok ==> budget == old(budget) - Phase1Cost(old(Look()), Live(refs), now)
    {
      hide *;
      var live := Live(refs);
      var listed := intents.Keys;
      ghost var v := Look();
      LookIs();
      CostOne(v, live, now);
      report := Report({}, {}, {}, {});
      var first, cancelled, reaped, candidates, written;
      ok, first, cancelled, reaped := ReviewIntents(live, now);
      ghost var was := intents;
      if !ok {
        DatedSame(was, now);
        PhaseOneCut(v, live, now, was, was);
        LookIs();
        return;
      }
      ReviewLeaves(v, live, intents);
      ok, candidates, written := MarkCandidates(live, listed, now);
      if !ok {
        ReviewedFrom(v, live, was);
        PhaseOneCut(v, live, now, was, intents);
        LookIs();
        return;
      }
      PhaseOne(v, live, now, was, intents);
      ok := SaveSeen(first);
      if !ok {
        ReviewedFrom(v, live, was);
        PhaseOneCut(v, live, now, was, intents);
      }
      LookIs();
      report := Report(candidates, written, cancelled, reaped);
    }

    lemma LookIs()
      ensures Look() == View(chunks, intents, seen)
    {
    }

    /** Deletes the copies of one chunk one by one. */
    method RemoveCopies(id: Id) returns (ok: bool)
      requires id in chunks && chunks[id] != []
      modifies this`chunks, this`budget
      ensures SameBut(old(chunks), chunks, id)
      ensures ok ==> id !in chunks
      ensures !ok ==> budget == 0
      ensures ok <==> old(budget) >= |old(chunks)[id]|
      ensures ok ==> budget == old(budget) - |old(chunks)[id]|
      ensures id in chunks ==> chunks[id] != [] && forall m :: m in chunks[id] ==> m in old(chunks)[id]
    {
      var left := chunks[id];
      while left != []
        invariant left == (if id in chunks then chunks[id] else [])
        invariant id in chunks <==> left != []
        invariant forall m :: m in left ==> m in old(chunks)[id]
        invariant budget == old(budget) - (|old(chunks)[id]| - |left|)
        invariant SameBut(old(chunks), chunks, id)
        decreases |left|
      {
        ok := Spend();
        if !ok {
          return;
        }
        left := left[1..];
        chunks := if left == [] then chunks - {id} else chunks[id := left];
      }
      ok := true;
    }

    /** Settles one marked chunk: cancels its intents if it is referenced, collects it if all
        fences have passed. `first` is the first-seen record as loaded. */
    method SettleOne(id: Id, live: set<Id>, first: Seen, now: int, fence: int)
      returns (ok: bool, settled: bool, gone: bool)
      requires Wf(Look()) && id in intents
      modifies this`chunks, this`intents, this`budget
      ensures ok ==> gone == Doomed(View(old(chunks), old(intents), first), live, now, fence, id)
      ensures ok ==> settled == (gone || (id in live && id in old(chunks)))
      ensures ok ==> chunks == if gone then old(chunks) - {id} else old(chunks)
      ensures ok ==> intents == if settled then old(intents) - {id} else old(intents)
      ensures var cost := SettleCost(View(old(chunks), old(intents), first), live, now, fence, id);
              (ok <==> old(budget) >= cost) && (ok ==> budget == old(budget) - cost)
      ensures !ok ==> budget == 0
      ensures BrokenOff(View(old(chunks), old(intents), first), live, now, fence, id, chunks, intents)
    {
      ok, settled, gone := true, false, false;
      if id !in chunks {
        return;
      }
      if id !in live {
        var recorded := OldestTime(intents[id]);
        if recorded.None? || now - recorded.value < fence {
          return;
        }
        if id !in first || first[id].None? || now - first[id].value < fence {
          return;
        }
        if now - NewestMtime(chunks[id]) < fence {
          return;
        }
        ok := RemoveCopies(id);
        if !ok {
          return;
        }
        gone := true;
      }
      ok := RemoveIntents(id);
      settled := true;
    }

    /** `known` is the index phase 1 read, and `live1` the set it computed from it; the index
        is read again only when it is no longer that one. */
    method RunPhase2(known: Refs, live1: set<Id>, now: int, fence: int) returns (ok: bool, removed: set<Id>, reloads: nat)
      requires Wf(Look()) && live1 == Live(known)
      modifies this`chunks, this`intents, this`seen, this`budget
      ensures ok ==> Look() == Phase2(old(Look()), Live(refs), now, fence)
      ensures ok ==> removed == old(chunks).Keys - chunks.Keys
      ensures !ok ==> budget == 0 && Phase2Cut(old(Look()), Look(), Live(refs), now, fence)
      ensures reloads == if refs == known then 0 else 1
      ensures ok <==> old(budget) >= Phase2Cost(old(Look()), Live(refs), now, fence)
      ensures ok ==> budget == old(budget) - Phase2Cost(old(Look()), Live(refs), now, fence)
    {
      hide *;
      var live := live1;
      reloads := 0;
      if refs != known {
        live := Live(refs);
        reloads := 1;
      }
      ghost var v, start := Look(), budget;
      LookIs();
      CostTwo(v, live, now, fence);
      var first := seen;
      removed := {};
      ghost var settledIds: set<Id> := {};
      var todo := intents.Keys;
      UnderwayStart(v, live, now, fence);
      while todo != {}
        invariant seen == v.seen && budget <= start
        invariant Underway(v, live, now, fence, todo, removed, settledIds, View(chunks, intents, first), start - budget)
      {
        var id :| id in todo;
        ghost var w := View(chunks, intents, first);
        UnderwayHas(v, live, now, fence, todo, removed, settledIds, w, start - budget, id);
        WfStays(w);
        ghost var gone1 := Doomed(w, live, now, fence, id);
        UnderwayStep(v, live, now, fence, todo, removed, settledIds, w, start - budget, id, gone1, gone1 || (id in live && id in w.chunks));
        ghost var spent := start - budget;
        var settled, gone;
        ok, settled, gone := SettleOne(id, live, first, now, fence);
        if !ok {
          UnderwayCut(v, live, now, fence, todo, removed, settledIds, w, spent, id, chunks, intents);
          LookIs();
          return;
        }
        todo := todo - {id};
        if gone {
          removed := removed + {id};
        }
        if settled {
          settledIds := settledIds + {id};
          first := first - {id};
        }
      }
      UnderwayDone(v, live, now, fence, removed, settledIds, View(chunks, intents, first), start - budget);
      ok := SaveSeen(first);
      LookIs();
    }

    lemma WfStays(w: View)
      requires Wf(w) && w.chunks == chunks && w.intents == intents
      ensures Wf(Look())
    {
    }

    /** A whole confirm run with no outside change. */
    method RunConfirm(t1: int, t2: int, fence: int) returns (ok: bool, removed: set<Id>)
      requires Wf(Look()) && t1 <= t2
      modifies this`chunks, this`intents, this`seen, this`budget
      ensures ok ==> Look() == Confirm(old(Look()), Live(refs), t1, t2, EffectiveFence(fence))
      ensures ok <==> old(budget) >= ConfirmCost(old(Look()), Live(refs), t1, t2, EffectiveFence(fence))
      ensures ok ==> removed == old(chunks).Keys - chunks.Keys
      ensures !ok ==> forall id :: id in Live(refs) && id in old(chunks) ==> id in chunks && chunks[id] == old(chunks)[id]
    {
      var known := refs;
      var live := Live(known);
      var report;
      removed := {};
      ok, report := RunPhase1(t1);
      if !ok {
        return;
      }
      var reloads;
      ok, removed, reloads := RunPhase2(known, live, t2, EffectiveFence(fence));
    }
  }
}
