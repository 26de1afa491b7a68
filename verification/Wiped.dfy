/** When a store loads empty, and when the refusal gate of garbage collection then refuses it. */
module Wiped {
  import opened Prelude
  import opened Manifests
  import opened Election
  import opened Loading
  import opened Cache
  import opened Coherence
  import opened Layout

  // ---- When a load is empty ----

  /** No load of the disk shows anything of p: its holder is a tombstone, and every loser kept as a
      conflict copy is left to manifests that its conflict path has. */
  ghost predicate GoneAt(r: Ranks, d: Disk, walk: seq<Source>, p: Path) {
    var g := Group(d, walk, p);
    && Antichain(g) != [] && Holder(r, g).m.deleted
    && forall x :: Loses(r, g, x) && FateUnder(Holder(r, g).m, x.m) == Kept ==> ConflictPath(p, x.m.file) in Paths(d)
  }

  ghost predicate AllGone(r: Ranks, d: Disk, walk: seq<Source>) { forall p :: p in Paths(d) ==> GoneAt(r, d, walk, p) }

  ghost predicate ShowsNothing(r: Ranks, d: Disk, walk: seq<Source>, p: Path) {
    Outcomes(r, d, walk, p).live == None && forall e :: e in Outcomes(r, d, walk, p).conflicts ==> e.path in Paths(d)
  }

  lemma EmptyByOutcomes(r: Ranks, d: Disk, walk: seq<Source>)
    requires DiskOk(d) && Walks(walk, d)
    ensures LoadIndex(r, d, walk) == map[] <==> forall p :: p in Paths(d) ==> ShowsNothing(r, d, walk, p)
  {
    LoadShows(r, d, walk);
    var idx := LoadIndex(r, d, walk);
    hide LoadIndex;
    hide LoadAt;
    forall p | p in Paths(d) && !ShowsNothing(r, d, walk, p) ensures idx != map[] {
      var q := ShownBy(r, d, walk, p);
      assert Lookup(idx, q) == LoadAt(r, d, walk, q);
    }
    if forall p :: p in Paths(d) ==> ShowsNothing(r, d, walk, p) {
      forall q ensures q !in idx {
        NothingShownAt(r, d, walk, q);
        assert Lookup(idx, q) == LoadAt(r, d, walk, q);
      }
    }
  }

  lemma ShownBy(r: Ranks, d: Disk, walk: seq<Source>, p: Path) returns (q: Path)
    requires DiskOk(d) && Walks(walk, d) && p in Paths(d) && !ShowsNothing(r, d, walk, p)
    ensures LoadAt(r, d, walk, q).Some?
  {
    if Outcomes(r, d, walk, p).live.Some? {
      q := p;
    } else {
      var e :| e in Outcomes(r, d, walk, p).conflicts && e.path !in Paths(d);
      q := e.path;
      GroupFacts(d, walk, p);
      ConflictsOf(r, p, Group(d, walk, p));
      hide Reconcile;
      assert q.ConflictCopy? && q.original == p;
      LastForIs(Outcomes(r, d, walk, p).conflicts, q);
    }
  }

  lemma NothingShownAt(r: Ranks, d: Disk, walk: seq<Source>, q: Path)
    requires forall p :: p in Paths(d) ==> ShowsNothing(r, d, walk, p)
    ensures LoadAt(r, d, walk, q) == None
  {
    hide Outcomes;
    if q in Paths(d) {
      assert ShowsNothing(r, d, walk, q);
    } else if q.ConflictCopy? && q.original in Paths(d) {
      assert ShowsNothing(r, d, walk, q.original);
      LastForIs(Outcomes(r, d, walk, q.original).conflicts, q);
    }
  }

  /** A load is empty exactly when the holder of every path is a tombstone and no loser it keeps
      gets a conflict path to itself. */
  lemma EmptyIndexExactly(r: Ranks, d: Disk, walk: seq<Source>)
    requires DiskOk(d) && Walks(walk, d)
    ensures LoadIndex(r, d, walk) == map[] <==> AllGone(r, d, walk)
  {
    EmptyByOutcomes(r, d, walk);
    hide *;
    forall p | p in Paths(d) ensures ShowsNothing(r, d, walk, p) <==> GoneAt(r, d, walk, p) {
      GoneIsNothingShown(r, d, walk, p);
    }
    AllGoneIs(r, d, walk);
  }

  lemma AllGoneIs(r: Ranks, d: Disk, walk: seq<Source>)
    requires forall p :: p in Paths(d) ==> (ShowsNothing(r, d, walk, p) <==> GoneAt(r, d, walk, p))
    ensures AllGone(r, d, walk) <==> forall p :: p in Paths(d) ==> ShowsNothing(r, d, walk, p)
  {
    hide ShowsNothing;
    hide GoneAt;
  }

  lemma GoneIsNothingShown(r: Ranks, d: Disk, walk: seq<Source>, p: Path)
    requires DiskOk(d) && Walks(walk, d) && p in Paths(d)
    ensures ShowsNothing(r, d, walk, p) <==> GoneAt(r, d, walk, p)
  {
    var g := Group(d, walk, p);
    GroupFacts(d, walk, p);
    LiveIsHolder(r, p, g);
    ConflictsOf(r, p, g);
    hide Reconcile;
    hide Antichain;
    hide Holder;
    hide Dominated;
    hide FateUnder;
    hide Group;
    hide Loses;
    var cs, w := Outcomes(r, d, walk, p).conflicts, Holder(r, g);
    forall x | Loses(r, g, x) && FateUnder(w.m, x.m) == Kept
      ensures Planned(ConflictPath(p, x.m.file), x.m.file, x.source) in cs
    {
    }
  }

  // ---- When the gate refuses ----

  /** The gate refuses a store exactly when no manifest is unreadable, the load comes out empty, and
      there is a live manifest all the same, or no manifest but chunks. */
  lemma RefusedExactly(r: Ranks, s: Rest, d: Disk, walk: seq<Source>)
    requires DiskOk(d) && Walks(walk, d)
    ensures Gate(r, s, d, walk) == Refused <==>
            && s.manifestStore && Unreadable !in s.strays
            && (if HasCandidates(s, d) then AllGone(r, d, walk) else s.legacy == None || s.legacy == Some(map[]))
            && (HasLiveManifest(s, d) || (!HasManifests(s, d) && s.hasChunks))
  {
    EmptyIndexExactly(r, d, walk);
    hide LoadIndex;
    hide AllGone;
  }

  /** In a store without strays, a live copy that leaves the load empty was superseded by another
      copy, or is no newer than what the winning delete had seen, or waits behind manifests of its
      conflict path. */
  lemma UnseenCopies(r: Ranks, d: Disk, walk: seq<Source>, src: Source)
    requires DiskOk(d) && Walks(walk, d) && AllGone(r, d, walk) && src in d && !d[src].deleted
    ensures var g := Group(d, walk, src.path);
            && Antichain(g) != [] && Holder(r, g).m.deleted
            && (Dominated(Here(d, src), g) || FateUnder(Holder(r, g).m, d[src]) == Suppressed
                || ConflictPath(src.path, d[src].file) in Paths(d))
  {
    var p := src.path;
    assert p in Paths(d) && GoneAt(r, d, walk, p);
    GroupFacts(d, walk, p);
    hide Antichain;
    hide Holder;
    hide Dominated;
    var g, x := Group(d, walk, p), Here(d, src);
    assert x in g && x != Holder(r, g);
    if !Dominated(x, g) {
      assert Loses(r, g, x);
    }
  }

  // ---- A healthy store that is refused ----

  const GONE := Named("content/p")
  const DELETED := Manifest(Stamp(2, Some(2)), true, 3, map[], FileRecord(0, 0, Stamp(2, Some(2)), 5, [], map[]))
  const LATE := Manifest(Stamp(1, Some(1)), false, 0, map[], FileRecord(1, 0, Stamp(1, Some(1)), 2, [ChunkRef("a", 1)], map[]))
  const SYNCED := map[Canonical(GONE) := DELETED, Copy(GONE, "sync-conflict") := LATE]

  /** A file was deleted, and a copy from before the delete arrives by a late sync. The load rightly
      shows nothing, and a Compact would remove the copy; without the workspace marker the store is
      refused all the same. */
  lemma SuppressedCopyIsRefused(r: Ranks, s: Rest, walk: seq<Source>)
    requires s.manifestStore && s.strays == {} && Walks(walk, SYNCED)
    ensures DiskOk(SYNCED) && Elects(r, SYNCED, GONE, DELETED) && FateUnder(DELETED, LATE) == Suppressed
    ensures Loaded(r, s, SYNCED, walk) == Some(map[]) && Gate(r, s, SYNCED, walk) == Refused
    ensures Copy(GONE, "sync-conflict") in PlanOf(r, SYNCED, walk).removes
  {
    SyncedElects(r);
    LateIsNotKept();
    assert Copy(GONE, "sync-conflict") in SYNCED && SYNCED[Copy(GONE, "sync-conflict")] == LATE;
    assert !LATE.deleted && DELETED.deleted && forall q :: q in Paths(SYNCED) ==> q == GONE;
    hide *;
    OneGoneIsEmpty(r, SYNCED, walk, GONE, DELETED);
    SyncedLoads(r, s, walk);
    LiveManifestIsRefused(r, s, SYNCED, walk, Copy(GONE, "sync-conflict"));
    UnkeptIsRemoved(r, SYNCED, walk, DELETED, Copy(GONE, "sync-conflict"));
  }

  lemma SyncedLoads(r: Ranks, s: Rest, walk: seq<Source>)
    requires s.manifestStore && s.strays == {} && LoadIndex(r, SYNCED, walk) == map[]
    ensures Loaded(r, s, SYNCED, walk) == Some(map[])
  {
    assert Canonical(GONE) in SYNCED;
    hide LoadIndex;
  }

  /** A disk of one path loads empty when that path elects a tombstone that no loser survives. */
  lemma OneGoneIsEmpty(r: Ranks, d: Disk, walk: seq<Source>, p: Path, c: Manifest)
    requires DiskOk(d) && Walks(walk, d) && Elects(r, d, p, c) && c.deleted && forall q :: q in Paths(d) ==> q == p
    requires forall f :: !KeptAt(d, p, c, f)
    ensures LoadIndex(r, d, walk) == map[]
  {
    OutcomeIs(r, d, walk, p, c);
    hide Outcomes;
    hide LoadIndex;
    hide KeptAt;
    hide Elects;
    hide Paths;
    EmptyByOutcomes(r, d, walk);
    assert ShowsNothing(r, d, walk, p);
  }

  /** A live loser that is not kept is removed by the plan. */
  lemma UnkeptIsRemoved(r: Ranks, d: Disk, walk: seq<Source>, c: Manifest, src: Source)
    requires DiskOk(d) && Walks(walk, d) && Elects(r, d, src.path, c) && c.deleted
    requires src in d && !d[src].deleted && FateUnder(c, d[src]) != Kept
    ensures src in PlanOf(r, d, walk).removes
  {
    var p := src.path;
    assert p in Paths(d);
    var g, x := Group(d, walk, p), Here(d, src);
    GroupFacts(d, walk, p);
    ElectsIs(r, d, walk, p, c);
    AntichainMembers(g);
    assert AllClocksOk(Antichain(g));
    ChampionWins(r, Antichain(g), c);
    assert x in g && Holder(r, g).m == c;
    EveryCopyAccountedFor(r, p, g, x);
    hide Reconcile;
    hide Holder;
    hide Antichain;
    hide Elects;
    hide Dominated;
    hide FateUnder;
    assert src in Outcomes(r, d, walk, p).removes;
  }

  lemma SyncedElects(r: Ranks)
    ensures DiskOk(SYNCED) && Elects(r, SYNCED, GONE, DELETED)
  {
    assert !Clocked(DELETED) && !Clocked(LATE);
    assert Beats(r, DELETED, LATE);
    assert Stands(SYNCED, GONE, Canonical(GONE));
  }

  lemma LateIsNotKept()
    ensures FateUnder(DELETED, LATE) == Suppressed
    ensures forall f :: !KeptAt(SYNCED, GONE, DELETED, f)
  {
    forall s | Stands(SYNCED, GONE, s) ensures FateUnder(DELETED, SYNCED[s]) != Kept {
    }
  }
}
