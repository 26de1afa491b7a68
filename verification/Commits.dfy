/** Committing to a path that still has unreconciled copies: when an edit is overwritten, and
    what the cache then shows. */
module Commits {
  import opened Prelude
  import opened Manifests
  import opened Election
  import opened Loading
  import opened Cache
  import opened Coherence
  import opened Compaction
  import Settlement

  /** A commit leaves every losing edit on disk exactly when none of them still sits in the
      canonical file it writes. */
  lemma CommitKeepsEditsExactly(r: Ranks, d: Disk, walk: seq<Source>, p: Path, m: Manifest)
    requires DiskOk(d) && Walks(walk, d)
    ensures (forall c :: c in PlanOf(r, d, walk).conflicts ==> EditOnDisk(d, Written(d, p, m), c)) <==>
            (forall c :: c in PlanOf(r, d, walk).conflicts && c.source == Canonical(p) ==> c.source in d && m == d[c.source])
  {
    hide *;
    forall c | c in PlanOf(r, d, walk).conflicts
      ensures EditOnDisk(d, Written(d, p, m), c) <==> (c.source == Canonical(p) ==> c.source in d && m == d[c.source])
    {
      PlannedApart(r, d, walk, c);
      CommitKeepsEdit(d, c, p, m);
    }
  }

  lemma PlannedApart(r: Ranks, d: Disk, walk: seq<Source>, c: Planned)
    requires DiskOk(d) && Walks(walk, d) && c in PlanOf(r, d, walk).conflicts
    ensures c.source in d && c.source.path in Paths(d) && Canonical(c.path) !in d
    ensures c.path != c.source.path && c.path !in Paths(d)
    ensures c.path == ConflictCopy(c.source.path, ContentOf(c.file))
  {
    PlannedAre(r, d, walk, c);
    hide PlanOf;
    hide Group;
    hide Loses;
    hide FateUnder;
    hide Holder;
    hide Antichain;
  }

  lemma CommitKeepsEdit(d: Disk, c: Planned, p: Path, m: Manifest)
    requires c.source in d && Canonical(c.path) !in d && c.path != c.source.path
    ensures EditOnDisk(d, Written(d, p, m), c) <==> (c.source == Canonical(p) ==> m == d[c.source])
  {
  }

  /** Overwriting such an edit, unless another copy of the path has the same content, leaves the
      cache showing a conflict copy that no load of the disk gives. */
  lemma StaleAfterOverwrite(idx: Index, r: Ranks, d: Disk, walk: seq<Source>, c: Planned, m: Manifest)
    requires DiskOk(d) && Walks(walk, d) && Shows(idx, r, d, walk) && ClockOk(ClockOf(m))
    requires c in PlanOf(r, d, walk).conflicts && c.source == Canonical(c.source.path)
    requires forall s :: s in Written(d, c.source.path, m) && s.path == c.source.path ==>
                           ContentOf(Written(d, c.source.path, m)[s].file) != ContentOf(c.file)
    ensures !Fresh(Reflected(idx, c.source.path, m), r, Written(d, c.source.path, m))
  {
    var p, q := c.source.path, c.path;
    var d' := Written(d, p, m);
    var idx' := Reflected(idx, p, m);
    PlannedApart(r, d, walk, c);
    Settlement.OldConflictView(r, d, walk, c);
    hide PlanOf;
    hide LoadAt;
    assert Lookup(idx, q) == LoadAt(r, d, walk, q);
    assert Canonical(p) in d';
    assert p in Paths(d') && q !in Paths(d') && DiskOk(d');
    hide DiskOk;
    forall walk' | Walks(walk', d') ensures !Shows(idx', r, d', walk') {
      NoSuchCopy(r, d', walk', p, ContentOf(c.file));
      assert LoadAt(r, d', walk', q) == None && Lookup(idx', q).Some?;
    }
  }

  lemma NoSuchCopy(r: Ranks, d: Disk, walk: seq<Source>, p: Path, content: Content)
    requires DiskOk(d) && Walks(walk, d) && p in Paths(d) && ConflictCopy(p, content) !in Paths(d)
    requires forall s :: s in d && s.path == p ==> ContentOf(d[s].file) != content
    ensures LoadAt(r, d, walk, ConflictCopy(p, content)) == None
  {
    var g := Group(d, walk, p);
    GroupFacts(d, walk, p);
    ConflictsOf(r, p, g);
    var cs := Outcomes(r, d, walk, p).conflicts;
    forall e | e in cs ensures e.path != ConflictCopy(p, content) {
      var x :| Loses(r, g, x) && FateUnder(Holder(r, g).m, x.m) == Kept
               && e == Planned(ConflictPath(p, x.m.file), x.m.file, x.source);
      assert x.source in d && d[x.source] == x.m;
    }
    hide Outcomes;
    LastForIs(cs, ConflictCopy(p, content));
  }

  // ---- It does happen ----

  const HERE := Named("p")
  const MINE := Manifest(Stamp(1, Some(1)), false, 0, map["A" := 1],
                         FileRecord(1, 0, Stamp(1, Some(1)), 1, [ChunkRef("a", 1)], map["A" := 1]))
  const THEIRS := Manifest(Stamp(2, Some(2)), false, 0, map["B" := 1],
                           FileRecord(1, 0, Stamp(2, Some(2)), 2, [ChunkRef("b", 1)], map["B" := 1]))
  const TWO := map[Canonical(HERE) := MINE, Copy(HERE, "sync-conflict") := THEIRS]

  /** Two concurrent edits, the one in the canonical file losing the election: it is visible as
      a conflict copy, and any commit of different content overwrites its only record. */
  lemma CommitCanLoseAnEdit(r: Ranks, walk: seq<Source>, m: Manifest)
    requires Walks(walk, TWO) && r.content(ContentOf(THEIRS.file), false) > r.content(ContentOf(MINE.file), false)
    requires m != MINE
    ensures var c := Planned(ConflictPath(HERE, MINE.file), MINE.file, Canonical(HERE));
            && DiskOk(TWO) && c in PlanOf(r, TWO, walk).conflicts
            && LoadAt(r, TWO, walk, c.path).Some?
            && !EditOnDisk(TWO, Written(TWO, HERE, m), c)
  {
    var x, w := Candidate(MINE, Canonical(HERE)), Candidate(THEIRS, Copy(HERE, "sync-conflict"));
    var c := Planned(ConflictPath(HERE, MINE.file), MINE.file, Canonical(HERE));
    var g := Group(TWO, walk, HERE);
    Concurrent();
    hide *;
    InGroup(walk);
    ElectionOfTwo(r, g, x, w);
    PathOf();
    GroupFacts(TWO, walk, HERE);
    ConflictsOf(r, HERE, g);
    assert c in Reconcile(r, HERE, g).conflicts by { MineIsKept(); }
    PlansIt(r, walk, c);
    Settlement.OldConflictView(r, TWO, walk, c);
    PlannedApart(r, TWO, walk, c);
    assert TWO[Canonical(HERE)] == MINE;
    CommitKeepsEdit(TWO, c, HERE, m);
  }

  lemma MineIsKept()
    ensures FateUnder(THEIRS, MINE) == Kept
  {
  }

  lemma PathOf()
    ensures HERE in Paths(TWO) && forall q :: q in Paths(TWO) ==> q == HERE
  {
    assert Canonical(HERE) in TWO;
  }

  lemma PlansIt(r: Ranks, walk: seq<Source>, c: Planned)
    requires c in Reconcile(r, HERE, Group(TWO, walk, HERE)).conflicts && c.path == ConflictPath(HERE, MINE.file)
    ensures c in PlanOf(r, TWO, walk).conflicts
  {
    PathOf();
    hide Reconcile;
    hide Group;
    assert c in Outcomes(r, TWO, walk, HERE).conflicts;
    hide Outcomes;
    hide Paths;
  }

  lemma InGroup(walk: seq<Source>)
    requires Walks(walk, TWO)
    ensures forall y :: y in Group(TWO, walk, HERE) <==>
                        y == Candidate(MINE, Canonical(HERE)) || y == Candidate(THEIRS, Copy(HERE, "sync-conflict"))
  {
    assert Canonical(HERE) in TWO && Copy(HERE, "sync-conflict") in TWO;
  }

  lemma ElectionOfTwo(r: Ranks, g: seq<Candidate>, x: Candidate, w: Candidate)
    requires (forall y :: y in g <==> y == x || y == w) && x.m == MINE && w.m == THEIRS
    requires r.content(ContentOf(THEIRS.file), false) > r.content(ContentOf(MINE.file), false)
    ensures Antichain(g) != [] && Holder(r, g).m == THEIRS && Loses(r, g, x)
  {
    Concurrent();
    hide Dominates;
    assert !Dominated(x, g) && !Dominated(w, g);
    assert Beats(r, w.m, x.m);
    assert w in Antichain(g);
    assert MINE != THEIRS;
    assert Champion(r, Antichain(g), THEIRS);
    hide Compare;
    hide Dominated;
    ChampionWins(r, Antichain(g), THEIRS);
  }

  lemma Concurrent()
    ensures DiskOk(TWO)
    ensures Clocked(MINE) && Clocked(THEIRS) && ClockOk(ClockOf(MINE)) && ClockOk(ClockOf(THEIRS))
    ensures !Dominates(ClockOf(MINE), ClockOf(THEIRS)) && !Dominates(ClockOf(THEIRS), ClockOf(MINE))
  {
    var a: Clock, b: Clock := map["A" := 1], map["B" := 1];
    assert "A" in a && "B" in b;
    assert !Dominates(a, b) by { assert At(a, "B") == 0; }
    assert !Dominates(b, a) by { assert At(b, "A") == 0; }
  }

  // ---- And without losing any ----

  /** What A writes over its own live edit. */
  function Again(generation: int, chunks: seq<ChunkRef>): Manifest {
    Saved(FileRecord(1, 0, Stamp(3, Some(3)), generation, chunks, map["A" := 2]))
  }

  /** A's edit is live and B's a visible conflict copy; A writes again, superseding its own edit
      and overwriting no other, but the new content loses the election to B's. The cache then
      shows A's record where every load of the disk shows B's. */
  lemma CommitCanLoseItsElection(idx: Index, r: Ranks, generation: int, chunks: seq<ChunkRef>)
    requires Fresh(idx, r, TWO)
    requires var m := Again(generation, chunks);
             r.content(ContentOf(MINE.file), false) > r.content(ContentOf(THEIRS.file), false) > r.content(ContentOf(m.file), false)
    ensures var m := Again(generation, chunks);
            && Elects(r, TWO, HERE, MINE) && Dominates(ClockOf(m), ClockOf(MINE))
            && Elects(r, Written(TWO, HERE, m), HERE, THEIRS)
            && !Fresh(Reflected(idx, HERE, m), r, Written(TWO, HERE, m))
  {
    var m := Again(generation, chunks);
    var d := Written(TWO, HERE, m);
    Concurrent();
    TwoElections(r, m);
    hide Dominates;
    hide Elects;
    hide OneRecord;
    hide ShadowsAgree;
    hide Fresh;
    CommitFreshByWinner(idx, r, TWO, HERE, m, THEIRS);
    assert Slot(THEIRS) != Slot(m);
  }

  lemma TwoElections(r: Ranks, m: Manifest)
    requires !m.deleted && ClockOf(m) == map["A" := 2]
    requires r.content(ContentOf(MINE.file), false) > r.content(ContentOf(THEIRS.file), false) > r.content(ContentOf(m.file), false)
    ensures var d := Written(TWO, HERE, m);
            Elects(r, TWO, HERE, MINE) && Dominates(ClockOf(m), ClockOf(MINE)) && Elects(r, d, HERE, THEIRS) && OneRecord(d, HERE)
  {
    var d := Written(TWO, HERE, m);
    Concurrent();
    AgainClocks();
    assert Clocked(m);
    hide Dominates;
    ElectionOn(r, TWO, MINE, THEIRS);
    ElectionOn(r, d, THEIRS, m);
    assert ContentOf(m.file) != ContentOf(THEIRS.file);
    hide Elects;
    assert OneRecord(d, HERE);
  }

  lemma AgainClocks()
    ensures var a: Clock, b: Clock, c: Clock := map["A" := 2], map["B" := 1], map["A" := 1];
            ClockOk(a) && Dominates(a, c) && !Dominates(a, b) && !Dominates(b, a)
  {
    var a: Clock, b: Clock, c: Clock := map["A" := 2], map["B" := 1], map["A" := 1];
    assert "A" in a && "B" in b && "A" in c;
    assert !Dominates(a, b) by { assert At(a, "B") == 0; }
    assert !Dominates(b, a) by { assert At(b, "A") == 0; }
    assert At(a, "A") > c["A"];
  }

  /** Of two concurrent live copies the one with the greater content key is elected. */
  lemma ElectionOn(r: Ranks, d: Disk, win: Manifest, lose: Manifest)
    requires d.Keys == {Canonical(HERE), Copy(HERE, "sync-conflict")}
    requires {d[Canonical(HERE)], d[Copy(HERE, "sync-conflict")]} == {win, lose} && !win.deleted && !lose.deleted
    requires Clocked(win) && Clocked(lose)
    requires !Dominates(ClockOf(win), ClockOf(lose)) && !Dominates(ClockOf(lose), ClockOf(win))
    requires r.content(ContentOf(win.file), false) > r.content(ContentOf(lose.file), false)
    ensures Elects(r, d, HERE, win)
  {
    hide Dominates;
    assert Beats(r, win, lose);
    var s := if d[Canonical(HERE)] == win then Canonical(HERE) else Copy(HERE, "sync-conflict");
    assert s in d && d[s] == win;
    forall t | t in d ensures d[t] == win || d[t] == lose {
      assert d[t] in {d[Canonical(HERE)], d[Copy(HERE, "sync-conflict")]};
    }
    assert win != lose;
    assert Stands(d, HERE, s);
  }

  // ---- Generations after a write that does not raise the mark ----

  /** A directory marker is committed with a generation of its own, which does not raise the mark.
      The next generation is above all on disk exactly when it is above the marker's: when the
      clock has moved on from there, or the mark was no lower. */
  method MarkerThenNext(v: Vault, p: Path, marker: FileRecord, wallNano: int) returns (g: int)
    requires DiskOk(v.disk) && ClockOk(marker.clock) && Observed(v.disk, v.maxGen)
    modifies v
    ensures v.disk == Written(old(v.disk), p, Saved(marker)) && g == Max(wallNano, old(v.maxGen) + 1)
    ensures (forall s :: s in v.disk ==> v.disk[s].file.generation < g) <==>
            marker.generation < wallNano || marker.generation <= old(v.maxGen)
  {
    var ok := v.CommitFile(p, marker, false);
    g := v.NextGeneration(wallNano);
    assert Canonical(p) in v.disk;
  }

  /** Nor does the tombstone of a record moved by an upgrade, which takes the wall clock for its
      generation. */
  method TombstoneThenNext(v: Vault, p: Path, now: Stamp, generation: int, deletedGeneration: int, clock: Clock, wallNano: int)
    returns (g: int)
    requires DiskOk(v.disk) && ClockOk(clock) && Observed(v.disk, v.maxGen)
    modifies v
    ensures v.disk == Written(old(v.disk), p, Tombstone(now, generation, deletedGeneration, clock))
    ensures g == Max(wallNano, old(v.maxGen) + 1)
    ensures (forall s :: s in v.disk ==> v.disk[s].file.generation < g) <==>
            generation < wallNano || generation <= old(v.maxGen)
  {
    var ok := v.CommitTombstone(p, now, generation, deletedGeneration, clock, false);
    g := v.NextGeneration(wallNano);
    assert Canonical(p) in v.disk;
  }

  /** Nor a whole-index save of records that were not loaded. */
  method SaveThenNext(v: Vault, idx: Index, faults: nat -> bool, wallNano: int) returns (ok: bool, g: int)
    requires Observed(v.disk, v.maxGen)
    modifies v
    ensures g == Max(wallNano, old(v.maxGen) + 1)
    ensures ok ==> v.disk == AfterSave(old(v.disk), idx, idx.Keys)
    ensures ok ==> ((forall s :: s in v.disk ==> v.disk[s].file.generation < g) <==>
                    (forall q :: Plain(idx, q) ==> idx[q].file.generation < wallNano || idx[q].file.generation <= old(v.maxGen)))
  {
    ok := v.SaveIndex(idx, faults);
    ObservedAfterSave(old(v.disk), idx, idx.Keys, Max(wallNano - 1, v.maxGen));
    hide Fresh;
    hide Agrees;
    hide AfterSave;
    g := v.NextGeneration(wallNano);
  }
}
