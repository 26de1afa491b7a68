/** The cached index of an open vault: what it means for it to equal a fresh load of the
    manifest files, and which writes keep it so. */
module Cache {
  import opened Prelude
  import opened Manifests
  import opened Election
  import opened Loading

  type Index = map<Path, Entry>

  /** The manifest that saving a file record writes. */
  function Saved(f: FileRecord): Manifest { Manifest(f.updatedAt, false, 0, f.clock, f) }

  /** The manifest that deleting a path writes. */
  function Tombstone(now: Stamp, generation: int, deletedGeneration: int, clock: Clock): Manifest {
    Manifest(now, true, Max(deletedGeneration, 0), clock, FileRecord(0, 0, now, generation, [], clock))
  }

  function ConflictPaths(r: Ranks, d: Disk, walk: seq<Source>): set<Path> {
    set p, c | p in Paths(d) && c in Outcomes(r, d, walk, p).conflicts :: c.path
  }

  function LoadIndex(r: Ranks, d: Disk, walk: seq<Source>): Index {
    map q | q in Paths(d) + ConflictPaths(r, d, walk) && LoadAt(r, d, walk, q).Some? :: LoadAt(r, d, walk, q).value
  }

  function Lookup(idx: Index, q: Path): Option<Entry> { if q in idx then Some(idx[q]) else None }

  ghost predicate Shows(idx: Index, r: Ranks, d: Disk, walk: seq<Source>) {
    forall q :: Lookup(idx, q) == LoadAt(r, d, walk, q)
  }

  /** The index is what loading the disk now gives, in some order the file system may choose. */
  ghost predicate Fresh(idx: Index, r: Ranks, d: Disk) {
    exists walk :: Walks(walk, d) && Shows(idx, r, d, walk)
  }

  lemma {:induction false} LastForIs(cs: seq<Planned>, q: Path)
    ensures LastFor(cs, q).Some? <==> exists c :: c in cs && c.path == q
    ensures LastFor(cs, q).Some? ==> exists c :: c in cs && c.path == q && c.file == LastFor(cs, q).value
  {
    if cs != [] {
      assert cs == Init(cs) + [Last(cs)];
      LastForIs(Init(cs), q);
    }
  }

  /** Of several copies planned at one conflict path, the last one met is shown. */
  lemma {:induction false} LastShows(cs: seq<Planned>, q: Path, i: nat)
    requires i < |cs| && cs[i].path == q && forall j :: i < j < |cs| ==> cs[j].path != q
    ensures LastFor(cs, q) == Some(cs[i].file)
  {
    if i < |cs| - 1 {
      LastShows(Init(cs), q, i);
    }
  }

  /** The index a load returns shows exactly what the reconciliation of each path decides. */
  lemma LoadShows(r: Ranks, d: Disk, walk: seq<Source>)
    ensures Shows(LoadIndex(r, d, walk), r, d, walk)
  {
    forall q ensures Lookup(LoadIndex(r, d, walk), q) == LoadAt(r, d, walk, q) {
      if q !in Paths(d) && q.ConflictCopy? && q.original in Paths(d) {
        LastForIs(Outcomes(r, d, walk, q.original).conflicts, q);
      }
    }
  }

  // ---- One commit ----

  /** No sync client has left a second manifest for this path. */
  ghost predicate OwnFileOnly(d: Disk, p: Path) { forall s :: s in d && s.path == p ==> s == Canonical(p) }

  /** What a commit of manifest m at p does to the disk, and to a cached index. */
  function Written(d: Disk, p: Path, m: Manifest): Disk { d[Canonical(p) := m] }

  function Reflected(idx: Index, p: Path, m: Manifest): Index {
    if m.deleted then idx - {p} else idx[p := Entry(m.file, None)]
  }

  /** A walk of the disk after a commit: the same, with the new file last. */
  function WalkOn(walk: seq<Source>, s: Source): seq<Source> { if s in walk then walk else walk + [s] }

  lemma {:induction false} GroupElsewhere(d: Disk, d': Disk, walk: seq<Source>, p: Path, q: Path)
    requires q != p && forall s: Source :: s.path != p ==> (s in d <==> s in d') && (s in d ==> d[s] == d'[s])
    ensures Group(d', walk, q) == Group(d, walk, q)
  {
    if walk != [] {
      GroupElsewhere(d, d', Init(walk), p, q);
    }
  }

  lemma GroupElsewhereOn(d: Disk, p: Path, m: Manifest, walk: seq<Source>, q: Path)
    requires q != p
    ensures Group(Written(d, p, m), WalkOn(walk, Canonical(p)), q) == Group(d, walk, q)
  {
    GroupElsewhere(d, Written(d, p, m), walk, p, q);
    var on := walk + [Canonical(p)];
    assert Init(on) == walk && Last(on) == Canonical(p);
  }

  /** A path whose only manifest is its own file loads as that manifest says, with no conflicts. */
  lemma OwnFileLoads(r: Ranks, d: Disk, walk: seq<Source>, p: Path)
    requires DiskOk(d) && Walks(walk, d) && Canonical(p) in d && OwnFileOnly(d, p)
    ensures forall c :: c !in Outcomes(r, d, walk, p).conflicts
    ensures LoadAt(r, d, walk, p) == if d[Canonical(p)].deleted then None else Some(Entry(d[Canonical(p)].file, None))
  {
    var g := Group(d, walk, p);
    var x := Candidate(d[Canonical(p)], Canonical(p));
    assert p in Paths(d) && x in g;
    GroupIsUnique(d, walk, p);
    forall c | c in g ensures c == x {
    }
    assert !Dominated(x, g);
    assert x in Antichain(g);
    hide Dominated;
    LiveIsHolder(r, p, g);
    assert Holder(r, g) == x;
    ConflictsOf(r, p, g);
    hide Reconcile;
    hide Holder;
  }

  /** The record a load shows at a conflict path that has no manifest of its own. */
  function ShadowAt(r: Ranks, d: Disk, walk: seq<Source>, q: Path): Option<FileRecord>
    requires q.ConflictCopy?
  {
    if q.original in Paths(d) then LastFor(Outcomes(r, d, walk, q.original).conflicts, q) else None
  }

  lemma LoadAgrees(r: Ranks, d: Disk, walk: seq<Source>, d': Disk, walk': seq<Source>, q: Path)
    requires q in Paths(d) <==> q in Paths(d')
    requires Outcomes(r, d, walk, q) == Outcomes(r, d', walk', q)
    requires q !in Paths(d) && q.ConflictCopy? ==> ShadowAt(r, d, walk, q) == ShadowAt(r, d', walk', q)
    ensures LoadAt(r, d, walk, q) == LoadAt(r, d', walk', q)
  {
    hide Outcomes;
    hide Paths;
    hide LastFor;
  }

  lemma NoCopyBeside(r: Ranks, d: Disk, walk: seq<Source>, p: Path, q: Path)
    requires DiskOk(d) && Walks(walk, d) && OwnFileOnly(d, p)
    ensures p in Paths(d) ==> LastFor(Outcomes(r, d, walk, p).conflicts, q) == None
  {
    if p in Paths(d) {
      assert Canonical(p) in d;
      OwnFileLoads(r, d, walk, p);
      LastForIs(Outcomes(r, d, walk, p).conflicts, q);
    }
  }

  lemma OutcomeElsewhere(r: Ranks, d: Disk, p: Path, m: Manifest, walk: seq<Source>, q: Path)
    requires q != p
    ensures Outcomes(r, Written(d, p, m), WalkOn(walk, Canonical(p)), q) == Outcomes(r, d, walk, q)
  {
    GroupElsewhereOn(d, p, m, walk, q);
  }

  lemma WalkGoesOn(d: Disk, p: Path, m: Manifest, walk: seq<Source>)
    requires Walks(walk, d)
    ensures Walks(WalkOn(walk, Canonical(p)), Written(d, p, m)) && Paths(Written(d, p, m)) == Paths(d) + {p}
  {
    assert Canonical(p) in Written(d, p, m);
  }

  lemma ShadowElsewhere(r: Ranks, d: Disk, walk: seq<Source>, p: Path, m: Manifest, q: Path)
    requires DiskOk(d) && ClockOk(ClockOf(m)) && Walks(walk, d) && OwnFileOnly(d, p) && q.ConflictCopy?
    ensures ShadowAt(r, Written(d, p, m), WalkOn(walk, Canonical(p)), q) == ShadowAt(r, d, walk, q)
  {
    var d', on := Written(d, p, m), WalkOn(walk, Canonical(p));
    WalkGoesOn(d, p, m, walk);
    if q.original == p {
      NoCopyBeside(r, d, walk, p, q);
      NoCopyBeside(r, d', on, p, q);
    } else {
      hide Walks;
      hide DiskOk;
      hide OwnFileOnly;
      hide Outcomes;
      OutcomeElsewhere(r, d, p, m, walk, q.original);
    }
  }

  lemma CommitElsewhere(r: Ranks, d: Disk, walk: seq<Source>, p: Path, m: Manifest, q: Path)
    requires DiskOk(d) && ClockOk(ClockOf(m)) && Walks(walk, d) && OwnFileOnly(d, p) && q != p
    ensures LoadAt(r, Written(d, p, m), WalkOn(walk, Canonical(p)), q) == LoadAt(r, d, walk, q)
  {
    hide *;
    WalkGoesOn(d, p, m, walk);
    OutcomeElsewhere(r, d, p, m, walk, q);
    if q.ConflictCopy? {
      ShadowElsewhere(r, d, walk, p, m, q);
    }
    LoadAgrees(r, d, walk, Written(d, p, m), WalkOn(walk, Canonical(p)), q);
  }

  lemma CommitHere(r: Ranks, d: Disk, walk: seq<Source>, p: Path, m: Manifest)
    requires DiskOk(d) && ClockOk(ClockOf(m)) && Walks(walk, d) && OwnFileOnly(d, p)
    ensures LoadAt(r, Written(d, p, m), WalkOn(walk, Canonical(p)), p) == if m.deleted then None else Some(Entry(m.file, None))
  {
    WalkGoesOn(d, p, m, walk);
    OwnFileLoads(r, Written(d, p, m), WalkOn(walk, Canonical(p)), p);
  }

  /** Committing a file or a tombstone to a path with no second manifest keeps the cached index
      equal to a fresh load, whatever else is unreconciled on the disk. */
  lemma CommitStaysFresh(idx: Index, r: Ranks, d: Disk, p: Path, m: Manifest)
    requires DiskOk(d) && ClockOk(ClockOf(m)) && Fresh(idx, r, d) && OwnFileOnly(d, p)
    ensures Fresh(Reflected(idx, p, m), r, Written(d, p, m))
  {
    hide LoadAt;
    hide Walks;
    hide DiskOk;
    hide ClockOf;
    hide OwnFileOnly;
    hide Written;
    hide WalkOn;
    var walk :| Walks(walk, d) && Shows(idx, r, d, walk);
    var d', on := Written(d, p, m), WalkOn(walk, Canonical(p));
    WalkGoesOn(d, p, m, walk);
    forall q ensures Lookup(Reflected(idx, p, m), q) == LoadAt(r, d', on, q) {
      if q == p {
        CommitHere(r, d, walk, p, m);
      } else {
        CommitElsewhere(r, d, walk, p, m, q);
        assert Lookup(idx, q) == LoadAt(r, d, walk, q);
      }
    }
    assert Shows(Reflected(idx, p, m), r, d', on);
  }

  // ---- A whole-index save ----

  ghost predicate AllOwn(d: Disk) { forall p :: OwnFileOnly(d, p) }

  /** A disk without second manifests loads as its files say, in any order. */
  lemma OwnDiskLoads(r: Ranks, d: Disk, walk: seq<Source>, q: Path)
    requires DiskOk(d) && Walks(walk, d) && AllOwn(d)
    ensures LoadAt(r, d, walk, q) ==
            if Canonical(q) in d && !d[Canonical(q)].deleted then Some(Entry(d[Canonical(q)].file, None)) else None
  {
    assert OwnFileOnly(d, q);
    if q in Paths(d) {
      assert Canonical(q) in d;
      OwnFileLoads(r, d, walk, q);
    } else if q.ConflictCopy? {
      assert OwnFileOnly(d, q.original);
      NoCopyBeside(r, d, walk, q.original, q);
    }
  }

  predicate Plain(idx: Index, q: Path) { q in idx && idx[q].conflictOf == None }

  function SavedFiles(idx: Index, done: set<Path>): Disk {
    map s: Source | s in (set q | q in done && Plain(idx, q) :: Canonical(q)) :: SavedAt(idx, done, s)
  }

  const NO_FILE := FileRecord(0, 0, Stamp(0, None), 0, [], map[])

  function SavedAt(idx: Index, done: set<Path>, s: Source): Manifest {
    Saved(if s.Canonical? && s.path in done && Plain(idx, s.path) then idx[s.path].file else NO_FILE)
  }

  /** Saving a whole index writes its plain entries over the disk, and deletes nothing. */
  function AfterSave(d: Disk, idx: Index, done: set<Path>): Disk { d + SavedFiles(idx, done) }

  /** So after a save the cached copy of that index equals a fresh load exactly when it holds no
      unmaterialised conflict entry and leaves out no file that is live on the disk. */
  lemma SaveIsFreshExactly(idx: Index, r: Ranks, d: Disk)
    requires DiskOk(d) && AllOwn(d) && forall q :: q in idx ==> ClockOk(idx[q].file.clock)
    ensures Fresh(idx, r, AfterSave(d, idx, idx.Keys)) <==>
            && (forall q :: q in idx ==> idx[q].conflictOf == None)
            && (forall s :: s in d && !d[s].deleted ==> s.path in idx)
  {
    var d' := AfterSave(d, idx, idx.Keys);
    AfterSaveIs(d, idx);
    var walk := AWalk(d');
    if (forall q :: q in idx ==> idx[q].conflictOf == None) && (forall s :: s in d && !d[s].deleted ==> s.path in idx) {
      hide LoadAt;
      forall q ensures Lookup(idx, q) == LoadAt(r, d', walk, q) {
        OwnDiskLoads(r, d', walk, q);
        assert OwnFileOnly(d, q);
      }
      assert Shows(idx, r, d', walk);
    }
    if Fresh(idx, r, d') {
      var w :| Walks(w, d') && Shows(idx, r, d', w);
      FreshCovers(idx, r, d, w);
    }
  }

  lemma AfterSaveIs(d: Disk, idx: Index)
    requires DiskOk(d) && AllOwn(d) && forall q :: q in idx ==> ClockOk(idx[q].file.clock)
    ensures DiskOk(AfterSave(d, idx, idx.Keys)) && AllOwn(AfterSave(d, idx, idx.Keys))
    ensures forall q :: Canonical(q) in AfterSave(d, idx, idx.Keys) <==> Plain(idx, q) || Canonical(q) in d
    ensures forall q :: Canonical(q) in AfterSave(d, idx, idx.Keys) ==>
                          AfterSave(d, idx, idx.Keys)[Canonical(q)] == if Plain(idx, q) then Saved(idx[q].file) else d[Canonical(q)]
  {
    var d' := AfterSave(d, idx, idx.Keys);
    forall p ensures OwnFileOnly(d', p) {
      assert OwnFileOnly(d, p);
    }
  }

  lemma FreshCovers(idx: Index, r: Ranks, d: Disk, walk: seq<Source>)
    requires DiskOk(d) && AllOwn(d) && forall q :: q in idx ==> ClockOk(idx[q].file.clock)
    requires var d' := AfterSave(d, idx, idx.Keys); Walks(walk, d') && Shows(idx, r, d', walk)
    ensures forall q :: q in idx ==> idx[q].conflictOf == None
    ensures forall s :: s in d && !d[s].deleted ==> s.path in idx
  {
    var d' := AfterSave(d, idx, idx.Keys);
    AfterSaveIs(d, idx);
    hide AfterSave;
    forall q | q in idx ensures idx[q].conflictOf == None {
      OwnDiskLoads(r, d', walk, q);
      assert Lookup(idx, q) == LoadAt(r, d', walk, q);
    }
    forall s | s in d && !d[s].deleted ensures s.path in idx {
      assert OwnFileOnly(d, s.path);
      OwnDiskLoads(r, d', walk, s.path);
      assert Lookup(idx, s.path) == LoadAt(r, d', walk, s.path);
    }
  }

  lemma {:induction false} AWalk(d: Disk) returns (walk: seq<Source>)
    ensures Walks(walk, d)
    decreases |d|
  {
    if d == map[] {
      walk := [];
    } else {
      var s :| s in d;
      assert |d - {s}| < |d| by {
        assert (d - {s}).Keys == d.Keys - {s};
        assert |d.Keys| == |d| && |(d - {s}).Keys| == |d - {s}|;
      }
      var rest := AWalk(d - {s});
      walk := rest + [s];
    }
  }
}
