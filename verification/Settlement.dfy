/** What a completed Compact leaves: the same index, and nothing more to do. */
module Settlement {
  import opened Prelude
  import opened Manifests
  import opened Election
  import opened Loading
  import opened Cache
  import opened Compaction

  /** Every path elects the same winner in whatever order its copies are met. */
  ghost predicate AllOrderFree(r: Ranks, d: Disk, walk: seq<Source>) {
    forall p :: p in Paths(d) ==> exists m :: Champion(r, Antichain(Group(d, walk, p)), m)
  }

  /** A store whose manifests all carry clocks is such a store, if copies that rank equal are equal. */
  lemma ClockedStoresAreOrderFree(r: Ranks, d: Disk, walk: seq<Source>)
    requires DiskOk(d) && Walks(walk, d) && forall s :: s in d ==> Clocked(d[s])
    requires forall p :: p in Paths(d) ==> NoTies(r, Antichain(Group(d, walk, p)))
    ensures AllOrderFree(r, d, walk)
  {
    forall p | p in Paths(d) ensures exists m :: Champion(r, Antichain(Group(d, walk, p)), m) {
      GroupFacts(d, walk, p);
      var g := Group(d, walk, p);
      assert AllClocksOk(Antichain(g));
      ClockedAntichain(d, g);
      var m := HomogeneousHasChampion(r, Antichain(g), Antichain(g));
    }
  }

  lemma ClockedAntichain(d: Disk, g: seq<Candidate>)
    requires AllClocksOk(g) && forall c :: c in g ==> c.source in d && c == Here(d, c.source) && Clocked(c.m)
    ensures Homogeneous(Antichain(g))
  {
    forall a, b | a in Antichain(g) && b in Antichain(g) ensures Clocked(a.m) && !Dominates(ClockOf(a.m), ClockOf(b.m)) {
      DominanceIsStrictOrder(ClockOf(a.m), ClockOf(b.m), ClockOf(a.m));
      assert !Dominated(b, g);
    }
  }

  /** A loser whose conflict path has manifests of its own is in no plan: it is neither
      materialised nor removed. */
  ghost predicate Deferred(r: Ranks, d: Disk, walk: seq<Source>, s: Source)
    requires s in d
  {
    var g := Group(d, walk, s.path);
    && Antichain(g) != [] && Loses(r, g, Here(d, s)) && FateUnder(Holder(r, g).m, d[s]) == Kept
    && ConflictPath(s.path, d[s].file) in Paths(d)
  }

  lemma DeferredIsLeftAlone(r: Ranks, d: Disk, walk: seq<Source>, s: Source)
    requires DiskOk(d) && Walks(walk, d) && s in d && Deferred(r, d, walk, s)
    ensures s !in PlanOf(r, d, walk).removes && !PlannedSource(PlanOf(r, d, walk), s)
  {
    hide PlanOf;
    KeptLoser(r, d, walk, s);
  }

  /** A loser that is kept is never simply removed, and is materialised exactly when its conflict
      path has no manifests. */
  lemma KeptLoser(r: Ranks, d: Disk, walk: seq<Source>, s: Source)
    requires DiskOk(d) && Walks(walk, d) && s in d
    requires var g := Group(d, walk, s.path);
             Antichain(g) != [] && Loses(r, g, Here(d, s)) && FateUnder(Holder(r, g).m, d[s]) == Kept
    ensures s !in PlanOf(r, d, walk).removes
    ensures PlannedSource(PlanOf(r, d, walk), s) <==> ConflictPath(s.path, d[s].file) !in Paths(d)
  {
    var plan, g := PlanOf(r, d, walk), Group(d, walk, s.path);
    if s in plan.removes {
      var p :| p in Paths(d) && s in Outcomes(r, d, walk, p).removes;
      RemovedAre(r, d, walk, p, s);
    }
    if PlannedSource(plan, s) {
      var c :| c in plan.conflicts && c.source == s;
      PlannedAre(r, d, walk, c);
    }
    assert s.path in Paths(d);
    GroupFacts(d, walk, s.path);
    ConflictsOf(r, s.path, g);
    hide Reconcile;
    hide Antichain;
    hide Holder;
    hide FateUnder;
    hide Dominated;
    assert Planned(ConflictPath(s.path, d[s].file), d[s].file, s) in Outcomes(r, d, walk, s.path).conflicts;
    PlanTakesAll(r, d, walk, s.path);
  }

  /** What is left of a path may be some of its copies, as long as none has lost every copy that
      superseded it. */
  ghost predicate Remnant(r: Ranks, g: seq<Candidate>, h: seq<Candidate>) {
    && (forall x :: x in h ==> x in g)
    && (forall x :: x in h && Dominated(x, g) ==> Dominated(x, h))
    && Antichain(g) != [] && Holder(r, g) in h
  }

  /** The holder of a path stays the holder of any such remnant, and losers stay losers. */
  lemma HolderOfAny(r: Ranks, g: seq<Candidate>, h: seq<Candidate>, m: Manifest)
    requires AllClocksOk(g) && Remnant(r, g, h) && Champion(r, Antichain(g), m)
    requires (forall c :: multiset(g)[c] <= 1) && forall c :: multiset(h)[c] <= 1
    ensures Holder(r, g).m == m && Antichain(h) != [] && Holder(r, h).m == m
    ensures forall x :: x in h && Loses(r, g, x) && FateUnder(m, x.m) == Kept ==> Loses(r, h, x)
  {
    ChampionWins(r, Antichain(g), m);
    LosersAre(r, g);
    forall x | x in h ensures Dominated(x, h) <==> Dominated(x, g) {
    }
    hide Dominated;
    assert Holder(r, g) in Antichain(h);
    assert Champion(r, Antichain(h), m);
    ChampionWins(r, Antichain(h), m);
    DuplicateIsNotKept(m);
  }

  /** A removal that fails after its conflict copy was written is retried only when that copy is
      gone again: on every later disk where the loser is still there beside such a remnant, it is
      never simply removed, and it is planned exactly when its conflict path has no manifests. */
  lemma FailedRemovalIsNotRetried(r: Ranks, d0: Disk, walk: seq<Source>, c: Planned, d: Disk, walk2: seq<Source>)
    requires DiskOk(d0) && Walks(walk, d0) && c in PlanOf(r, d0, walk).conflicts
    requires exists m :: Champion(r, Antichain(Group(d0, walk, c.source.path)), m)
    requires DiskOk(d) && Walks(walk2, d) && c.source in d
    requires Remnant(r, Group(d0, walk, c.source.path), Group(d, walk2, c.source.path))
    ensures c.source !in PlanOf(r, d, walk2).removes
    ensures PlannedSource(PlanOf(r, d, walk2), c.source) <==> c.path !in Paths(d)
  {
    PlannedAre(r, d0, walk, c);
    var p, s := c.source.path, c.source;
    assert p in Paths(d);
    GroupFacts(d0, walk, p);
    GroupFacts(d, walk2, p);
    var g, h := Group(d0, walk, p), Group(d, walk2, p);
    var m :| Champion(r, Antichain(g), m);
    assert Here(d, s) in h;
    assert Here(d, s) in g && Here(d, s) == Here(d0, s);
    hide PlanOf;
    hide Champion;
    hide Remnant;
    hide Group;
    hide Antichain;
    hide Holder;
    hide Dominated;
    hide FateUnder;
    HolderOfAny(r, g, h, m);
    KeptLoser(r, d, walk2, s);
  }

  /** In particular where the copies of that path are all as they were ... */
  lemma SameCopiesAreRemnant(r: Ranks, d0: Disk, walk: seq<Source>, d: Disk, walk2: seq<Source>, p: Path)
    requires DiskOk(d0) && Walks(walk, d0) && Walks(walk2, d) && p in Paths(d0)
    requires forall s: Source :: s.path == p ==> (s in d <==> s in d0) && (s in d ==> d[s] == d0[s])
    ensures Remnant(r, Group(d0, walk, p), Group(d, walk2, p))
  {
    var g, h := Group(d0, walk, p), Group(d, walk2, p);
    GroupFacts(d0, walk, p);
    forall x ensures x in h <==> x in g {
    }
    forall x ensures Dominated(x, g) == Dominated(x, h) {
      DominatedSame(x, g, h);
    }
    LosersAre(r, g);
  }

  /** The disk after every write and remove of the plan has gone through but the removal of c's source. */
  ghost predicate SettlesBut(d0: Disk, plan: Plan, c: Planned, d: Disk) {
    c.source in d && c.source in d0 && d[c.source] == d0[c.source] && Settles(d0, plan, d - {c.source})
  }

  /** ... and on the disk that the rest of the Compact leaves. */
  lemma RestOfCompactLeavesRemnant(r: Ranks, d0: Disk, walk: seq<Source>, c: Planned, d: Disk, walk2: seq<Source>)
    requires DiskOk(d0) && Walks(walk, d0) && c in PlanOf(r, d0, walk).conflicts
    requires DiskOk(d) && Walks(walk2, d) && SettlesBut(d0, PlanOf(r, d0, walk), c, d)
    ensures c.path in Paths(d)
    ensures Remnant(r, Group(d0, walk, c.source.path), Group(d, walk2, c.source.path))
  {
    var p := c.source.path;
    RestHasTarget(d0, PlanOf(r, d0, walk), c, d);
    hide *;
    RestKeepsHolder(r, d0, walk, c, d, walk2);
    var g, h := Group(d0, walk, p), Group(d, walk2, p);
    forall x | x in h ensures x in g && !Dominated(x, g) {
      RestStands(r, d0, walk, c, d, walk2, x);
    }
    RemnantOf(r, g, h);
  }

  lemma RemnantOf(r: Ranks, g: seq<Candidate>, h: seq<Candidate>)
    requires Antichain(g) != [] && Holder(r, g) in h && forall x :: x in h ==> x in g && !Dominated(x, g)
    ensures Remnant(r, g, h)
  {
  }

  lemma RestKeepsHolder(r: Ranks, d0: Disk, walk: seq<Source>, c: Planned, d: Disk, walk2: seq<Source>)
    requires DiskOk(d0) && Walks(walk, d0) && c in PlanOf(r, d0, walk).conflicts
    requires Walks(walk2, d) && SettlesBut(d0, PlanOf(r, d0, walk), c, d)
    ensures Antichain(Group(d0, walk, c.source.path)) != []
    ensures Holder(r, Group(d0, walk, c.source.path)) in Group(d, walk2, c.source.path)
  {
    PlannedAre(r, d0, walk, c);
    hide PlanOf;
    hide Antichain;
    hide Holder;
    hide Settles;
    hide Loses;
    HolderStays(r, d0, walk, d - {c.source}, c.source.path);
  }

  lemma RestHasTarget(d0: Disk, plan: Plan, c: Planned, d: Disk)
    requires SettlesBut(d0, plan, c, d) && c in plan.conflicts
    ensures c.path in Paths(d)
  {
    assert PlannedTarget(plan, Canonical(c.path));
    hide EditsSafe;
    assert Canonical(c.path) in d - {c.source};
  }

  lemma RestStands(r: Ranks, d0: Disk, walk: seq<Source>, c: Planned, d: Disk, walk2: seq<Source>, x: Candidate)
    requires DiskOk(d0) && Walks(walk, d0) && c in PlanOf(r, d0, walk).conflicts
    requires Walks(walk2, d) && SettlesBut(d0, PlanOf(r, d0, walk), c, d) && x in Group(d, walk2, c.source.path)
    ensures x in Group(d0, walk, c.source.path) && !Dominated(x, Group(d0, walk, c.source.path))
  {
    PlannedAre(r, d0, walk, c);
    hide PlanOf;
    hide FateUnder;
    hide Dominated;
    hide Antichain;
    hide Holder;
    hide Settles;
    var rest := d - {c.source};
    assert x.source in d && x.source.path == c.source.path && x == Here(d, x.source);
    if x.source != c.source {
      assert x.source in rest;
      LeftIsUntouched(r, d0, walk, rest, x.source);
      LeftOfPath(r, d0, walk, x.source);
    }
    hide Deferred;
    hide Loses;
    assert x == Here(d0, x.source);
  }

  // ---- A completed Compact ----

  /** A file of an old path that is still there is untouched and was in no part of the plan. */
  lemma LeftIsUntouched(r: Ranks, d0: Disk, walk: seq<Source>, d: Disk, s: Source)
    requires DiskOk(d0) && Walks(walk, d0) && Settles(d0, PlanOf(r, d0, walk), d)
    requires s in d && s.path in Paths(d0)
    ensures s in d0 && d[s] == d0[s]
    ensures s !in PlanOf(r, d0, walk).removes && !PlannedSource(PlanOf(r, d0, walk), s)
  {
    var plan := PlanOf(r, d0, walk);
    forall c | c in plan.conflicts ensures Canonical(c.path) != s {
      PlannedAre(r, d0, walk, c);
    }
    hide PlanOf;
    hide EditOnDisk;
  }

  lemma PlanTakesAll(r: Ranks, d: Disk, walk: seq<Source>, p: Path)
    requires p in Paths(d)
    ensures forall s :: s in Outcomes(r, d, walk, p).removes ==> s in PlanOf(r, d, walk).removes
    ensures forall c :: c in Outcomes(r, d, walk, p).conflicts && c.path !in Paths(d) ==>
                          c in PlanOf(r, d, walk).conflicts && PlannedSource(PlanOf(r, d, walk), c.source)
  {
  }

  /** What is left of a path: its holder, and losers that were deferred. */
  lemma LeftOfPath(r: Ranks, d0: Disk, walk: seq<Source>, s: Source)
    requires DiskOk(d0) && Walks(walk, d0) && s in d0
    requires s !in PlanOf(r, d0, walk).removes && !PlannedSource(PlanOf(r, d0, walk), s)
    ensures var g := Group(d0, walk, s.path);
            Antichain(g) != [] && !Dominated(Here(d0, s), g) && (Here(d0, s) == Holder(r, g) || Deferred(r, d0, walk, s))
  {
    var plan := PlanOf(r, d0, walk);
    var p := s.path;
    var g := Group(d0, walk, p);
    var x := Here(d0, s);
    assert p in Paths(d0);
    GroupFacts(d0, walk, p);
    EveryCopyAccountedFor(r, p, g, x);
    assert Reconcile(r, p, g) == Outcomes(r, d0, walk, p);
    hide Dominated;
    hide FateUnder;
    hide Reconcile;
    hide Antichain;
    hide Holder;
    PlanTakesAll(r, d0, walk, p);
    if x != Holder(r, g) {
      var c := Planned(ConflictPath(p, x.m.file), x.m.file, s);
      assert c in Outcomes(r, d0, walk, p).conflicts;
    }
  }

  /** The holder of every path is still there. */
  lemma HolderStays(r: Ranks, d0: Disk, walk: seq<Source>, d: Disk, p: Path)
    requires DiskOk(d0) && Walks(walk, d0) && Settles(d0, PlanOf(r, d0, walk), d) && p in Paths(d0)
    ensures var g := Group(d0, walk, p);
            && Antichain(g) != [] && Holder(r, g).source in d && Holder(r, g).source.path == p
            && d[Holder(r, g).source] == Holder(r, g).m
  {
    var plan := PlanOf(r, d0, walk);
    var g := Group(d0, walk, p);
    GroupFacts(d0, walk, p);
    LiveIsHolder(r, p, g);
    var w := Holder(r, g);
    assert w == Here(d0, w.source);
    if w.source in plan.removes {
      var q :| q in Paths(d0) && w.source in Outcomes(r, d0, walk, q).removes;
      RemovedAre(r, d0, walk, q, w.source);
    }
    if PlannedSource(plan, w.source) {
      var c :| c in plan.conflicts && c.source == w.source;
      PlannedAre(r, d0, walk, c);
    }
  }

  lemma DiskStaysOk(r: Ranks, d0: Disk, walk: seq<Source>, d: Disk)
    requires DiskOk(d0) && Walks(walk, d0) && EditsSafe(d0, PlanOf(r, d0, walk), d)
    ensures DiskOk(d)
  {
    hide PlanOf;
    hide EditOnDisk;
    hide Group;
    hide Loses;
    hide FateUnder;
    forall s | s in d ensures ClockOk(ClockOf(d[s])) {
      if !(s in d0 && d[s] == d0[s]) {
        var c :| c in PlanOf(r, d0, walk).conflicts && s == Canonical(c.path) && d[s] == Saved(c.file);
        PlannedAre(r, d0, walk, c);
        assert ClockOk(ClockOf(d0[c.source]));
      }
    }
  }

  /** Nothing at p is left to do: every copy but the holder is a loser whose conflict path is taken. */
  ghost predicate Quiet(r: Ranks, d: Disk, walk: seq<Source>, p: Path) {
    var h := Group(d, walk, p);
    && Antichain(h) != []
    && forall s :: s in d && s.path == p ==>
         && !Dominated(Here(d, s), h)
         && (Here(d, s) == Holder(r, h) || Deferred(r, d, walk, s))
  }

  lemma QuietSplits(r: Ranks, d: Disk, walk: seq<Source>, p: Path)
    requires DiskOk(d) && Walks(walk, d) && p in Paths(d) && Quiet(r, d, walk, p)
    ensures Outcomes(r, d, walk, p).removes == []
    ensures forall c :: c in Outcomes(r, d, walk, p).conflicts ==> c.path in Paths(d)
  {
    PlanTakesAll(r, d, walk, p);
    hide PlanOf;
    hide Outcomes;
    hide Quiet;
    hide Paths;
    hide Walks;
    hide DiskOk;
    var out := Outcomes(r, d, walk, p);
    if out.removes != [] {
      assert out.removes[0] in out.removes;
      QuietKeeps(r, d, walk, p, out.removes[0]);
    }
    forall c | c in out.conflicts ensures c.path in Paths(d) {
      QuietMakesNoCopy(r, d, walk, p, c);
    }
  }

  lemma QuietKeeps(r: Ranks, d: Disk, walk: seq<Source>, p: Path, s: Source)
    requires DiskOk(d) && Walks(walk, d) && p in Paths(d) && Quiet(r, d, walk, p)
    ensures s !in Outcomes(r, d, walk, p).removes
  {
    if s in Outcomes(r, d, walk, p).removes {
      RemovedAre(r, d, walk, p, s);
    }
  }

  lemma QuietMakesNoCopy(r: Ranks, d: Disk, walk: seq<Source>, p: Path, c: Planned)
    requires DiskOk(d) && Walks(walk, d) && p in Paths(d) && Quiet(r, d, walk, p)
    requires c in Outcomes(r, d, walk, p).conflicts
    ensures c.path in Paths(d)
  {
    GroupFacts(d, walk, p);
    ConflictsOf(r, p, Group(d, walk, p));
    hide Dominated;
    hide Antichain;
    hide Holder;
    hide FateUnder;
    hide Sorted;
    hide Reconcile;
    var g := Group(d, walk, p);
    var x :| Loses(r, g, x) && FateUnder(Holder(r, g).m, x.m) == Kept
             && c == Planned(ConflictPath(p, x.m.file), x.m.file, x.source);
    assert x == Here(d, x.source) && x.source.path == p;
    assert Deferred(r, d, walk, x.source);
  }

  lemma OldPathIsQuiet(r: Ranks, d0: Disk, walk: seq<Source>, d: Disk, walk2: seq<Source>, p: Path)
    requires DiskOk(d0) && Walks(walk, d0) && Settles(d0, PlanOf(r, d0, walk), d)
    requires DiskOk(d) && Walks(walk2, d) && p in Paths(d0) && Paths(d0) <= Paths(d)
    requires exists m :: Champion(r, Antichain(Group(d0, walk, p)), m)
    ensures Quiet(r, d, walk2, p)
    ensures Antichain(Group(d0, walk, p)) != []
    ensures Holder(r, Group(d, walk2, p)).m == Holder(r, Group(d0, walk, p)).m
  {
    hide Dominated;
    hide Antichain;
    hide Holder;
    hide FateUnder;
    hide Champion;
    hide PlanOf;
    hide EditsSafe;
    hide PlannedSource;
    hide PlannedTarget;
    hide ClockOk;
    var g, h := Group(d0, walk, p), Group(d, walk2, p);
    GroupFacts(d0, walk, p);
    GroupFacts(d, walk2, p);
    HolderStays(r, d0, walk, d, p);
    forall s | s in d && s.path == p
      ensures s in d0 && d[s] == d0[s] && !Dominated(Here(d0, s), g) && (Here(d0, s) == Holder(r, g) || Deferred(r, d0, walk, s))
    {
      LeftIsUntouched(r, d0, walk, d, s);
      LeftOfPath(r, d0, walk, s);
    }
    hide Settles;
    assert forall x :: x in h ==> x in g && !Dominated(x, g);
    var m :| Champion(r, Antichain(g), m);
    assert Holder(r, g) in h;
    HolderOfRemnant(r, g, h, m);
    forall s | s in d && s.path == p ensures !Dominated(Here(d, s), h) && (Here(d, s) == Holder(r, h) || Deferred(r, d, walk2, s)) {
      assert Here(d, s) == Here(d0, s) && Here(d, s) in h;
      if Here(d, s) != Holder(r, h) {
        DuplicateIsNotKept(m);
        assert Holder(r, h) in h;
        assert Holder(r, h) == Holder(r, g);
        assert Deferred(r, d0, walk, s);
      }
    }
  }

  lemma DuplicateIsNotKept(m: Manifest)
    ensures FateUnder(m, m) != Kept
  {
  }

  /** Taking away losers leaves the title where it was. */
  lemma HolderOfRemnant(r: Ranks, g: seq<Candidate>, h: seq<Candidate>, m: Manifest)
    requires AllClocksOk(g) && Antichain(g) != [] && (forall c :: multiset(h)[c] <= 1)
    requires (forall x :: x in h ==> x in g && !Dominated(x, g)) && Holder(r, g) in h && Champion(r, Antichain(g), m)
    ensures Holder(r, g).m == m && Antichain(h) != [] && Holder(r, h).m == m && Holder(r, h) in h
    ensures forall x :: x in h ==> !Dominated(x, h)
  {
    ChampionWins(r, Antichain(g), m);
    forall x | x in h ensures !Dominated(x, h) {
      assert !Dominated(x, g);
    }
    hide Dominated;
    assert Holder(r, g) in Antichain(h);
    assert Champion(r, Antichain(h), m);
    ChampionWins(r, Antichain(h), m);
    LosersAre(r, h);
  }

  /** A path that Compact brought into being holds one conflict copy and nothing else. */
  lemma NewPathHolds(r: Ranks, d0: Disk, walk: seq<Source>, d: Disk, p: Path)
    requires Settles(d0, PlanOf(r, d0, walk), d) && p in Paths(d) && p !in Paths(d0)
    ensures Canonical(p) in d && forall s :: s in d && s.path == p ==> s == Canonical(p)
    ensures exists c :: c in PlanOf(r, d0, walk).conflicts && c.path == p && d[Canonical(p)] == Saved(c.file)
  {
    hide PlanOf;
    hide EditOnDisk;
    hide PlannedSource;
    hide PlannedTarget;
    forall s | s in d && s.path == p ensures s == Canonical(p) {
      assert s !in d0;
    }
  }

  lemma NewPathIsQuiet(r: Ranks, d0: Disk, walk: seq<Source>, d: Disk, walk2: seq<Source>, p: Path)
    requires DiskOk(d0) && Walks(walk, d0) && Settles(d0, PlanOf(r, d0, walk), d)
    requires DiskOk(d) && Walks(walk2, d) && p in Paths(d) && p !in Paths(d0)
    ensures Quiet(r, d, walk2, p) && Canonical(p) in d
    ensures Holder(r, Group(d, walk2, p)) == Here(d, Canonical(p))
    ensures exists c :: c in PlanOf(r, d0, walk).conflicts && c.path == p && d[Canonical(p)] == Saved(c.file)
  {
    NewPathHolds(r, d0, walk, d, p);
    hide PlanOf;
    hide Settles;
    OnlyOneIsQuiet(r, d, walk2, p);
  }

  lemma OnlyOneIsQuiet(r: Ranks, d: Disk, walk: seq<Source>, p: Path)
    requires DiskOk(d) && Walks(walk, d) && Canonical(p) in d && forall s :: s in d && s.path == p ==> s == Canonical(p)
    ensures Quiet(r, d, walk, p) && Holder(r, Group(d, walk, p)) == Here(d, Canonical(p))
  {
    var h := Group(d, walk, p);
    assert p in Paths(d);
    GroupFacts(d, walk, p);
    LosersAre(r, h);
  }

  /** A Compact that completes leaves no work: whatever order the next load meets the files
      in, it plans nothing ... */
  lemma CompactSettles(r: Ranks, d0: Disk, walk: seq<Source>, d: Disk, walk2: seq<Source>)
    requires DiskOk(d0) && Walks(walk, d0) && AllOrderFree(r, d0, walk)
    requires Settles(d0, PlanOf(r, d0, walk), d) && Walks(walk2, d)
    ensures PlanOf(r, d, walk2) == Plan({}, {})
  {
    DiskStaysOk(r, d0, walk, d);
    PathsStay(r, d0, walk, d);
    forall p | p in Paths(d)
      ensures Outcomes(r, d, walk2, p).removes == [] && forall c :: c in Outcomes(r, d, walk2, p).conflicts ==> c.path in Paths(d)
    {
      if p in Paths(d0) {
        OldPathIsQuiet(r, d0, walk, d, walk2, p);
      } else {
        NewPathIsQuiet(r, d0, walk, d, walk2, p);
      }
      QuietSplits(r, d, walk2, p);
    }
    hide Outcomes;
    hide Settles;
    assert PlanOf(r, d, walk2).conflicts == {};
    assert PlanOf(r, d, walk2).removes == {};
  }

  lemma PathsStay(r: Ranks, d0: Disk, walk: seq<Source>, d: Disk)
    requires DiskOk(d0) && Walks(walk, d0) && Settles(d0, PlanOf(r, d0, walk), d)
    ensures Paths(d0) <= Paths(d)
  {
    forall p | p in Paths(d0) ensures p in Paths(d) {
      HolderStays(r, d0, walk, d, p);
    }
  }

  /** What an index may show after a Compact for what it showed before: the same entry, except
      that a conflict copy has become a file of its own, with the same content. */
  ghost predicate SameView(before: Option<Entry>, after: Option<Entry>, materialised: bool) {
    if !materialised || before == None then after == before
    else after.Some? && after.value.conflictOf == None && ContentOf(after.value.file) == ContentOf(before.value.file)
  }

  /** ... and its index shows every path just as before. */
  lemma CompactKeepsIndex(r: Ranks, d0: Disk, walk: seq<Source>, d: Disk, walk2: seq<Source>, q: Path)
    requires DiskOk(d0) && Walks(walk, d0) && AllOrderFree(r, d0, walk)
    requires Settles(d0, PlanOf(r, d0, walk), d) && Walks(walk2, d)
    ensures SameView(LoadAt(r, d0, walk, q), LoadAt(r, d, walk2, q), q !in Paths(d0))
  {
    DiskStaysOk(r, d0, walk, d);
    PathsStay(r, d0, walk, d);
    if q in Paths(d0) {
      OldPathIsQuiet(r, d0, walk, d, walk2, q);
      OldView(r, d0, walk, d, walk2, q);
    } else if q in Paths(d) {
      NewPathIsQuiet(r, d0, walk, d, walk2, q);
      NewView(r, d0, walk, d, walk2, q);
    } else {
      NoView(r, d0, walk, d, walk2, q);
    }
  }

  lemma OldView(r: Ranks, d0: Disk, walk: seq<Source>, d: Disk, walk2: seq<Source>, q: Path)
    requires DiskOk(d0) && Walks(walk, d0) && DiskOk(d) && Walks(walk2, d) && q in Paths(d0) && q in Paths(d)
    requires Antichain(Group(d0, walk, q)) != [] && Antichain(Group(d, walk2, q)) != []
    requires Holder(r, Group(d, walk2, q)).m == Holder(r, Group(d0, walk, q)).m
    ensures LoadAt(r, d, walk2, q) == LoadAt(r, d0, walk, q)
  {
    hide Dominated;
    hide Antichain;
    hide FateUnder;
    hide Holder;
    hide ClockOk;
    GroupFacts(d0, walk, q);
    GroupFacts(d, walk2, q);
    LiveIsHolder(r, q, Group(d0, walk, q));
    LiveIsHolder(r, q, Group(d, walk2, q));
  }

  lemma NewView(r: Ranks, d0: Disk, walk: seq<Source>, d: Disk, walk2: seq<Source>, q: Path)
    requires DiskOk(d0) && Walks(walk, d0) && DiskOk(d) && Walks(walk2, d) && q in Paths(d) && q !in Paths(d0)
    requires Antichain(Group(d, walk2, q)) != []
    requires exists c :: c in PlanOf(r, d0, walk).conflicts && c.path == q && Holder(r, Group(d, walk2, q)).m == Saved(c.file)
    ensures SameView(LoadAt(r, d0, walk, q), LoadAt(r, d, walk2, q), true)
  {
    hide PlanOf;
    hide Dominated;
    hide Antichain;
    hide FateUnder;
    hide Holder;
    hide Sorted;
    var c :| c in PlanOf(r, d0, walk).conflicts && c.path == q && Holder(r, Group(d, walk2, q)).m == Saved(c.file);
    GroupFacts(d, walk2, q);
    LiveIsHolder(r, q, Group(d, walk2, q));
    assert LoadAt(r, d, walk2, q) == Some(Entry(c.file, None));
    hide Group;
    hide Reconcile;
    OldConflictView(r, d0, walk, c);
  }

  lemma OldConflictView(r: Ranks, d: Disk, walk: seq<Source>, c: Planned)
    requires DiskOk(d) && Walks(walk, d) && c in PlanOf(r, d, walk).conflicts
    ensures LoadAt(r, d, walk, c.path).Some? && ContentOf(LoadAt(r, d, walk, c.path).value.file) == ContentOf(c.file)
  {
    var p :| p in Paths(d) && c in Outcomes(r, d, walk, p).conflicts && c.path !in Paths(d);
    ConflictNames(r, d, walk, p);
    hide Outcomes;
    LastForIs(Outcomes(r, d, walk, p).conflicts, c.path);
  }

  lemma ConflictNames(r: Ranks, d: Disk, walk: seq<Source>, p: Path)
    requires DiskOk(d) && Walks(walk, d) && p in Paths(d)
    ensures forall c :: c in Outcomes(r, d, walk, p).conflicts ==> c.path == ConflictPath(p, c.file)
  {
    GroupFacts(d, walk, p);
    ConflictsOf(r, p, Group(d, walk, p));
  }

  lemma NoView(r: Ranks, d0: Disk, walk: seq<Source>, d: Disk, walk2: seq<Source>, q: Path)
    requires DiskOk(d0) && Walks(walk, d0) && AllOrderFree(r, d0, walk)
    requires Settles(d0, PlanOf(r, d0, walk), d) && DiskOk(d) && Walks(walk2, d)
    requires Paths(d0) <= Paths(d) && q !in Paths(d)
    ensures LoadAt(r, d, walk2, q) == None && LoadAt(r, d0, walk, q) == None
  {
    hide Group;
    hide Champion;
    hide Antichain;
    hide EditsSafe;
    hide ClockOk;
    hide Walks;
    hide Outcomes;
    hide Quiet;
    if q.ConflictCopy? && q.original in Paths(d) {
      if q.original in Paths(d0) {
        OldPathIsQuiet(r, d0, walk, d, walk2, q.original);
      } else {
        NewPathIsQuiet(r, d0, walk, d, walk2, q.original);
      }
      QuietSplits(r, d, walk2, q.original);
      LastForIs(Outcomes(r, d, walk2, q.original).conflicts, q);
    }
    if q.ConflictCopy? && q.original in Paths(d0) {
      var cs := Outcomes(r, d0, walk, q.original).conflicts;
      LastForIs(cs, q);
      PlanTakesAll(r, d0, walk, q.original);
      forall c | c in cs ensures c.path in Paths(d) {
        if c.path !in Paths(d0) {
          assert PlannedTarget(PlanOf(r, d0, walk), Canonical(c.path));
        }
      }
    }
  }
}
