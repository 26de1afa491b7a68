/** The open vault: its manifest store on disk and its cached index. Compact applies a load's
    plan; commits, tombstones, whole-index saves and reloads keep the cache in step. */
module Compaction {
  import opened Prelude
  import opened Manifests
  import opened Election
  import opened Loading
  import opened Cache
  import opened Coherence
  import opened FileOps

  datatype Report = Report(conflicts: set<Path>, removed: nat, orphans: nat, errors: nat)

  predicate Materialised(rep: Report) { rep.conflicts != {} || rep.removed > 0 || rep.orphans > 0 }

  ghost predicate Observed(d: Disk, g: int) { forall s :: s in d ==> d[s].file.generation <= g }

  // ---- What a plan promises, and what applying it may do ----

  /** The conditions under which a plan can be applied one write and one remove at a time. */
  ghost predicate PlanOk(d: Disk, plan: Plan) {
    && (forall c :: c in plan.conflicts ==>
          && c.source in d && !d[c.source].deleted && d[c.source].file == c.file
          && Canonical(c.path) !in d && c.source !in plan.removes
          && c.path.ConflictCopy? && c.path.content == ContentOf(c.file))
    && (forall c, e :: c in plan.conflicts && e in plan.conflicts && c.source == e.source ==> c == e)
    && plan.removes <= d.Keys
  }

  /** The losing edit is on disk: where it was, or under its conflict name. */
  ghost predicate EditOnDisk(d0: Disk, d: Disk, c: Planned) {
    || (c.source in d && c.source in d0 && d[c.source] == d0[c.source])
    || (Canonical(c.path) in d && !d[Canonical(c.path)].deleted
        && ContentOf(d[Canonical(c.path)].file) == ContentOf(c.file))
  }

  ghost predicate PlannedSource(plan: Plan, s: Source) { exists c :: c in plan.conflicts && c.source == s }

  ghost predicate PlannedTarget(plan: Plan, s: Source) { exists c :: c in plan.conflicts && Canonical(c.path) == s }

  /** A disk met while the plan is applied: no losing edit is gone, no other record is touched,
      and nothing appears but conflict copies with their content. */
  ghost predicate EditsSafe(d0: Disk, plan: Plan, d: Disk) {
    && (forall c :: c in plan.conflicts ==> EditOnDisk(d0, d, c))
    && (forall s :: s in d0 && !PlannedSource(plan, s) && s !in plan.removes ==> s in d && d[s] == d0[s])
    && (forall s :: s in d ==>
          (s in d0 && d[s] == d0[s])
          || (exists c :: c in plan.conflicts && s == Canonical(c.path) && d[s] == Saved(c.file)))
  }

  /** The disk after every write and remove of the plan has gone through. */
  ghost predicate Settles(d0: Disk, plan: Plan, d: Disk) {
    && (forall s :: s in d <==> PlannedTarget(plan, s) || (s in d0 && !PlannedSource(plan, s) && s !in plan.removes))
    && EditsSafe(d0, plan, d)
  }

  /** The chunks of every record the plan keeps are still referred to by some record. */
  lemma KeptChunksStay(d0: Disk, plan: Plan, d: Disk, s: Source)
    requires PlanOk(d0, plan) && EditsSafe(d0, plan, d) && s in d0 && s !in plan.removes
    ensures exists t :: t in d && d[t].file.chunks == d0[s].file.chunks
  {
    if PlannedSource(plan, s) {
      var c :| c in plan.conflicts && c.source == s;
      assert EditOnDisk(d0, d, c);
      if !(c.source in d && d[c.source] == d0[c.source]) {
        assert d[Canonical(c.path)].file.chunks == d0[s].file.chunks;
      }
    }
  }

  /** Every plan a load makes can be applied that way. */
  lemma LoadedPlanOk(r: Ranks, d: Disk, walk: seq<Source>)
    requires DiskOk(d) && Walks(walk, d)
    ensures PlanOk(d, PlanOf(r, d, walk))
  {
    var plan := PlanOf(r, d, walk);
    forall c | c in plan.conflicts
      ensures c.source in d && !d[c.source].deleted && d[c.source].file == c.file
              && c.path == ConflictPath(c.source.path, c.file) && Canonical(c.path) !in d && c.source !in plan.removes
    {
      PlannedAre(r, d, walk, c);
      if c.source in plan.removes {
        var p :| p in Paths(d) && c.source in Outcomes(r, d, walk, p).removes;
        RemovedAre(r, d, walk, p, c.source);
        assert false;
      }
    }
    forall s | s in plan.removes ensures s in d {
      var p :| p in Paths(d) && s in Outcomes(r, d, walk, p).removes;
      RemovedAre(r, d, walk, p, s);
    }
    forall c, e | c in plan.conflicts && e in plan.conflicts && c.source == e.source ensures c == e {
      PlannedAre(r, d, walk, c);
      PlannedAre(r, d, walk, e);
    }
  }

  /** A planned conflict is an undominated loser that was kept, and its path is free. */
  lemma PlannedAre(r: Ranks, d: Disk, walk: seq<Source>, c: Planned)
    requires DiskOk(d) && Walks(walk, d) && c in PlanOf(r, d, walk).conflicts
    ensures c.source in d && c.path !in Paths(d) && c == Planned(ConflictPath(c.source.path, c.file), d[c.source].file, c.source)
    ensures !d[c.source].deleted && c.source.path in Paths(d)
    ensures var g := Group(d, walk, c.source.path);
            && Antichain(g) != [] && Loses(r, g, Here(d, c.source))
            && FateUnder(Holder(r, g).m, d[c.source]) == Kept
  {
    var p :| p in Paths(d) && c in Outcomes(r, d, walk, p).conflicts && c.path !in Paths(d);
    var g := Group(d, walk, p);
    GroupFacts(d, walk, p);
    ConflictsOf(r, p, g);
    var x :| Loses(r, g, x) && FateUnder(Holder(r, g).m, x.m) == Kept
             && c == Planned(ConflictPath(p, x.m.file), x.m.file, x.source);
    assert x == Here(d, x.source);
  }

  /** A planned removal is a dominated copy or an undominated loser that was not kept. */
  lemma RemovedAre(r: Ranks, d: Disk, walk: seq<Source>, p: Path, s: Source)
    requires DiskOk(d) && Walks(walk, d) && p in Paths(d) && s in Outcomes(r, d, walk, p).removes
    ensures s in d && s.path == p
    ensures var g := Group(d, walk, p);
            && Antichain(g) != []
            && (Dominated(Here(d, s), g) || (Loses(r, g, Here(d, s)) && FateUnder(Holder(r, g).m, d[s]) != Kept))
  {
    var g := Group(d, walk, p);
    GroupFacts(d, walk, p);
    RemovesOf(r, p, g);
    var x :| x in g && s == x.source
             && (Dominated(x, g) || (Loses(r, g, x) && FateUnder(Holder(r, g).m, x.m) != Kept));
    assert x == Here(d, s);
  }

  // ---- Steps of applying a plan ----

  lemma SafeAtStart(d0: Disk, plan: Plan)
    requires PlanOk(d0, plan)
    ensures EditsSafe(d0, plan, d0)
  {
  }

  lemma SafeAfterWrite(d0: Disk, plan: Plan, d: Disk, c: Planned)
    requires PlanOk(d0, plan) && EditsSafe(d0, plan, d) && c in plan.conflicts
    ensures EditsSafe(d0, plan, d[Canonical(c.path) := Saved(c.file)])
  {
    var d' := d[Canonical(c.path) := Saved(c.file)];
    forall e | e in plan.conflicts ensures EditOnDisk(d0, d', e) {
      assert EditOnDisk(d0, d, e);
      assert e.source != Canonical(c.path);
      if e.path == c.path {
        assert ContentOf(c.file) == ContentOf(e.file);
      }
    }
  }

  lemma SafeAfterRemove(d0: Disk, plan: Plan, d: Disk, s: Source)
    requires PlanOk(d0, plan) && EditsSafe(d0, plan, d)
    requires s in plan.removes ||
             exists c :: c in plan.conflicts && c.source == s && Canonical(c.path) in d
                         && !d[Canonical(c.path)].deleted && ContentOf(d[Canonical(c.path)].file) == ContentOf(c.file)
    ensures EditsSafe(d0, plan, d - {s})
  {
    var d' := d - {s};
    forall e | e in plan.conflicts ensures EditOnDisk(d0, d', e) {
      assert EditOnDisk(d0, d, e);
      assert s in d0 && Canonical(e.path) !in d0;
    }
  }

  class Vault {
    const ranks: Ranks
    var disk: Disk
    var cached: Option<Index>
    /** The highest generation seen so far. */
    var maxGen: int

    constructor (ranks: Ranks, disk: Disk)
      ensures this.ranks == ranks && this.disk == disk && cached == None && maxGen == 0
    {
      this.ranks, this.disk, cached, maxGen := ranks, disk, None, 0;
    }

    /** The cached index is absent or what loading the disk now would give. */
    ghost predicate Coherent()
      reads this
    {
      cached.Some? ==> Fresh(cached.value, ranks, disk)
    }

    /** Folds the generations of the manifests walked, up to one that cannot be read. */
    method ObserveGenerations(walk: seq<Source>, unreadable: Option<nat>) returns (ok: bool)
      requires Walks(walk, disk)
      modifies this`maxGen
      ensures ok <==> unreadable == None || unreadable.value >= |walk|
      ensures maxGen >= old(maxGen) && (ok ==> Observed(disk, maxGen))
    {
      var i := 0;
      while i < |walk| && Some(i) != unreadable
        invariant i <= |walk| && (unreadable.Some? && unreadable.value < |walk| ==> i <= unreadable.value)
        invariant maxGen >= old(maxGen) && forall j :: 0 <= j < i ==> disk[walk[j]].file.generation <= maxGen
      {
        if disk[walk[i]].file.generation > maxGen {
          maxGen := disk[walk[i]].file.generation;
        }
        i := i + 1;
      }
      ok := i == |walk|;
    }

    /** The cached index, loaded on first use. */
    method CachedIndex(walk: seq<Source>, unreadable: Option<nat>) returns (idx: Option<Index>)
      requires Walks(walk, disk)
      modifies this`cached, this`maxGen
      ensures idx == cached
      ensures old(cached).Some? ==> cached == old(cached) && maxGen == old(maxGen)
      ensures old(cached) == None ==>
                cached == if unreadable.Some? && unreadable.value < |walk| then None else Some(LoadIndex(ranks, disk, walk))
      ensures maxGen >= old(maxGen) && (old(cached) == None && cached.Some? ==> Observed(disk, maxGen))
      ensures old(Coherent()) ==> Coherent()
    {
      if cached == None {
        var ok := ObserveGenerations(walk, unreadable);
        if ok {
          LoadShows(ranks, disk, walk);
          cached := Some(LoadIndex(ranks, disk, walk));
        }
      }
      idx := cached;
    }

    /** Discards the cached index and loads it again. */
    method ReloadIndex(walk: seq<Source>, unreadable: Option<nat>) returns (ok: bool)
      requires Walks(walk, disk)
      modifies this`cached, this`maxGen
      ensures ok <==> cached.Some?
      ensures cached == if unreadable.Some? && unreadable.value < |walk| then None else Some(LoadIndex(ranks, disk, walk))
      ensures Coherent() && maxGen >= old(maxGen) && (ok ==> Observed(disk, maxGen))
    {
      cached := None;
      var idx := CachedIndex(walk, unreadable);
      ok := idx.Some?;
    }

    /** A generation above every one observed, with the wall clock as a floor. */
    method NextGeneration(wallNano: int) returns (g: int)
      modifies this`maxGen
      ensures g > old(maxGen) && g >= wallNano && (g == wallNano || g == old(maxGen) + 1) && maxGen == g
      ensures old(Observed(disk, maxGen)) ==> Observed(disk, maxGen) && forall s :: s in disk ==> disk[s].file.generation < g
      ensures (forall s :: s in disk ==> disk[s].file.generation < g) <==>
              (forall s :: s in disk ==> disk[s].file.generation < wallNano || disk[s].file.generation <= old(maxGen))
    {
      g := wallNano;
      if maxGen + 1 > g {
        g := maxGen + 1;
      }
      maxGen := g;
    }

    /** Writes a file manifest, then reflects it in the cache; nothing changes if the write fails. */
    method CommitFile(p: Path, rec: FileRecord, failWrite: bool) returns (ok: bool)
      requires DiskOk(disk) && ClockOk(rec.clock)
      modifies this`disk, this`cached
      ensures ok == !failWrite && DiskOk(disk)
      ensures !ok ==> disk == old(disk) && cached == old(cached)
      ensures ok ==> disk == Written(old(disk), p, Saved(rec))
                     && (cached.Some? <==> old(cached).Some?)
                     && (cached.Some? ==> cached.value == Reflected(old(cached).value, p, Saved(rec)))
      ensures ok ==> Canonical(p) in disk
                     && disk[Canonical(p)] == Manifest(rec.updatedAt, false, 0, rec.clock, rec)
                     && disk - {Canonical(p)} == old(disk) - {Canonical(p)}
      ensures ok && cached.Some? ==> cached.value == old(cached).value[p := Entry(rec, None)]
      ensures old(Coherent()) && OwnFileOnly(old(disk), p) ==> Coherent()
      ensures ok && old(cached).Some? && old(Coherent()) ==> (Coherent() <==> AgreesAt(cached.value, ranks, disk, p))
      ensures forall c :: ok && old(cached).Some? && old(Coherent()) && Elects(ranks, disk, p, c) && OneRecord(disk, p) ==>
                            (Coherent() <==> Slot(c) == Some(Entry(rec, None)) && ShadowsAgree(old(cached).value, disk, p, c))
      ensures ok && old(Observed(disk, maxGen)) ==> (Observed(disk, maxGen) <==> rec.generation <= maxGen)
    {
      ok := !failWrite;
      if failWrite {
        return;
      }
      CommitEffect(cached, ranks, disk, p, Saved(rec), maxGen);
      hide Elects;
      hide OneRecord;
      hide ShadowsAgree;
      hide AgreesAt;
      hide Fresh;
      hide OwnFileOnly;
      hide Observed;
      disk := disk[Canonical(p) := Saved(rec)];
      if cached.Some? {
        cached := Some(cached.value[p := Entry(rec, None)]);
      }
    }

    /** Writes a tombstone, then drops the path from the cache; nothing changes if the write fails. */
    method CommitTombstone(p: Path, now: Stamp, generation: int, deletedGeneration: int, clock: Clock, failWrite: bool)
      returns (ok: bool)
      requires DiskOk(disk) && ClockOk(clock)
      modifies this`disk, this`cached
      ensures ok == !failWrite && DiskOk(disk)
      ensures !ok ==> disk == old(disk) && cached == old(cached)
      ensures ok ==> var m := Tombstone(now, generation, deletedGeneration, clock);
                     && disk == Written(old(disk), p, m)
                     && (cached.Some? <==> old(cached).Some?)
                     && (cached.Some? ==> cached.value == Reflected(old(cached).value, p, m))
      ensures ok ==> Canonical(p) in disk && disk - {Canonical(p)} == old(disk) - {Canonical(p)}
                     && var m := disk[Canonical(p)];
                     && m.deleted && m.updatedAt == now && m.clock == m.file.clock == clock && m.file.generation == generation
                     && (m.deletedGeneration == deletedGeneration || (m.deletedGeneration == 0 && deletedGeneration < 0))
      ensures ok && cached.Some? ==> cached.value == old(cached).value - {p}
      ensures old(Coherent()) && OwnFileOnly(old(disk), p) ==> Coherent()
      ensures ok && old(cached).Some? && old(Coherent()) ==> (Coherent() <==> AgreesAt(cached.value, ranks, disk, p))
      ensures forall c :: ok && old(cached).Some? && old(Coherent()) && Elects(ranks, disk, p, c) && OneRecord(disk, p) ==>
                            (Coherent() <==> Slot(c) == None && ShadowsAgree(old(cached).value, disk, p, c))
      ensures ok && old(Observed(disk, maxGen)) ==> (Observed(disk, maxGen) <==> generation <= maxGen)
    {
      ok := !failWrite;
      if failWrite {
        return;
      }
      CommitEffect(cached, ranks, disk, p, Tombstone(now, generation, deletedGeneration, clock), maxGen);
      hide Elects;
      hide OneRecord;
      hide ShadowsAgree;
      hide AgreesAt;
      hide Fresh;
      hide OwnFileOnly;
      hide Observed;
      disk := disk[Canonical(p) := Tombstone(now, generation, deletedGeneration, clock)];
      if cached.Some? {
        cached := Some(cached.value - {p});
      }
    }

    /** Writes every plain entry of an index, then caches a copy of it. A failed write stops the
        save with the cache as it was, over a disk that may already hold some of the entries. */
    method SaveIndex(idx: Index, faults: nat -> bool) returns (ok: bool)
      modifies this`disk, this`cached
      ensures ok ==> disk == AfterSave(old(disk), idx, idx.Keys) && cached == Some(idx)
      ensures !ok ==> cached == old(cached) && exists done :: done < idx.Keys && disk == AfterSave(old(disk), idx, done)
      ensures ok <==> AllGo(|PlainPaths(idx, idx.Keys)|, faults)
      ensures ok && old(Observed(disk, maxGen)) ==>
                (Observed(disk, maxGen) <==> forall q :: Plain(idx, q) ==> idx[q].file.generation <= maxGen)
      ensures cached.Some? ==> (Coherent() <==> Agrees(cached.value, ranks, disk))
      ensures forall q :: ok && q in idx && idx[q].conflictOf == None ==>
                            Canonical(q) in disk && !disk[Canonical(q)].deleted && disk[Canonical(q)].file == idx[q].file
      ensures forall s :: s in old(disk) && !(s.Canonical? && s.path in idx) ==> s in disk && disk[s] == old(disk)[s]
    {
      hide *;
      var todo := idx.Keys;
      var op := 0;
      SaveStart(disk, idx, faults);
      while todo != {}
        invariant cached == old(cached)
        invariant SavedSoFar(old(disk), idx, todo, disk, op, faults)
      {
        var q :| q in todo;
        SaveStep(old(disk), idx, todo, disk, op, faults, q);
        if idx[q].conflictOf == None {
          if faults(op) {
            CohereIs();
            return false;
          }
          disk := disk[Canonical(q) := Saved(idx[q].file)];
          op := op + 1;
        }
        todo := todo - {q};
      }
      cached := Some(idx);
      CohereIs();
      SaveDone(old(disk), idx, disk, op, faults, maxGen);
      ok := true;
    }

    lemma CohereIs()
      ensures cached.Some? ==> (Coherent() <==> Agrees(cached.value, ranks, disk))
    {
      hide Agrees;
      hide Fresh;
      ReadsAsAgreed(cached, ranks, disk);
    }

    /** Writes one conflict copy, then removes the loser it replaces. */
    method Materialise(ghost d0: Disk, ghost plan: Plan, c: Planned, failWrite: bool, failRemove: bool, ghost trace0: seq<Disk>)
      returns (wrote: bool, removed: bool, ghost trace: seq<Disk>)
      requires PlanOk(d0, plan) && c in plan.conflicts && TraceOk(d0, plan, trace0, disk)
      modifies this`disk
      ensures TraceOk(d0, plan, trace, disk) && trace[0] == trace0[0]
      ensures wrote == !failWrite && removed == (wrote && !failRemove)
      ensures wrote && !removed ==> disk == old(disk)[Canonical(c.path) := Saved(c.file)]
      ensures !wrote ==> disk == old(disk)
      ensures removed ==> disk == old(disk)[Canonical(c.path) := Saved(c.file)] - {c.source}
    {
      wrote, removed, trace := false, false, trace0;
      if failWrite {
        return;
      }
      SafeAfterWrite(d0, plan, disk, c);
      TraceGrows(d0, plan, trace, disk, disk[Canonical(c.path) := Saved(c.file)]);
      disk := disk[Canonical(c.path) := Saved(c.file)];
      trace := trace + [disk];
      wrote := true;
      if failRemove {
        return;
      }
      SafeAfterRemove(d0, plan, disk, c.source);
      TraceGrows(d0, plan, trace, disk, disk - {c.source});
      disk := disk - {c.source};
      trace := trace + [disk];
      removed := true;
    }

    /** The first loop of Compact; `op` numbers the disk operations. */
    method MaterialiseAll(ghost d0: Disk, plan: Plan, faults: nat -> bool)
      returns (rep: Report, op: nat, ghost trace: seq<Disk>, ghost ops: seq<FileOp>)
      requires disk == d0 && PlanOk(d0, plan)
      modifies this`disk
      ensures TraceOk(d0, plan, trace, disk) && trace[0] == d0
      ensures rep.errors == 0 ==> AppliedBut(d0, plan, {}, disk)
      ensures rep.conflicts == {} && rep.removed == 0 ==> disk == d0
      ensures CarriesOut(plan.conflicts, {}, ops, faults) && Tallied(d0, ops, faults, disk, rep)
      ensures op == |ops|
    {
      SafeAtStart(d0, plan);
      rep, op, trace, ops := Report({}, 0, 0, 0), 0, [disk], [];
      assert TraceOk(d0, plan, trace, disk);
      UnderwayAtStart(d0, plan, faults);
      var todo := plan.conflicts;
      hide *;
      while todo != {}
        invariant todo <= plan.conflicts && op == |ops|
        invariant TraceOk(d0, plan, trace, disk) && trace != [] && trace[0] == d0
        invariant Underway(d0, plan, todo, ops, faults, disk, rep)
      {
        var c :| c in todo;
        rep, op, trace, ops := TryConflict(d0, plan, todo, c, faults, rep, op, trace, ops);
        todo := todo - {c};
      }
      UnderwayDone(d0, plan, ops, faults, disk, rep);
    }

    /** One conflict, and what the report says of it. */
    method TryConflict(ghost d0: Disk, ghost plan: Plan, ghost todo: set<Planned>, c: Planned, faults: nat -> bool, rep0: Report, op0: nat,
                       ghost trace0: seq<Disk>, ghost ops0: seq<FileOp>)
      returns (rep: Report, op: nat, ghost trace: seq<Disk>, ghost ops: seq<FileOp>)
      requires PlanOk(d0, plan) && c in todo && todo <= plan.conflicts && op0 == |ops0|
      requires TraceOk(d0, plan, trace0, disk) && Underway(d0, plan, todo, ops0, faults, disk, rep0)
      modifies this`disk
      ensures TraceOk(d0, plan, trace, disk) && trace[0] == trace0[0]
      ensures Underway(d0, plan, todo - {c}, ops, faults, disk, rep) && op == |ops|
    {
      hide *;
      ghost var d := disk;
      var wrote, gone;
      wrote, gone, trace := Materialise(d0, plan, c, faults(op0), faults(op0 + 1), trace0);
      ghost var d1 := disk;
      ops := Tried(ops0, c, wrote);
      op := op0 + if wrote then 2 else 1;
      rep := rep0;
      if wrote {
        rep := rep.(conflicts := rep.conflicts + {c.path});
      }
      if gone {
        rep := rep.(removed := rep.removed + 1);
      } else {
        rep := rep.(errors := rep.errors + 1);
      }
      assert TriedOne(d, rep0, c, wrote, gone, d1, rep) by { IsTried(d, rep0, c, wrote, gone, d1, rep); }
      UnderwayStep(d0, plan, todo, ops0, faults, d, rep0, c, wrote, gone, d1, rep);
    }

    /** The second loop of Compact. */
    method RemoveAll(ghost d0: Disk, plan: Plan, faults: nat -> bool, op0: nat, ghost trace0: seq<Disk>, ghost ops0: seq<FileOp>,
                     ghost before: Report)
      returns (removed: nat, errors: nat, ghost trace: seq<Disk>, ghost ops: seq<FileOp>)
      requires PlanOk(d0, plan) && TraceOk(d0, plan, trace0, disk)
      requires CarriesOut(plan.conflicts, {}, ops0, faults) && Tallied(d0, ops0, faults, disk, before) && op0 == |ops0|
      modifies this`disk
      ensures TraceOk(d0, plan, trace, disk) && trace[0] == trace0[0]
      ensures errors == 0 ==> disk == old(disk) - plan.removes
      ensures removed == 0 ==> disk == old(disk)
      ensures CarriesOut(plan.conflicts, plan.removes, ops, faults)
      ensures Tallied(d0, ops, faults, disk, Report(before.conflicts, before.removed + removed, 0, before.errors + errors))
    {
      hide PlanOk;
      hide EditsSafe;
      hide CarriesOut;
      hide Tallied;
      removed, errors, trace, ops := 0, 0, trace0, ops0;
      var op := op0;
      var left := plan.removes;
      assert plan.removes - left == {};
      TalliedFields(d0, ops, faults, disk, before);
      while left != {}
        invariant left <= plan.removes
        invariant TraceOk(d0, plan, trace, disk) && trace[0] == trace0[0]
        invariant errors == 0 ==> disk == old(disk) - (plan.removes - left)
        invariant removed == 0 ==> disk == old(disk)
        invariant op == |ops| && CarriesOut(plan.conflicts, plan.removes - left, ops, faults)
        invariant Tallied(d0, ops, faults, disk, Report(before.conflicts, before.removed + removed, 0, before.errors + errors))
      {
        var s :| s in left;
        RemoveMore(plan.conflicts, plan.removes - left, ops, faults, s);
        TallyRemove(d0, ops, faults, disk, Report(before.conflicts, before.removed + removed, 0, before.errors + errors), s);
        assert plan.removes - (left - {s}) == plan.removes - left + {s};
        left := left - {s};
        if faults(op) {
          errors := errors + 1;
        } else {
          SafeAfterRemove(d0, plan, disk, s);
          TraceGrows(d0, plan, trace, disk, disk - {s});
          disk := disk - {s};
          trace := trace + [disk];
          removed := removed + 1;
        }
        ops := ops + [Remove(s)];
        op := op + 1;
      }
      assert plan.removes - left == plan.removes;
    }

    /** Applies the plan of a fresh load. The operation numbered n fails if `faults(n)`; a
        failure is recorded and the run goes on. `trace` lists every disk on the way, so that
        stopping anywhere leaves one of them; `ops` are the operations. */
    method Compact(walk: seq<Source>, orphans: nat, faults: nat -> bool)
      returns (report: Report, ghost trace: seq<Disk>, ghost ops: seq<FileOp>)
      requires DiskOk(disk) && Walks(walk, disk)
      modifies this`disk, this`cached, this`maxGen
      ensures TraceOk(old(disk), PlanOf(ranks, old(disk), walk), trace, disk) && trace[0] == old(disk)
      ensures report.errors == 0 ==> Settles(old(disk), PlanOf(ranks, old(disk), walk), disk)
      ensures !Materialised(report) ==> disk == old(disk)
      ensures cached == if Materialised(report) then None else old(cached)
      ensures report.orphans == orphans
      ensures old(Coherent()) ==> Coherent()
      ensures maxGen >= old(maxGen) && Observed(disk, maxGen)
      ensures var plan := PlanOf(ranks, old(disk), walk);
              CarriesOut(plan.conflicts, plan.removes, ops, faults) && Tallied(old(disk), ops, faults, disk, report)
      ensures report.errors == Failures(|ops|, faults) && ((forall n :: !faults(n)) ==> report.errors == 0)
      ensures report.conflicts == WrittenPaths(ops, faults) && report.removed == Removals(ops, faults)
      ensures LeftWhereFailed(PlanOf(ranks, old(disk), walk), ops, faults, disk)
    {
      var loaded := ObserveGenerations(walk, None);
      var plan := PlanOf(ranks, disk, walk);
      LoadedPlanOk(ranks, disk, walk);
      hide PlanOf;
      hide CarriesOut;
      ghost var d0 := disk;
      var first, op;
      first, op, trace, ops := MaterialiseAll(d0, plan, faults);
      ghost var d1 := disk;
      var moreRemoved, moreErrors;
      moreRemoved, moreErrors, trace, ops := RemoveAll(d0, plan, faults, op, trace, ops, first);
      ObservedStays(d0, plan, disk, maxGen);
      if first.errors + moreErrors == 0 {
        SettledAtEnd(d0, plan, d1, disk);
      }
      NoFailures(|ops|, faults);
      FilesLeft(d0, plan, ops, faults);
      report := Report(first.conflicts, first.removed + moreRemoved, orphans, first.errors + moreErrors);
      if Materialised(report) {
        cached := None;
      }
    }
  }

  /** The report and the disk are what these operations make. */
  ghost predicate Tallied(d0: Disk, ops: seq<FileOp>, faults: nat -> bool, d: Disk, rep: Report) {
    && d == After(d0, ops, faults) && rep.errors == Failures(|ops|, faults)
    && rep.conflicts == WrittenPaths(ops, faults) && rep.removed == Removals(ops, faults)
  }

  /** A redundant file is there just where its removal failed; a loser just where writing its
      conflict copy failed or dropping it did; a conflict copy just where it was written. */
  ghost predicate LeftWhereFailed(plan: Plan, ops: seq<FileOp>, faults: nat -> bool, d: Disk) {
    && (forall s :: s in plan.removes ==> (s in d <==> Failed(ops, faults, Remove(s))))
    && (forall c :: c in plan.conflicts ==> (c.source in d <==> Failed(ops, faults, Write(c)) || Failed(ops, faults, Drop(c))))
    && (forall c :: c in plan.conflicts ==> (Canonical(c.path) in d <==> c.path in WrittenPaths(ops, faults)))
  }

  /** All conflicts but those in `todo` have been tried, and the report says how it went. */
  ghost predicate Underway(d0: Disk, plan: Plan, todo: set<Planned>, ops: seq<FileOp>, faults: nat -> bool, d: Disk, rep: Report) {
    && CarriesOut(plan.conflicts - todo, {}, ops, faults) && Tallied(d0, ops, faults, d, rep)
    && (rep.errors == 0 ==> AppliedBut(d0, plan, todo, d))
    && (rep.conflicts == {} && rep.removed == 0 ==> d == d0)
  }

  lemma UnderwayAtStart(d0: Disk, plan: Plan, faults: nat -> bool)
    ensures Underway(d0, plan, plan.conflicts, [], faults, d0, Report({}, 0, 0, 0))
  {
    assert plan.conflicts - plan.conflicts == {};
  }

  /** The disk and the report after one conflict more. */
  ghost predicate TriedOne(d: Disk, rep: Report, c: Planned, wrote: bool, gone: bool, d': Disk, rep': Report) {
    && (!wrote ==> !gone && d' == d)
    && (wrote ==> d' == if gone then d[Canonical(c.path) := Saved(c.file)] - {c.source} else d[Canonical(c.path) := Saved(c.file)])
    && rep'.conflicts == rep.conflicts + (if wrote then {c.path} else {})
    && rep'.removed == rep.removed + (if gone then 1 else 0) && rep'.errors == rep.errors + (if gone then 0 else 1)
  }

  lemma UnderwayStep(d0: Disk, plan: Plan, todo: set<Planned>, ops: seq<FileOp>, faults: nat -> bool, d: Disk, rep: Report, c: Planned,
                     wrote: bool, gone: bool, d': Disk, rep': Report)
    requires PlanOk(d0, plan) && Underway(d0, plan, todo, ops, faults, d, rep) && c in todo && todo <= plan.conflicts
    requires wrote == !faults(|ops|) && gone == (wrote && !faults(|ops| + 1)) && TriedOne(d, rep, c, wrote, gone, d', rep')
    ensures Underway(d0, plan, todo - {c}, Tried(ops, c, wrote), faults, d', rep')
  {
    assert plan.conflicts - (todo - {c}) == plan.conflicts - todo + {c};
    WriteMore(plan.conflicts - todo, {}, ops, faults, c);
    TallyConflict(d0, ops, faults, d, rep, c, wrote, gone, d', rep');
    if rep.errors == 0 {
      AppliedStep(d0, plan, todo, d, c);
    }
    hide CarriesOut;
    hide Tallied;
    hide AppliedBut;
    assert c.path in rep.conflicts + {c.path};
  }

  lemma IsTried(d: Disk, rep: Report, c: Planned, wrote: bool, gone: bool, d': Disk, rep': Report)
    requires !wrote ==> !gone && d' == d
    requires wrote ==> d' == if gone then d[Canonical(c.path) := Saved(c.file)] - {c.source} else d[Canonical(c.path) := Saved(c.file)]
    requires rep'.conflicts == rep.conflicts + (if wrote then {c.path} else {})
    requires rep'.removed == rep.removed + (if gone then 1 else 0) && rep'.errors == rep.errors + (if gone then 0 else 1)
    ensures TriedOne(d, rep, c, wrote, gone, d', rep')
  {
  }

  lemma UnderwayDone(d0: Disk, plan: Plan, ops: seq<FileOp>, faults: nat -> bool, d: Disk, rep: Report)
    requires Underway(d0, plan, {}, ops, faults, d, rep)
    ensures CarriesOut(plan.conflicts, {}, ops, faults) && Tallied(d0, ops, faults, d, rep)
    ensures rep.errors == 0 ==> AppliedBut(d0, plan, {}, d)
    ensures rep.conflicts == {} && rep.removed == 0 ==> d == d0
  {
    assert plan.conflicts - {} == plan.conflicts;
  }

  lemma TalliedFields(d0: Disk, ops: seq<FileOp>, faults: nat -> bool, d: Disk, rep: Report)
    requires Tallied(d0, ops, faults, d, rep)
    ensures Tallied(d0, ops, faults, d, Report(rep.conflicts, rep.removed, 0, rep.errors))
  {
  }

  lemma TallyConflict(d0: Disk, ops: seq<FileOp>, faults: nat -> bool, d: Disk, rep: Report, c: Planned,
                      wrote: bool, gone: bool, d': Disk, rep': Report)
    requires Tallied(d0, ops, faults, d, rep)
    requires wrote == !faults(|ops|) && gone == (wrote && !faults(|ops| + 1)) && TriedOne(d, rep, c, wrote, gone, d', rep')
    ensures Tallied(d0, Tried(ops, c, wrote), faults, d', rep')
  {
    AfterMore(d0, ops, faults, Write(c));
    AfterMore(d0, ops + [Write(c)], faults, Drop(c));
  }

  lemma TallyRemove(d0: Disk, ops: seq<FileOp>, faults: nat -> bool, d: Disk, rep: Report, s: Source)
    requires Tallied(d0, ops, faults, d, rep)
    ensures if faults(|ops|) then Tallied(d0, ops + [Remove(s)], faults, d, rep.(errors := rep.errors + 1))
            else Tallied(d0, ops + [Remove(s)], faults, d - {s}, rep.(removed := rep.removed + 1))
  {
    AfterMore(d0, ops, faults, Remove(s));
  }

  lemma FilesLeft(d0: Disk, plan: Plan, ops: seq<FileOp>, faults: nat -> bool)
    requires PlanOk(d0, plan) && CarriesOut(plan.conflicts, plan.removes, ops, faults)
    ensures LeftWhereFailed(plan, ops, faults, After(d0, ops, faults))
  {
    LeftExactly(d0, plan.conflicts, plan.removes, ops, faults);
  }

  lemma CommitDecided(idx: Index, r: Ranks, d: Disk, p: Path, m: Manifest)
    requires DiskOk(d) && ClockOk(ClockOf(m)) && Fresh(idx, r, d)
    ensures forall c :: Elects(r, Written(d, p, m), p, c) && OneRecord(Written(d, p, m), p) ==>
                          (Fresh(Reflected(idx, p, m), r, Written(d, p, m)) <==>
                           Slot(c) == Slot(m) && ShadowsAgree(idx, Written(d, p, m), p, c))
  {
    hide *;
    forall c | Elects(r, Written(d, p, m), p, c) && OneRecord(Written(d, p, m), p)
      ensures Fresh(Reflected(idx, p, m), r, Written(d, p, m)) <==>
              Slot(c) == Slot(m) && ShadowsAgree(idx, Written(d, p, m), p, c)
    {
      CommitFreshByWinner(idx, r, d, p, m, c);
    }
  }

  lemma ReadsAsAgreed(cached: Option<Index>, r: Ranks, d: Disk)
    ensures cached.Some? ==> (Fresh(cached.value, r, d) <==> Agrees(cached.value, r, d))
  {
    hide *;
    if cached.Some? {
      FreshByPaths(cached.value, r, d);
    }
  }

  /** All that is said of a commit of m at p. */
  lemma CommitEffect(cached: Option<Index>, r: Ranks, d: Disk, p: Path, m: Manifest, g: int)
    requires DiskOk(d) && ClockOk(ClockOf(m))
    ensures var d' := Written(d, p, m);
            && DiskOk(d') && (Observed(d, g) ==> (Observed(d', g) <==> m.file.generation <= g))
            && (cached.Some? && Fresh(cached.value, r, d) ==>
                  && (OwnFileOnly(d, p) ==> Fresh(Reflected(cached.value, p, m), r, d'))
                  && (Fresh(Reflected(cached.value, p, m), r, d') <==> AgreesAt(Reflected(cached.value, p, m), r, d', p))
                  && (forall c :: Elects(r, d', p, c) && OneRecord(d', p) ==>
                        (Fresh(Reflected(cached.value, p, m), r, d') <==> Slot(c) == Slot(m) && ShadowsAgree(cached.value, d', p, c))))
  {
    ObservedAfterWrite(d, p, m, g);
    hide Elects;
    hide OneRecord;
    hide ShadowsAgree;
    hide Observed;
    hide AgreesAt;
    if cached.Some? && Fresh(cached.value, r, d) {
      CommitFreshExactly(cached.value, r, d, p, m);
      CommitDecided(cached.value, r, d, p, m);
      if OwnFileOnly(d, p) {
        CommitStaysFresh(cached.value, r, d, p, m);
      }
    }
  }

  lemma ObservedAfterWrite(d: Disk, p: Path, m: Manifest, g: int)
    ensures Observed(d, g) ==> (Observed(Written(d, p, m), g) <==> m.file.generation <= g)
  {
    assert Canonical(p) in Written(d, p, m);
  }

  lemma EntriesAreSaved(d: Disk, idx: Index, done: set<Path>)
    requires done <= idx.Keys
    ensures forall q :: q in done && idx[q].conflictOf == None ==>
                          var m := AfterSave(d, idx, done); Canonical(q) in m && !m[Canonical(q)].deleted && m[Canonical(q)].file == idx[q].file
    ensures forall s :: s in d && !(s.Canonical? && s.path in idx) ==> s in AfterSave(d, idx, done) && AfterSave(d, idx, done)[s] == d[s]
  {
    var saved := SavedFiles(idx, done);
    forall q | q in done && idx[q].conflictOf == None ensures Canonical(q) in saved && saved[Canonical(q)] == Saved(idx[q].file) {
      assert Plain(idx, q);
    }
  }

  /** The entries that a save writes, of these paths. */
  ghost function PlainPaths(idx: Index, done: set<Path>): set<Path> { set q | q in done && Plain(idx, q) }

  lemma PlainStart(idx: Index)
    ensures PlainPaths(idx, {}) == {}
  {
  }

  lemma PlainStep(idx: Index, done: set<Path>, q: Path)
    requires done <= idx.Keys && q in idx && q !in done
    ensures |PlainPaths(idx, done + {q})| == |PlainPaths(idx, done)| + if idx[q].conflictOf == None then 1 else 0
    ensures idx[q].conflictOf == None ==> |PlainPaths(idx, done)| < |PlainPaths(idx, idx.Keys)|
  {
    var some, all := PlainPaths(idx, done + {q}), PlainPaths(idx, idx.Keys);
    SubsetSize(some, all);
    if idx[q].conflictOf == None {
      assert Plain(idx, q) && some == PlainPaths(idx, done) + {q};
    } else {
      assert some == PlainPaths(idx, done);
    }
  }

  /** The disk when the entries in `todo` are still to be saved, after `op` writes. */
  ghost predicate SavedSoFar(d0: Disk, idx: Index, todo: set<Path>, d: Disk, op: nat, faults: nat -> bool) {
    && todo <= idx.Keys && d == AfterSave(d0, idx, idx.Keys - todo)
    && op == |PlainPaths(idx, idx.Keys - todo)| && AllGo(op, faults)
  }

  lemma SaveStart(d0: Disk, idx: Index, faults: nat -> bool)
    ensures SavedSoFar(d0, idx, idx.Keys, d0, 0, faults)
  {
    assert idx.Keys - idx.Keys == {};
    PlainStart(idx);
    assert SavedFiles(idx, {}) == map[];
  }

  /** One entry: if its write fails, or it needs none, or it goes through. */
  lemma SaveStep(d0: Disk, idx: Index, todo: set<Path>, d: Disk, op: nat, faults: nat -> bool, q: Path)
    requires SavedSoFar(d0, idx, todo, d, op, faults) && q in todo
    ensures q in idx
    ensures idx[q].conflictOf == None && faults(op) ==>
              && !AllGo(|PlainPaths(idx, idx.Keys)|, faults) && (exists done :: done < idx.Keys && d == AfterSave(d0, idx, done))
              && forall s :: s in d0 && !(s.Canonical? && s.path in idx) ==> s in d && d[s] == d0[s]
    ensures idx[q].conflictOf == None && !faults(op) ==>
              SavedSoFar(d0, idx, todo - {q}, d[Canonical(q) := Saved(idx[q].file)], op + 1, faults)
    ensures idx[q].conflictOf != None ==> SavedSoFar(d0, idx, todo - {q}, d, op, faults)
  {
    hide PlainPaths;
    hide AfterSave;
    var done := idx.Keys - todo;
    assert q !in done && idx.Keys - (todo - {q}) == done + {q};
    PlainStep(idx, done, q);
    AfterSaveGrows(d0, idx, done, q);
    EntriesAreSaved(d0, idx, done);
  }

  lemma SaveDone(d0: Disk, idx: Index, d: Disk, op: nat, faults: nat -> bool, g: int)
    requires SavedSoFar(d0, idx, {}, d, op, faults)
    ensures d == AfterSave(d0, idx, idx.Keys) && AllGo(|PlainPaths(idx, idx.Keys)|, faults)
    ensures Observed(d0, g) ==> (Observed(d, g) <==> forall q :: Plain(idx, q) ==> idx[q].file.generation <= g)
    ensures forall q :: q in idx && idx[q].conflictOf == None ==>
                          Canonical(q) in d && !d[Canonical(q)].deleted && d[Canonical(q)].file == idx[q].file
    ensures forall s :: s in d0 && !(s.Canonical? && s.path in idx) ==> s in d && d[s] == d0[s]
  {
    hide PlainPaths;
    hide AfterSave;
    assert idx.Keys - {} == idx.Keys;
    ObservedAfterSave(d0, idx, idx.Keys, g);
    EntriesAreSaved(d0, idx, idx.Keys);
  }

  lemma ObservedAfterSave(d: Disk, idx: Index, done: set<Path>, g: int)
    requires done <= idx.Keys
    ensures Observed(d, g) ==>
              (Observed(AfterSave(d, idx, done), g) <==> forall q :: q in done && Plain(idx, q) ==> idx[q].file.generation <= g)
  {
    var saved := SavedFiles(idx, done);
    forall q | q in done && Plain(idx, q) ensures Canonical(q) in saved && saved[Canonical(q)] == Saved(idx[q].file) {
    }
    assert forall s :: s in AfterSave(d, idx, done) <==> s in d || s in saved;
  }

  lemma AfterSaveGrows(d: Disk, idx: Index, done: set<Path>, q: Path)
    requires q in idx
    ensures AfterSave(d, idx, done + {q}) ==
            if idx[q].conflictOf == None then AfterSave(d, idx, done)[Canonical(q) := Saved(idx[q].file)] else AfterSave(d, idx, done)
  {
    if idx[q].conflictOf == None {
      assert Plain(idx, q);
      assert SavedFiles(idx, done + {q}) == SavedFiles(idx, done)[Canonical(q) := Saved(idx[q].file)];
    } else {
      assert SavedFiles(idx, done + {q}) == SavedFiles(idx, done);
    }
  }

  lemma ObservedStays(d0: Disk, plan: Plan, d: Disk, g: int)
    requires PlanOk(d0, plan) && EditsSafe(d0, plan, d) && Observed(d0, g)
    ensures Observed(d, g)
  {
    hide EditOnDisk;
    hide PlannedSource;
  }

  /** Every disk in the trace is safe, and the trace ends with this one. */
  ghost predicate TraceOk(d0: Disk, plan: Plan, trace: seq<Disk>, now: Disk) {
    trace != [] && Last(trace) == now && EditsSafe(d0, plan, now) && forall d :: d in trace ==> EditsSafe(d0, plan, d)
  }

  function Targets(cs: set<Planned>): set<Source> { set c | c in cs :: Canonical(c.path) }

  function Sources(cs: set<Planned>): set<Source> { set c | c in cs :: c.source }

  /** All conflicts but those in `todo` have been materialised and their losers removed. */
  ghost predicate AppliedBut(d0: Disk, plan: Plan, todo: set<Planned>, d: Disk) {
    d.Keys == Targets(plan.conflicts - todo) + (d0.Keys - Sources(plan.conflicts - todo))
  }

  lemma AppliedStep(d0: Disk, plan: Plan, todo: set<Planned>, d: Disk, c: Planned)
    requires PlanOk(d0, plan) && AppliedBut(d0, plan, todo, d) && c in todo && todo <= plan.conflicts
    ensures AppliedBut(d0, plan, todo - {c}, d[Canonical(c.path) := Saved(c.file)] - {c.source})
  {
    var done := plan.conflicts - todo;
    assert plan.conflicts - (todo - {c}) == done + {c};
    assert Targets(done + {c}) == Targets(done) + {Canonical(c.path)};
    assert Sources(done + {c}) == Sources(done) + {c.source};
    forall e | e in done + {c} ensures Canonical(e.path) != c.source {
      assert c.source in d0 && Canonical(e.path) !in d0;
    }
    hide PlanOk;
    assert c.source !in Targets(done + {c});
  }

  lemma SettledAtEnd(d0: Disk, plan: Plan, d1: Disk, d: Disk)
    requires PlanOk(d0, plan) && AppliedBut(d0, plan, {}, d1) && d == d1 - plan.removes && EditsSafe(d0, plan, d)
    ensures Settles(d0, plan, d)
  {
    assert plan.conflicts - {} == plan.conflicts;
    forall s ensures PlannedTarget(plan, s) <==> s in Targets(plan.conflicts) {
    }
    forall s ensures PlannedSource(plan, s) <==> s in Sources(plan.conflicts) {
    }
    assert Targets(plan.conflicts) !! plan.removes;
  }

  lemma TraceGrows(d0: Disk, plan: Plan, trace: seq<Disk>, d: Disk, d': Disk)
    requires TraceOk(d0, plan, trace, d) && EditsSafe(d0, plan, d')
    ensures TraceOk(d0, plan, trace + [d'], d')
  {
    hide EditsSafe;
  }
}
