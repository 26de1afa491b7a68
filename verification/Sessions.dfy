/** Whole sessions of an open vault: over any sequence of commits, tombstones, whole-index saves,
    Compacts and reloads, exactly when the cached index stays what a fresh load would give. */
module Sessions {
  import opened Prelude
  import opened Manifests
  import opened Loading
  import opened Cache
  import opened Coherence
  import opened Compaction

  datatype Session = Session(disk: Disk, cached: Option<Index>)

  /** What is done to the vault, and how far it went: a commit of a file or tombstone; a save that
      wrote `done`; a Compact that left this disk; a load or reload. */
  datatype Op =
    | Commit(p: Path, m: Manifest, ok: bool)
    | Save(idx: Index, done: set<Path>)
    | Compacted(walk: seq<Source>, left: Disk, materialised: bool)
    | Reload(walk: seq<Source>, ok: bool)

  ghost predicate Step(r: Ranks, s: Session, op: Op, s': Session) {
    match op
    case Commit(p, m, ok) =>
      s' == if ok then Session(Written(s.disk, p, m), if s.cached.Some? then Some(Reflected(s.cached.value, p, m)) else None) else s
    case Save(idx, done) =>
      done <= idx.Keys && s' == Session(AfterSave(s.disk, idx, done), if done == idx.Keys then Some(idx) else s.cached)
    case Compacted(walk, left, materialised) =>
      && Walks(walk, s.disk)
      && (if materialised then EditsSafe(s.disk, PlanOf(r, s.disk, walk), left) && s' == Session(left, None) else s' == s)
    case Reload(walk, ok) =>
      Walks(walk, s.disk) && s' == Session(s.disk, if ok then Some(LoadIndex(r, s.disk, walk)) else None)
  }

  ghost predicate Coherent(r: Ranks, s: Session) { s.cached.Some? ==> Fresh(s.cached.value, r, s.disk) }

  /** What each operation must meet: some order of the copies of the path has a committed record hold
      its slot, or for a tombstone none hold it, and leaves the conflict copies as shown; after a save
      the cached index agrees with every path. */
  ghost predicate Meets(r: Ranks, s: Session, op: Op) {
    match op
    case Commit(p, m, ok) =>
      ok && s.cached.Some? ==> AgreesAt(Reflected(s.cached.value, p, m), r, Written(s.disk, p, m), p)
    case Save(idx, done) =>
      if done == idx.Keys then Agrees(idx, r, AfterSave(s.disk, idx, done))
      else s.cached.Some? ==> Agrees(s.cached.value, r, AfterSave(s.disk, idx, done))
    case _ => true
  }

  /** Where the copies of the path then have a winner, and equal contents are equal records, a commit
      meets it exactly when that winner holds the slot as the record does, or both are tombstones, and
      the kept losers are those shown. */
  lemma MeetsByWinner(r: Ranks, s: Session, p: Path, m: Manifest, c: Manifest)
    requires var d := Written(s.disk, p, m); DiskOk(d) && Elects(r, d, p, c) && OneRecord(d, p)
    ensures s.cached.Some? ==>
              (Meets(r, s, Commit(p, m, true)) <==> Slot(c) == Slot(m) && ShadowsAgree(s.cached.value, Written(s.disk, p, m), p, c))
  {
    if s.cached.Some? {
      var idx := Reflected(s.cached.value, p, m);
      assert Lookup(idx, p) == Slot(m);
      SameShadows(s.cached.value, p, m, Written(s.disk, p, m), c);
      hide AgreesAt;
      hide ShadowsAgree;
      hide Elects;
      hide OneRecord;
      hide Written;
      hide Reflected;
      AgreesByWinner(idx, r, Written(s.disk, p, m), p, c);
    }
  }

  /** From a coherent session one operation leads to a coherent one if and only if it meets this. */
  lemma StepExactly(r: Ranks, s: Session, op: Op, s': Session)
    requires Coherent(r, s) && Step(r, s, op, s')
    ensures Coherent(r, s') <==> Meets(r, s, op)
  {
    match op {
      case Commit(p, m, ok) =>
        hide Fresh;
        hide AgreesAt;
        if ok && s.cached.Some? {
          CommitFreshExactly(s.cached.value, r, s.disk, p, m);
        }
      case Save(idx, done) =>
        hide Agrees;
        hide Fresh;
        FreshByPaths(idx, r, AfterSave(s.disk, idx, done));
        if s.cached.Some? {
          FreshByPaths(s.cached.value, r, AfterSave(s.disk, idx, done));
        }
      case Compacted(walk, left, materialised) =>
        hide Fresh;
      case Reload(walk, ok) =>
        LoadShows(r, s.disk, walk);
    }
  }

  ghost predicate IsRun(r: Ranks, run: seq<Session>, ops: seq<Op>) {
    && |run| == |ops| + 1 && run[0].cached == None
    && forall i :: 0 <= i < |ops| ==> Step(r, run[i], ops[i], run[i + 1])
  }

  lemma {:induction false} RunPrefix(r: Ranks, run: seq<Session>, ops: seq<Op>, n: nat)
    requires IsRun(r, run, ops) && n < |run| && forall i :: 0 <= i < n ==> Meets(r, run[i], ops[i])
    ensures Coherent(r, run[n])
  {
    if n > 0 {
      RunPrefix(r, run, ops, n - 1);
      RunStep(r, run, ops, n - 1);
      hide *;
      StepExactly(r, run[n - 1], ops[n - 1], run[n]);
    }
  }

  lemma RunStep(r: Ranks, run: seq<Session>, ops: seq<Op>, i: nat)
    requires IsRun(r, run, ops) && i < |ops|
    ensures Step(r, run[i], ops[i], run[i + 1])
  {
  }

  /** Over any sequence of operations the cache is absent or equal to a fresh load throughout if
      and only if every operation meets its condition; the first that does not breaks it at once. */
  lemma SessionExactly(r: Ranks, run: seq<Session>, ops: seq<Op>)
    requires IsRun(r, run, ops)
    ensures (forall n :: 0 <= n < |run| ==> Coherent(r, run[n])) <==> (forall i :: 0 <= i < |ops| ==> Meets(r, run[i], ops[i]))
    ensures forall n :: (0 <= n < |ops| && (forall i :: 0 <= i < n ==> Meets(r, run[i], ops[i])) && !Meets(r, run[n], ops[n])) ==>
                          Coherent(r, run[n]) && !Coherent(r, run[n + 1])
  {
    hide Coherent;
    hide Meets;
    hide Step;
    forall n: nat | n < |ops| && forall i :: 0 <= i < n ==> Meets(r, run[i], ops[i])
      ensures Coherent(r, run[n]) && (Coherent(r, run[n + 1]) <==> Meets(r, run[n], ops[n]))
    {
      RunPrefix(r, run, ops, n);
      StepExactly(r, run[n], ops[n], run[n + 1]);
    }
    if forall i :: 0 <= i < |ops| ==> Meets(r, run[i], ops[i]) {
      forall n | 0 <= n < |run| ensures Coherent(r, run[n]) {
        RunPrefix(r, run, ops, n);
      }
    }
    if forall n :: 0 <= n < |run| ==> Coherent(r, run[n]) {
      CoherentMeets(r, run, ops, |ops|);
    }
  }

  lemma {:induction false} CoherentMeets(r: Ranks, run: seq<Session>, ops: seq<Op>, n: nat)
    requires IsRun(r, run, ops) && n <= |ops| && forall i :: 0 <= i < |run| ==> Coherent(r, run[i])
    ensures forall i :: 0 <= i < n ==> Meets(r, run[i], ops[i])
  {
    if n > 0 {
      CoherentMeets(r, run, ops, n - 1);
      RunPrefix(r, run, ops, n - 1);
      RunStep(r, run, ops, n - 1);
      hide *;
      StepExactly(r, run[n - 1], ops[n - 1], run[n]);
    }
  }

  // ---- Stores without second manifests ----

  /** A commit at a path with one manifest always meets its condition. */
  lemma OwnCommitMeets(r: Ranks, s: Session, p: Path, m: Manifest)
    requires DiskOk(s.disk) && ClockOk(ClockOf(m)) && Coherent(r, s) && OwnFileOnly(s.disk, p)
    ensures Meets(r, s, Commit(p, m, true))
  {
    if s.cached.Some? {
      hide AgreesAt;
      hide Fresh;
      CommitStaysFresh(s.cached.value, r, s.disk, p, m);
      CommitFreshExactly(s.cached.value, r, s.disk, p, m);
    }
  }

  // ---- The class takes these steps ----

  /** A request to the open vault, with what may fail. */
  datatype Request =
    | PutFile(p: Path, rec: FileRecord, fails: bool)
    | Delete(p: Path, now: Stamp, generation: int, deletedGeneration: int, clock: Clock, fails: bool)
    | SaveAll(idx: Index, faults: nat -> bool)
    | Compact(walk: seq<Source>, orphans: nat, faults: nat -> bool)
    | Refresh(walk: seq<Source>, unreadable: Option<nat>)

  ghost predicate Possible(d: Disk, q: Request) {
    match q
    case PutFile(_, rec, _) => DiskOk(d) && ClockOk(rec.clock)
    case Delete(_, _, _, _, clock, _) => DiskOk(d) && ClockOk(clock)
    case SaveAll(_, _) => true
    case Compact(walk, _, _) => DiskOk(d) && Walks(walk, d)
    case Refresh(walk, _) => Walks(walk, d)
  }

  ghost function Look(v: Vault): Session
    reads v
  {
    Session(v.disk, v.cached)
  }

  /** Every request to the class is one of the steps above. */
  method Serve(v: Vault, q: Request) returns (ghost op: Op)
    requires Possible(v.disk, q)
    modifies v
    ensures Step(v.ranks, old(Look(v)), op, Look(v))
  {
    match q {
      case PutFile(p, rec, fails) =>
        var ok := v.CommitFile(p, rec, fails);
        op := Commit(p, Saved(rec), ok);
      case Delete(p, now, generation, deletedGeneration, clock, fails) =>
        var ok := v.CommitTombstone(p, now, generation, deletedGeneration, clock, fails);
        op := Commit(p, Tombstone(now, generation, deletedGeneration, clock), ok);
      case SaveAll(idx, faults) =>
        var ok := v.SaveIndex(idx, faults);
        if ok {
          op := Save(idx, idx.Keys);
        } else {
          ghost var done :| done < idx.Keys && v.disk == AfterSave(old(v.disk), idx, done);
          op := Save(idx, done);
        }
      case Compact(walk, orphans, faults) =>
        ghost var trace, ops;
        var report;
        report, trace, ops := v.Compact(walk, orphans, faults);
        op := Compacted(walk, v.disk, Materialised(report));
      case Refresh(walk, unreadable) =>
        var ok := v.ReloadIndex(walk, unreadable);
        op := Reload(walk, ok);
    }
  }
}
