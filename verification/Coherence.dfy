/** When a cached index equals a fresh load, decided path by path from the manifests on disk. */
module Coherence {
  import opened Prelude
  import opened Manifests
  import opened Election
  import opened Loading
  import opened Cache

  // ---- The election of one path, read off the disk ----

  /** Another copy of the same path causally supersedes this one. */
  ghost predicate Outdone(d: Disk, s: Source)
    requires s in d
  {
    Clocked(d[s]) && exists o :: o in d && o.path == s.path && o != s && Dominates(ClockOf(d[o]), ClockOf(d[s]))
  }

  ghost predicate Stands(d: Disk, p: Path, s: Source) { s in d && s.path == p && !Outdone(d, s) }

  /** c beats every other copy of p that stands. */
  ghost predicate Elects(r: Ranks, d: Disk, p: Path, c: Manifest) {
    && (exists s :: Stands(d, p, s) && d[s] == c)
    && forall s :: Stands(d, p, s) ==> d[s] == c || Beats(r, c, d[s])
  }

  /** The record f is one of those kept as a conflict copy under winner c. */
  ghost predicate KeptAt(d: Disk, p: Path, c: Manifest, f: FileRecord) {
    exists s :: Stands(d, p, s) && FateUnder(c, d[s]) == Kept && d[s].file == f
  }

  /** Live copies of p with the same chunks, generation and timestamp are the same record. */
  ghost predicate OneRecord(d: Disk, p: Path) {
    forall s, t :: (s in d && t in d && s.path == p && t.path == p && !d[s].deleted && !d[t].deleted
                    && ContentOf(d[s].file) == ContentOf(d[t].file)) ==> d[s].file == d[t].file
  }

  /** What the index shows at a path whose winner is c. */
  function Slot(c: Manifest): Option<Entry> { if c.deleted then None else Some(Entry(c.file, None)) }

  /** e is what the kept losers of p give at the conflict path for content k. */
  ghost predicate ShadowIs(d: Disk, p: Path, c: Manifest, k: Content, e: Option<Entry>) {
    match e
    case None => forall f :: KeptAt(d, p, c, f) ==> ContentOf(f) != k
    case Some(x) => x.conflictOf == Some(p) && ContentOf(x.file) == k && KeptAt(d, p, c, x.file)
  }

  /** The conflict paths of p, where they have no manifest of their own, show what its losers give. */
  ghost predicate ShadowsAgree(idx: Index, d: Disk, p: Path, c: Manifest) {
    forall k :: ConflictCopy(p, k) !in Paths(d) ==> ShadowIs(d, p, c, k, Lookup(idx, ConflictCopy(p, k)))
  }

  ghost predicate WonAt(idx: Index, r: Ranks, d: Disk, p: Path) {
    exists c :: Elects(r, d, p, c) && Lookup(idx, p) == Slot(c) && ShadowsAgree(idx, d, p, c)
  }

  // ---- The disk's view and the load's ----

  lemma GroupStands(d: Disk, walk: seq<Source>, p: Path)
    requires Walks(walk, d)
    ensures forall x :: x in Antichain(Group(d, walk, p)) <==> Stands(d, p, x.source) && x == Here(d, x.source)
  {
    var g := Group(d, walk, p);
    forall x | x in g ensures Dominated(x, g) <==> Outdone(d, x.source) {
      DominatedIsOutdone(d, walk, p, x);
    }
    hide Dominated;
    hide Outdone;
    hide Group;
  }

  lemma DominatedIsOutdone(d: Disk, walk: seq<Source>, p: Path, x: Candidate)
    requires Walks(walk, d) && x in Group(d, walk, p)
    ensures x.source in d && x.source.path == p && x == Here(d, x.source)
    ensures Dominated(x, Group(d, walk, p)) <==> Outdone(d, x.source)
  {
    hide Dominates;
    var g := Group(d, walk, p);
    if Outdone(d, x.source) {
      var o :| o in d && o.path == p && o != x.source && Dominates(ClockOf(d[o]), ClockOf(d[x.source]));
      assert Here(d, o) in g;
    }
  }

  lemma ElectsIs(r: Ranks, d: Disk, walk: seq<Source>, p: Path, c: Manifest)
    requires Walks(walk, d)
    ensures Elects(r, d, p, c) <==> Champion(r, Antichain(Group(d, walk, p)), c)
  {
    GroupStands(d, walk, p);
    hide Stands;
    hide Beats;
    var a := Antichain(Group(d, walk, p));
    hide Antichain;
    if Elects(r, d, p, c) {
      var s :| Stands(d, p, s) && d[s] == c;
      assert Here(d, s) in a;
    }
    if Champion(r, a, c) {
      forall s | Stands(d, p, s) ensures d[s] == c || Beats(r, c, d[s]) {
        assert Here(d, s) in a;
      }
    }
  }

  /** What a load makes of a path, whatever the order of its walk. */
  lemma OutcomeIs(r: Ranks, d: Disk, walk: seq<Source>, p: Path, c: Manifest)
    requires DiskOk(d) && Walks(walk, d) && Elects(r, d, p, c)
    ensures p in Paths(d) && Outcomes(r, d, walk, p).live == (if c.deleted then None else Some(c.file))
    ensures forall e :: e in Outcomes(r, d, walk, p).conflicts ==> e.path == ConflictPath(p, e.file) && KeptAt(d, p, c, e.file)
    ensures forall f :: KeptAt(d, p, c, f) ==> exists e :: e in Outcomes(r, d, walk, p).conflicts && e.file == f
  {
    var s0 :| Stands(d, p, s0) && d[s0] == c;
    var g := Group(d, walk, p);
    GroupFacts(d, walk, p);
    ElectsIs(r, d, walk, p, c);
    GroupStands(d, walk, p);
    AntichainMembers(g);
    assert AllClocksOk(Antichain(g));
    ChampionWins(r, Antichain(g), c);
    assert Holder(r, g).m == c;
    LiveIsHolder(r, p, g);
    ConflictsOf(r, p, g);
    hide Reconcile;
    hide Antichain;
    hide Dominated;
    hide Holder;
    hide Champion;
    hide Stands;
    hide Group;
    var cs := Outcomes(r, d, walk, p).conflicts;
    forall e | e in cs ensures e.path == ConflictPath(p, e.file) && KeptAt(d, p, c, e.file) {
      var x :| Loses(r, g, x) && FateUnder(c, x.m) == Kept && e == Planned(ConflictPath(p, x.m.file), x.m.file, x.source);
      assert Stands(d, p, x.source) && d[x.source] == x.m;
    }
    forall f | KeptAt(d, p, c, f) ensures exists e :: e in cs && e.file == f {
      var s :| Stands(d, p, s) && FateUnder(c, d[s]) == Kept && d[s].file == f;
      var x := Here(d, s);
      assert Loses(r, g, x);
      assert Planned(ConflictPath(p, x.m.file), x.m.file, x.source) in cs;
    }
  }

  lemma AntichainMembers(g: seq<Candidate>)
    ensures forall x :: x in Antichain(g) <==> x in g && !Dominated(x, g)
  {
  }

  /** An elected winner is the only one. */
  lemma ElectsOne(r: Ranks, d: Disk, p: Path, b: Manifest, c: Manifest)
    requires DiskOk(d) && Elects(r, d, p, b) && Elects(r, d, p, c)
    ensures b == c
  {
    var s :| Stands(d, p, s) && d[s] == b;
    var t :| Stands(d, p, t) && d[t] == c;
    BeatsIsAsymmetric(r, b, c);
  }

  lemma KeptAreLive(d: Disk, p: Path, c: Manifest, f: FileRecord, f': FileRecord)
    requires OneRecord(d, p) && KeptAt(d, p, c, f) && KeptAt(d, p, c, f') && ContentOf(f) == ContentOf(f')
    ensures f == f'
  {
    var s :| Stands(d, p, s) && FateUnder(c, d[s]) == Kept && d[s].file == f;
    var t :| Stands(d, p, t) && FateUnder(c, d[t]) == Kept && d[t].file == f';
    assert !d[s].deleted && !d[t].deleted;
  }

  function ShadowEntry(cs: seq<Planned>, p: Path, q: Path): Option<Entry> {
    var f := LastFor(cs, q);
    if f.Some? then Some(Entry(f.value, Some(p))) else None
  }

  /** At a conflict path without manifests a load shows e exactly when the kept losers give e. */
  lemma ShadowDecides(r: Ranks, d: Disk, walk: seq<Source>, p: Path, c: Manifest, k: Content, e: Option<Entry>)
    requires DiskOk(d) && Walks(walk, d) && Elects(r, d, p, c) && OneRecord(d, p) && ConflictCopy(p, k) !in Paths(d)
    ensures LoadAt(r, d, walk, ConflictCopy(p, k)) == e <==> ShadowIs(d, p, c, k, e)
  {
    OutcomeIs(r, d, walk, p, c);
    hide Elects;
    hide Walks;
    hide DiskOk;
    hide OneRecord;
    hide KeptAt;
    hide ShadowIs;
    hide ConflictPath;
    var cs := Outcomes(r, d, walk, p).conflicts;
    assert LoadAt(r, d, walk, ConflictCopy(p, k)) == ShadowEntry(cs, p, ConflictCopy(p, k));
    ShadowFrom(cs, d, p, c, k, e);
  }

  lemma ShadowFrom(cs: seq<Planned>, d: Disk, p: Path, c: Manifest, k: Content, e: Option<Entry>)
    requires OneRecord(d, p) && forall x :: x in cs ==> x.path == ConflictPath(p, x.file) && KeptAt(d, p, c, x.file)
    requires forall f :: KeptAt(d, p, c, f) ==> exists x :: x in cs && x.file == f
    ensures ShadowEntry(cs, p, ConflictCopy(p, k)) == e <==> ShadowIs(d, p, c, k, e)
  {
    hide OneRecord;
    hide KeptAt;
    var q := ConflictCopy(p, k);
    LastForIs(cs, q);
    hide LastFor;
    if LastFor(cs, q).Some? {
      var f := LastFor(cs, q).value;
      var x :| x in cs && x.path == q && x.file == f;
      if e.Some? && ShadowIs(d, p, c, k, e) {
        KeptAreLive(d, p, c, f, e.value.file);
        assert e.value == Entry(f, Some(p));
      }
    } else {
      forall f | KeptAt(d, p, c, f) ensures ContentOf(f) != k {
        var x :| x in cs && x.file == f;
      }
    }
  }

  lemma SlotDecides(r: Ranks, d: Disk, walk: seq<Source>, p: Path, c: Manifest)
    requires DiskOk(d) && Walks(walk, d) && Elects(r, d, p, c)
    ensures LoadAt(r, d, walk, p) == Slot(c)
  {
    OutcomeIs(r, d, walk, p, c);
  }

  /** One path's part of an index is as loaded exactly when winner and kept losers say so. */
  lemma PathDecides(idx: Index, r: Ranks, d: Disk, walk: seq<Source>, p: Path, c: Manifest)
    requires DiskOk(d) && Walks(walk, d) && Elects(r, d, p, c) && OneRecord(d, p)
    ensures Lookup(idx, p) == Slot(c) && ShadowsAgree(idx, d, p, c) <==> ReadsAs(idx, r, d, walk, p)
  {
    SlotDecides(r, d, walk, p, c);
    hide LoadAt;
    forall k | ConflictCopy(p, k) !in Paths(d)
      ensures Lookup(idx, ConflictCopy(p, k)) == LoadAt(r, d, walk, ConflictCopy(p, k)) <==>
              ShadowIs(d, p, c, k, Lookup(idx, ConflictCopy(p, k)))
    {
      ShadowDecides(r, d, walk, p, c, k, Lookup(idx, ConflictCopy(p, k)));
    }
  }

  // ---- One path, in some order of its copies ----

  /** The index shows at p, and at its conflict paths without manifests, what a load in this order gives. */
  ghost predicate ReadsAs(idx: Index, r: Ranks, d: Disk, walk: seq<Source>, p: Path) {
    && Lookup(idx, p) == LoadAt(r, d, walk, p)
    && forall k :: ConflictCopy(p, k) !in Paths(d) ==> Lookup(idx, ConflictCopy(p, k)) == LoadAt(r, d, walk, ConflictCopy(p, k))
  }

  /** The copies of p, in some order. */
  ghost predicate Orders(order: seq<Source>, d: Disk, p: Path) {
    && (forall s :: s in order <==> s in d && s.path == p)
    && (forall i, j :: 0 <= i < j < |order| ==> order[i] != order[j])
  }

  /** There is an order of the copies of p alone in which they give what the index shows. */
  ghost predicate AgreesAt(idx: Index, r: Ranks, d: Disk, p: Path) {
    exists order :: Orders(order, d, p) && ReadsAs(idx, r, d, order, p)
  }

  lemma SameReading(idx: Index, r: Ranks, d: Disk, walk: seq<Source>, other: seq<Source>, p: Path)
    requires p in Paths(d) && Group(d, walk, p) == Group(d, other, p)
    ensures ReadsAs(idx, r, d, walk, p) <==> ReadsAs(idx, r, d, other, p)
  {
    SameLoadAt(r, d, walk, other, p, p);
    forall k | ConflictCopy(p, k) !in Paths(d)
      ensures LoadAt(r, d, walk, ConflictCopy(p, k)) == LoadAt(r, d, other, ConflictCopy(p, k))
    {
      SameLoadAt(r, d, walk, other, p, ConflictCopy(p, k));
    }
    hide LoadAt;
  }

  lemma SameLoadAt(r: Ranks, d: Disk, walk: seq<Source>, other: seq<Source>, p: Path, q: Path)
    requires p in Paths(d) && Group(d, walk, p) == Group(d, other, p)
    requires q == p || (q.ConflictCopy? && q.original == p && q !in Paths(d))
    ensures LoadAt(r, d, walk, q) == LoadAt(r, d, other, q)
  {
    hide Reconcile;
    hide LastFor;
    hide Paths;
    hide Group;
  }

  function OnlyOf(walk: seq<Source>, p: Path): (order: seq<Source>)
    ensures forall s :: s in order <==> s in walk && s.path == p
  {
    if walk == [] then [] else
    assert walk == Init(walk) + [Last(walk)];
    OnlyOf(Init(walk), p) + if Last(walk).path == p then [Last(walk)] else []
  }

  function Without(walk: seq<Source>, p: Path): (rest: seq<Source>)
    ensures forall s :: s in rest <==> s in walk && s.path != p
  {
    if walk == [] then [] else
    assert walk == Init(walk) + [Last(walk)];
    Without(Init(walk), p) + if Last(walk).path == p then [] else [Last(walk)]
  }

  ghost predicate Distinct(walk: seq<Source>) { forall i, j :: 0 <= i < j < |walk| ==> walk[i] != walk[j] }

  lemma GroupSnoc(d: Disk, walk: seq<Source>, s: Source, p: Path)
    ensures Group(d, walk + [s], p) == Group(d, walk, p) + if s in d && s.path == p then [Here(d, s)] else []
  {
    InitOfSnoc(walk, s);
  }

  lemma GroupStep(d: Disk, walk: seq<Source>, p: Path)
    requires walk != []
    ensures Last(walk).path != p ==> Group(d, walk, p) == Group(d, Init(walk), p)
    ensures Last(walk).path == p ==> OnlyOf(walk, p) == OnlyOf(Init(walk), p) + [Last(walk)] && Without(walk, p) == Without(Init(walk), p)
    ensures Last(walk).path != p ==> OnlyOf(walk, p) == OnlyOf(Init(walk), p) && Without(walk, p) == Without(Init(walk), p) + [Last(walk)]
  {
    PlusNone(Group(d, Init(walk), p));
    PlusNone(OnlyOf(Init(walk), p));
    PlusNone(Without(Init(walk), p));
  }

  lemma {:induction false} OnlyGroup(d: Disk, walk: seq<Source>, p: Path)
    ensures Group(d, OnlyOf(walk, p), p) == Group(d, walk, p)
  {
    if walk != [] {
      var front, s := Init(walk), Last(walk);
      OnlyGroup(d, front, p);
      GroupStep(d, walk, p);
      InitAndLast(walk);
      GroupSnoc(d, OnlyOf(front, p), s, p);
      GroupSnoc(d, front, s, p);
      hide *;
    }
  }

  lemma {:induction false} WithoutGroup(d: Disk, walk: seq<Source>, p: Path, q: Path)
    ensures Group(d, Without(walk, p), q) == if q == p then [] else Group(d, walk, q)
  {
    if walk != [] {
      var front, s := Init(walk), Last(walk);
      WithoutGroup(d, front, p, q);
      GroupStep(d, walk, p);
      GroupStep(d, walk, q);
      InitAndLast(walk);
      GroupSnoc(d, Without(front, p), s, q);
      GroupSnoc(d, front, s, q);
      PlusNone(Group(d, Without(front, p), q));
      hide *;
    }
  }

  lemma {:induction false} PartsAreDistinct(walk: seq<Source>, p: Path)
    requires Distinct(walk)
    ensures Distinct(OnlyOf(walk, p)) && Distinct(Without(walk, p))
  {
    if walk != [] {
      assert Distinct(Init(walk)) && Last(walk) !in Init(walk);
      PartsAreDistinct(Init(walk), p);
    }
  }

  lemma {:induction false} GroupJoins(d: Disk, one: seq<Source>, two: seq<Source>, q: Path)
    ensures Group(d, one + two, q) == Group(d, one, q) + Group(d, two, q)
  {
    if two == [] {
      assert one + two == one;
    } else {
      assert Init(one + two) == one + Init(two) && Last(one + two) == Last(two);
      GroupJoins(d, one, Init(two), q);
    }
  }

  /** Any order of the copies of p can be part of a walk, whatever the order of the others. */
  lemma Splice(d: Disk, walk: seq<Source>, order: seq<Source>, p: Path)
    requires Walks(walk, d) && Orders(order, d, p)
    ensures var spliced := Without(walk, p) + order;
            && Walks(spliced, d) && Group(d, spliced, p) == Group(d, order, p)
            && forall q :: q != p ==> Group(d, spliced, q) == Group(d, walk, q)
  {
    var rest := Without(walk, p);
    GroupJoins(d, rest, order, p);
    WithoutGroup(d, walk, p, p);
    forall q | q != p ensures Group(d, rest + order, q) == Group(d, walk, q) {
      GroupJoins(d, rest, order, q);
      WithoutGroup(d, walk, p, q);
      NoneOfOther(d, order, p, q);
    }
    SplicedWalks(d, walk, order, p);
    hide *;
  }

  lemma {:induction false} NoneOfOther(d: Disk, order: seq<Source>, p: Path, q: Path)
    requires q != p && forall s :: s in order ==> s.path == p
    ensures Group(d, order, q) == []
  {
    if order != [] {
      assert order == Init(order) + [Last(order)];
      NoneOfOther(d, Init(order), p, q);
    }
  }

  lemma SplicedWalks(d: Disk, walk: seq<Source>, order: seq<Source>, p: Path)
    requires Walks(walk, d) && Orders(order, d, p)
    ensures Walks(Without(walk, p) + order, d)
  {
    PartsAreDistinct(walk, p);
    assert forall i :: 0 <= i < |order| ==> order[i] in order;
    assert forall i :: 0 <= i < |Without(walk, p)| ==> Without(walk, p)[i] in Without(walk, p);
    hide OnlyOf;
  }

  lemma OrderOf(d: Disk, walk: seq<Source>, p: Path)
    requires Walks(walk, d)
    ensures Orders(OnlyOf(walk, p), d, p) && Group(d, OnlyOf(walk, p), p) == Group(d, walk, p)
  {
    OnlyGroup(d, walk, p);
    PartsAreDistinct(walk, p);
  }

  /** If each of these paths agrees in some order, one walk has them all agree. */
  lemma {:induction false} Weave(idx: Index, r: Ranks, d: Disk, paths: set<Path>) returns (walk: seq<Source>)
    requires forall p :: p in paths ==> p in Paths(d) && AgreesAt(idx, r, d, p)
    ensures Walks(walk, d) && forall p :: p in paths ==> ReadsAs(idx, r, d, walk, p)
    decreases paths
  {
    hide ReadsAs;
    hide Paths;
    hide Group;
    if paths == {} {
      walk := AWalk(d);
    } else {
      var p :| p in paths;
      var rest := Weave(idx, r, d, paths - {p});
      var order :| Orders(order, d, p) && ReadsAs(idx, r, d, order, p);
      walk := Without(rest, p) + order;
      hide Walks;
      hide Orders;
      Splice(d, rest, order, p);
      forall q | q in paths ensures ReadsAs(idx, r, d, walk, q) {
        SameReading(idx, r, d, if q == p then order else rest, walk, q);
      }
    }
  }

  /** Where the path elects a winner, and equal contents are equal records, the order does not matter. */
  lemma AgreesByWinner(idx: Index, r: Ranks, d: Disk, p: Path, c: Manifest)
    requires DiskOk(d) && Elects(r, d, p, c) && OneRecord(d, p)
    ensures AgreesAt(idx, r, d, p) <==> Lookup(idx, p) == Slot(c) && ShadowsAgree(idx, d, p, c)
  {
    assert p in Paths(d);
    hide Elects;
    hide OneRecord;
    hide ReadsAs;
    hide ShadowsAgree;
    hide DiskOk;
    hide Group;
    if AgreesAt(idx, r, d, p) {
      var walk := Weave(idx, r, d, {p});
      PathDecides(idx, r, d, walk, p, c);
    }
    var walk := AWalk(d);
    PathDecides(idx, r, d, walk, p, c);
    OrderOf(d, walk, p);
    SameReading(idx, r, d, walk, OnlyOf(walk, p), p);
  }

  // ---- A commit, in general ----

  /** Whether q's view can be touched by a commit at p. */
  predicate Beside(d: Disk, p: Path, q: Path) { q == p || (q.ConflictCopy? && q.original == p && q !in Paths(d)) }

  lemma ElsewhereAgrees(r: Ranks, d: Disk, walk: seq<Source>, p: Path, m: Manifest, q: Path)
    requires Walks(walk, d) && !Beside(d, p, q)
    ensures LoadAt(r, Written(d, p, m), WalkOn(walk, Canonical(p)), q) == LoadAt(r, d, walk, q)
  {
    WalkGoesOn(d, p, m, walk);
    var d', on := Written(d, p, m), WalkOn(walk, Canonical(p));
    hide Outcomes;
    hide Walks;
    hide Paths;
    hide Written;
    hide WalkOn;
    hide LastFor;
    hide LoadAt;
    OutcomeElsewhere(r, d, p, m, walk, q);
    if q !in Paths(d) && q.ConflictCopy? {
      OutcomeElsewhere(r, d, p, m, walk, q.original);
    }
    LoadAgrees(r, d, walk, d', on, q);
  }

  /** After a commit of m at p the cached index is still fresh if and only if there is an order of the
      copies of p alone in which m's record holds the slot, or for a tombstone none does, and the kept
      losers give the conflict copies the index shows of p. */
  lemma CommitFreshExactly(idx: Index, r: Ranks, d: Disk, p: Path, m: Manifest)
    requires Fresh(idx, r, d)
    ensures Fresh(Reflected(idx, p, m), r, Written(d, p, m)) <==> AgreesAt(Reflected(idx, p, m), r, Written(d, p, m), p)
  {
    var d', idx' := Written(d, p, m), Reflected(idx, p, m);
    assert Canonical(p) in d' && p in Paths(d');
    hide Written;
    hide Reflected;
    if Fresh(idx', r, d') {
      FreshAgrees(idx', r, d', p);
    }
    if AgreesAt(idx', r, d', p) {
      CommitWhen(idx, r, d, p, m);
    }
  }

  /** Where the copies of p have a winner c, and equal contents are equal records: if and only if m's
      record holds the slot of p, or m is a tombstone and a tombstone wins there, and the conflict
      copies the index shows of p are those its other manifests now give. */
  lemma CommitFreshByWinner(idx: Index, r: Ranks, d: Disk, p: Path, m: Manifest, c: Manifest)
    requires DiskOk(d) && ClockOk(ClockOf(m)) && Fresh(idx, r, d)
    requires Elects(r, Written(d, p, m), p, c) && OneRecord(Written(d, p, m), p)
    ensures Fresh(Reflected(idx, p, m), r, Written(d, p, m)) <==>
            Slot(c) == Slot(m) && ShadowsAgree(idx, Written(d, p, m), p, c)
  {
    var d', idx' := Written(d, p, m), Reflected(idx, p, m);
    assert DiskOk(d');
    assert Lookup(idx', p) == Slot(m);
    SameShadows(idx, p, m, d', c);
    hide *;
    CommitFreshExactly(idx, r, d, p, m);
    AgreesByWinner(idx', r, d', p, c);
  }

  lemma {:induction false} NotOwnCopy(p: Path, k: Content)
    ensures ConflictCopy(p, k) != p
    decreases p
  {
    if p.ConflictCopy? {
      NotOwnCopy(p.original, k);
    }
  }

  lemma SameShadows(idx: Index, p: Path, m: Manifest, d: Disk, c: Manifest)
    ensures ShadowsAgree(Reflected(idx, p, m), d, p, c) <==> ShadowsAgree(idx, d, p, c)
  {
    forall k ensures Lookup(Reflected(idx, p, m), ConflictCopy(p, k)) == Lookup(idx, ConflictCopy(p, k)) {
      NotOwnCopy(p, k);
    }
    hide ShadowIs;
  }

  lemma FreshAgrees(idx: Index, r: Ranks, d: Disk, p: Path)
    requires Fresh(idx, r, d) && p in Paths(d)
    ensures AgreesAt(idx, r, d, p)
  {
    var walk :| Walks(walk, d) && Shows(idx, r, d, walk);
    assert ReadsAs(idx, r, d, walk, p);
    hide ReadsAs;
    hide Walks;
    OrderOf(d, walk, p);
    SameReading(idx, r, d, walk, OnlyOf(walk, p), p);
  }

  lemma CommitWhen(idx: Index, r: Ranks, d: Disk, p: Path, m: Manifest)
    requires Fresh(idx, r, d) && AgreesAt(Reflected(idx, p, m), r, Written(d, p, m), p)
    ensures Fresh(Reflected(idx, p, m), r, Written(d, p, m))
  {
    var d', idx' := Written(d, p, m), Reflected(idx, p, m);
    var walk :| Walks(walk, d) && Shows(idx, r, d, walk);
    var order :| Orders(order, d', p) && ReadsAs(idx', r, d', order, p);
    var on := WalkOn(walk, Canonical(p));
    var spliced := Without(on, p) + order;
    WalkGoesOn(d, p, m, walk);
    assert p in Paths(d') && Paths(d') == Paths(d) + {p};
    hide *;
    Splice(d', on, order, p);
    SameReading(idx', r, d', order, spliced, p);
    forall q ensures Lookup(idx', q) == LoadAt(r, d', spliced, q) {
      ShowsAfterCommit(idx, r, d, walk, p, m, spliced, q);
    }
    assert Shows(idx', r, d', spliced) by { ShowsAll(idx', r, d', spliced); }
    assert Fresh(idx', r, d') by { IsFresh(idx', r, d', spliced); }
  }

  lemma ShowsAll(idx: Index, r: Ranks, d: Disk, walk: seq<Source>)
    requires forall q :: Lookup(idx, q) == LoadAt(r, d, walk, q)
    ensures Shows(idx, r, d, walk)
  {
  }

  lemma IsFresh(idx: Index, r: Ranks, d: Disk, walk: seq<Source>)
    requires Walks(walk, d) && Shows(idx, r, d, walk)
    ensures Fresh(idx, r, d)
  {
  }

  lemma ShowsAfterCommit(idx: Index, r: Ranks, d: Disk, walk: seq<Source>, p: Path, m: Manifest, spliced: seq<Source>, q: Path)
    requires Walks(walk, d) && Shows(idx, r, d, walk)
    requires var d' := Written(d, p, m);
             && ReadsAs(Reflected(idx, p, m), r, d', spliced, p)
             && (forall x :: x != p ==> Group(d', spliced, x) == Group(d', WalkOn(walk, Canonical(p)), x))
    ensures Lookup(Reflected(idx, p, m), q) == LoadAt(r, Written(d, p, m), spliced, q)
  {
    var d', idx', on := Written(d, p, m), Reflected(idx, p, m), WalkOn(walk, Canonical(p));
    WalkGoesOn(d, p, m, walk);
    assert Beside(d, p, q) ==> q == p || (q.ConflictCopy? && q.original == p && q !in Paths(d'));
    assert !Beside(d, p, q) ==> q != p && (q.ConflictCopy? && q.original == p ==> q in Paths(d'));
    hide *;
    if Beside(d, p, q) {
      BesideReads(idx', r, d', spliced, p, q);
    } else {
      CommitShowsElsewhere(idx, r, d, walk, p, m, q);
      SplicedElsewhere(r, d', on, spliced, p, q);
    }
  }

  lemma BesideReads(idx: Index, r: Ranks, d: Disk, walk: seq<Source>, p: Path, q: Path)
    requires ReadsAs(idx, r, d, walk, p)
    requires q == p || (q.ConflictCopy? && q.original == p && q !in Paths(d))
    ensures Lookup(idx, q) == LoadAt(r, d, walk, q)
  {
    hide LoadAt;
    if q != p {
      assert q == ConflictCopy(p, q.content);
    }
  }

  /** What a load shows away from p does not depend on the order of its copies. */
  lemma SplicedElsewhere(r: Ranks, d: Disk, walk: seq<Source>, other: seq<Source>, p: Path, q: Path)
    requires forall x :: x != p ==> Group(d, walk, x) == Group(d, other, x)
    requires q != p && (q.ConflictCopy? && q.original == p ==> q in Paths(d))
    ensures LoadAt(r, d, walk, q) == LoadAt(r, d, other, q)
  {
    assert forall x :: x != p ==> Outcomes(r, d, walk, x) == Outcomes(r, d, other, x);
    hide Outcomes;
    hide LastFor;
    hide Paths;
  }

  lemma CommitShowsElsewhere(idx: Index, r: Ranks, d: Disk, walk: seq<Source>, p: Path, m: Manifest, q: Path)
    requires Walks(walk, d) && Shows(idx, r, d, walk) && !Beside(d, p, q)
    ensures Lookup(Reflected(idx, p, m), q) == LoadAt(r, Written(d, p, m), WalkOn(walk, Canonical(p)), q)
  {
    assert Lookup(idx, q) == LoadAt(r, d, walk, q);
    assert Lookup(Reflected(idx, p, m), q) == Lookup(idx, q);
    hide *;
    ElsewhereAgrees(r, d, walk, p, m, q);
  }

  // ---- A whole index ----

  /** Each path's copies have an order that gives what the index shows, and it shows no more. */
  ghost predicate Agrees(idx: Index, r: Ranks, d: Disk) {
    && (forall p :: p in Paths(d) ==> AgreesAt(idx, r, d, p))
    && forall q :: q in idx ==> q in Paths(d) || (q.ConflictCopy? && q.original in Paths(d))
  }

  /** An index is fresh if and only if it agrees with every path, each taken by itself. */
  lemma FreshByPaths(idx: Index, r: Ranks, d: Disk)
    ensures Fresh(idx, r, d) <==> Agrees(idx, r, d)
  {
    hide LoadAt;
    hide AgreesAt;
    if Fresh(idx, r, d) {
      var walk :| Walks(walk, d) && Shows(idx, r, d, walk);
      forall p | p in Paths(d) ensures AgreesAt(idx, r, d, p) {
        FreshAgrees(idx, r, d, p);
      }
      forall q | q in idx ensures q in Paths(d) || (q.ConflictCopy? && q.original in Paths(d)) {
        assert Lookup(idx, q) == LoadAt(r, d, walk, q);
        ShownHasPath(r, d, walk, q);
      }
    }
    if Agrees(idx, r, d) {
      var walk := Weave(idx, r, d, Paths(d));
      hide Walks;
      hide ReadsAs;
      hide Paths;
      forall q ensures Lookup(idx, q) == LoadAt(r, d, walk, q) {
        if q in Paths(d) || (q.ConflictCopy? && q.original in Paths(d)) {
          BesideReads(idx, r, d, walk, if q in Paths(d) then q else q.original, q);
        } else {
          NothingLoads(r, d, walk, q);
        }
      }
      assert Shows(idx, r, d, walk);
    }
  }

  lemma NothingLoads(r: Ranks, d: Disk, walk: seq<Source>, q: Path)
    requires !(q in Paths(d) || (q.ConflictCopy? && q.original in Paths(d)))
    ensures LoadAt(r, d, walk, q) == None
  {
    hide Paths;
  }

  lemma ShownHasPath(r: Ranks, d: Disk, walk: seq<Source>, q: Path)
    requires LoadAt(r, d, walk, q).Some?
    ensures q in Paths(d) || (q.ConflictCopy? && q.original in Paths(d))
  {
    hide Outcomes;
    hide LastFor;
  }

  /** Every path elects a winner, and equal contents are equal records. */
  ghost predicate Electable(r: Ranks, d: Disk) {
    forall p :: p in Paths(d) ==> OneRecord(d, p) && exists c :: Elects(r, d, p, c)
  }

  /** Then the winners and the kept losers decide whether the index agrees. */
  lemma AgreesByWinners(idx: Index, r: Ranks, d: Disk)
    requires DiskOk(d) && Electable(r, d)
    ensures forall p :: p in Paths(d) ==> (AgreesAt(idx, r, d, p) <==> WonAt(idx, r, d, p))
  {
    hide Elects;
    hide OneRecord;
    hide ShadowsAgree;
    hide DiskOk;
    hide AgreesAt;
    forall p | p in Paths(d) ensures AgreesAt(idx, r, d, p) <==> WonAt(idx, r, d, p) {
      var c :| Elects(r, d, p, c);
      AgreesByWinner(idx, r, d, p, c);
      forall b | Elects(r, d, p, b) ensures b == c {
        ElectsOne(r, d, p, b, c);
      }
    }
  }
}
