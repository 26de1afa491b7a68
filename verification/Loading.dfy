/** The manifest store on disk, the index a load reconciles from it, and the plan of removals
    and conflict copies the load leaves for Compact. */
module Loading {
  import opened Prelude
  import opened Manifests
  import opened Election

  type Disk = map<Source, Manifest>

  function Paths(d: Disk): set<Path> { set s | s in d :: s.path }

  /** A walk visits every manifest file once, in an order the file system chooses. */
  ghost predicate Walks(walk: seq<Source>, d: Disk) {
    && (forall s :: s in walk <==> s in d)
    && (forall i, j :: 0 <= i < j < |walk| ==> walk[i] != walk[j])
  }

  function Group(d: Disk, walk: seq<Source>, p: Path): (g: seq<Candidate>)
    ensures forall c :: c in g <==> c.source in walk && c.source in d && c.source.path == p && c.m == d[c.source]
  {
    if walk == [] then [] else
    assert walk == Init(walk) + [Last(walk)];
    Group(d, Init(walk), p) +
    if Last(walk) in d && Last(walk).path == p then [Candidate(d[Last(walk)], Last(walk))] else []
  }

  lemma {:induction false} GroupIsUnique(d: Disk, walk: seq<Source>, p: Path)
    requires forall i, j :: 0 <= i < j < |walk| ==> walk[i] != walk[j]
    ensures forall c :: multiset(Group(d, walk, p))[c] <= 1
  {
    if walk != [] {
      GroupIsUnique(d, Init(walk), p);
      assert Last(walk) !in Init(walk);
    }
  }

  ghost predicate DiskOk(d: Disk) { forall s :: s in d ==> ClockOk(ClockOf(d[s])) }

  function Outcomes(r: Ranks, d: Disk, walk: seq<Source>, p: Path): Outcome {
    Reconcile(r, p, Group(d, walk, p))
  }

  /** A conflict path with manifests of its own is left to them: its loser is not planned. */
  datatype Plan = Plan(conflicts: set<Planned>, removes: set<Source>)

  function PlanOf(r: Ranks, d: Disk, walk: seq<Source>): Plan {
    Plan(set p, c | p in Paths(d) && c in Outcomes(r, d, walk, p).conflicts && c.path !in Paths(d) :: c,
         set p, s | p in Paths(d) && s in Outcomes(r, d, walk, p).removes :: s)
  }

  datatype Entry = Entry(file: FileRecord, conflictOf: Option<Path>)

  function LastFor(cs: seq<Planned>, q: Path): Option<FileRecord> {
    if cs == [] then None
    else if Last(cs).path == q then Some(Last(cs).file)
    else LastFor(Init(cs), q)
  }

  /** What a fresh load puts in the index at q. */
  function LoadAt(r: Ranks, d: Disk, walk: seq<Source>, q: Path): Option<Entry> {
    if q in Paths(d) then
      var live := Outcomes(r, d, walk, q).live;
      if live.Some? then Some(Entry(live.value, None)) else None
    else if q.ConflictCopy? && q.original in Paths(d) then
      var f := LastFor(Outcomes(r, d, walk, q.original).conflicts, q);
      if f.Some? then Some(Entry(f.value, Some(q.original))) else None
    else None
  }

  // ---- Every copy is accounted for ----

  lemma {:induction false} ConflictsAre(p: Path, m: Manifest, losers: seq<Candidate>)
    ensures forall c :: c in Conflicts(p, m, losers) <==>
                        exists x :: x in losers && FateUnder(m, x.m) == Kept
                                    && c == Planned(ConflictPath(p, x.m.file), x.m.file, x.source)
  {
    if losers != [] {
      assert losers == Init(losers) + [Last(losers)];
      ConflictsAre(p, m, Init(losers));
    }
  }

  lemma {:induction false} RedundantAre(m: Manifest, losers: seq<Candidate>)
    ensures forall s :: s in Redundant(m, losers) <==> exists x :: x in losers && FateUnder(m, x.m) != Kept && s == x.source
  {
    if losers != [] {
      assert losers == Init(losers) + [Last(losers)];
      RedundantAre(m, Init(losers));
    }
  }

  lemma {:induction false} SupersededAre(part: seq<Candidate>, list: seq<Candidate>)
    ensures forall s :: s in Superseded(part, list) <==> exists x :: x in part && Dominated(x, list) && s == x.source
  {
    if part != [] {
      assert part == Init(part) + [Last(part)];
      SupersededAre(Init(part), list);
    }
  }

  lemma {:induction false} UndominatedUnique(part: seq<Candidate>, list: seq<Candidate>)
    ensures forall c :: multiset(Undominated(part, list))[c] <= multiset(part)[c]
  {
    if part != [] {
      assert part == Init(part) + [Last(part)];
      UndominatedUnique(Init(part), list);
    }
  }

  /** The candidate that holds the canonical slot of a path. */
  function Holder(r: Ranks, list: seq<Candidate>): Candidate
    requires Antichain(list) != []
  {
    Sorted(r, Antichain(list))[0]
  }

  /** What becomes of one copy. */
  ghost predicate AccountedFor(r: Ranks, p: Path, list: seq<Candidate>, x: Candidate)
    requires Antichain(list) != []
  {
    var out, w := Reconcile(r, p, list), Holder(r, list);
    if Dominated(x, list) then x.source in out.removes
    else if x == w then out.live == (if x.m.deleted then None else Some(x.m.file))
    else if FateUnder(w.m, x.m) == Kept then Planned(ConflictPath(p, x.m.file), x.m.file, x.source) in out.conflicts
    else x.source in out.removes
  }

  ghost predicate Loses(r: Ranks, list: seq<Candidate>, x: Candidate)
    requires Antichain(list) != []
  {
    x in list && !Dominated(x, list) && x != Holder(r, list)
  }

  lemma ConflictsOf(r: Ranks, p: Path, list: seq<Candidate>)
    requires Antichain(list) != [] && forall c :: multiset(list)[c] <= 1
    ensures forall c :: c in Reconcile(r, p, list).conflicts <==>
                        exists x :: Loses(r, list, x) && FateUnder(Holder(r, list).m, x.m) == Kept
                                    && c == Planned(ConflictPath(p, x.m.file), x.m.file, x.source)
  {
    hide FateUnder;
    hide Dominated;
    LosersAre(r, list);
    ConflictsAre(p, Holder(r, list).m, Sorted(r, Antichain(list))[1..]);
  }

  lemma RemovesOf(r: Ranks, p: Path, list: seq<Candidate>)
    requires Antichain(list) != [] && forall c :: multiset(list)[c] <= 1
    ensures forall s :: s in Reconcile(r, p, list).removes <==>
                        exists x :: x in list && s == x.source
                                    && (Dominated(x, list) || (Loses(r, list, x) && FateUnder(Holder(r, list).m, x.m) != Kept))
  {
    hide FateUnder;
    hide Dominated;
    LosersAre(r, list);
    var m, losers := Holder(r, list).m, Sorted(r, Antichain(list))[1..];
    RedundantAre(m, losers);
    SupersededAre(list, list);
    var removes := Reconcile(r, p, list).removes;
    assert removes == Superseded(list, list) + Redundant(m, losers);
    hide Reconcile;
    hide Sorted;
    forall s ensures s in removes <==>
                     exists x :: x in list && s == x.source
                                 && (Dominated(x, list) || (Loses(r, list, x) && FateUnder(m, x.m) != Kept)) {
      assert s in removes <==> s in Superseded(list, list) || s in Redundant(m, losers);
    }
  }

  /** Reconciliation accounts for every copy of a path and invents nothing: a copy is removed
      only because it is causally superseded, duplicates the winner, is an old tombstone, or
      had been seen by the delete that won; the winner is itself undominated. */
  lemma EveryCopyAccountedFor(r: Ranks, p: Path, list: seq<Candidate>, x: Candidate)
    requires Antichain(list) != [] && (forall c :: multiset(list)[c] <= 1) && x in list
    ensures AccountedFor(r, p, list, x)
    ensures Holder(r, list) in list && !Dominated(Holder(r, list), list)
  {
    hide FateUnder;
    hide Dominated;
    hide Sorted;
    LiveIsHolder(r, p, list);
    hide Reconcile;
    hide Holder;
    if Dominated(x, list) {
      RemovesOf(r, p, list);
    } else if x != Holder(r, list) {
      assert Loses(r, list, x);
      if FateUnder(Holder(r, list).m, x.m) == Kept {
        ConflictsOf(r, p, list);
      } else {
        RemovesOf(r, p, list);
      }
    }
  }

  lemma LiveIsHolder(r: Ranks, p: Path, list: seq<Candidate>)
    requires Antichain(list) != [] && forall c :: multiset(list)[c] <= 1
    ensures var w := Holder(r, list);
            && w in list && !Dominated(w, list)
            && Reconcile(r, p, list).live == if w.m.deleted then None else Some(w.m.file)
  {
    LosersAre(r, list);
  }

  lemma LosersAre(r: Ranks, list: seq<Candidate>)
    requires Antichain(list) != [] && forall c :: multiset(list)[c] <= 1
    ensures var sorted := Sorted(r, Antichain(list));
            && sorted[0] in list && !Dominated(sorted[0], list)
            && forall x :: x in sorted[1..] <==> x in list && !Dominated(x, list) && x != sorted[0]
  {
    var sorted := Sorted(r, Antichain(list));
    UndominatedUnique(list, list);
    assert sorted == [sorted[0]] + sorted[1..];
    SameMembers(sorted, Antichain(list));
    forall x ensures x in sorted[1..] <==> x in sorted && x != sorted[0] {
      assert multiset(sorted)[x] == multiset([sorted[0]])[x] + multiset(sorted[1..])[x];
    }
  }

  /** A finite set of copies always has an undominated one. */
  lemma {:induction false} AntichainIsNotEmpty(list: seq<Candidate>)
    requires list != [] && AllClocksOk(list)
    ensures Antichain(list) != []
  {
    var x := list[0];
    if Dominated(x, list) {
      x := Climb(list, x, set c | c in list);
    }
    assert x in Antichain(list);
  }

  /** Following dominators upward ends, since none is met twice. */
  lemma {:induction false} Climb(list: seq<Candidate>, x: Candidate, above: set<Candidate>) returns (top: Candidate)
    requires AllClocksOk(list) && x in list
    requires forall o :: o in list && Dominates(ClockOf(o.m), ClockOf(x.m)) ==> o in above
    ensures top in list && !Dominated(top, list)
    decreases |above|
  {
    if !Dominated(x, list) {
      top := x;
    } else {
      var o :| o in list && o.source != x.source && Dominates(ClockOf(o.m), ClockOf(x.m));
      forall b | b in list && Dominates(ClockOf(b.m), ClockOf(o.m)) ensures b in above - {o} {
        DominanceIsStrictOrder(ClockOf(b.m), ClockOf(o.m), ClockOf(x.m));
      }
      top := Climb(list, o, above - {o});
    }
  }

  lemma DominatedSame(x: Candidate, list: seq<Candidate>, other: seq<Candidate>)
    requires forall c :: c in list <==> c in other
    ensures Dominated(x, list) == Dominated(x, other)
  {
  }

  /** The whole outcome is independent of the walk whenever the undominated copies have a
      champion: the same live record, the same conflict copies from the same files, and the
      same removals but for the choice among identical copies of the winner. */
  lemma OutcomeIsOrderFree(r: Ranks, p: Path, list: seq<Candidate>, other: seq<Candidate>, m: Manifest)
    requires multiset(list) == multiset(other) && (forall c :: multiset(list)[c] <= 1)
    requires AllClocksOk(list) && Champion(r, Antichain(list), m)
    ensures Reconcile(r, p, list).live == Reconcile(r, p, other).live
    ensures forall c :: c in Reconcile(r, p, list).conflicts <==> c in Reconcile(r, p, other).conflicts
    ensures forall x :: x in list && x.m != m && (forall y :: y in list && y.source == x.source ==> y == x) ==>
                          (x.source in Reconcile(r, p, list).removes <==> x.source in Reconcile(r, p, other).removes)
  {
    SameMembers(list, other);
    forall x ensures Dominated(x, list) == Dominated(x, other) {
      DominatedSame(x, list, other);
    }
    hide Dominated;
    assert forall c :: c in Antichain(list) <==> c in Antichain(other);
    ChampionWins(r, Antichain(list), m);
    ChampionWins(r, Antichain(other), m);
    LiveIsHolder(r, p, list);
    LiveIsHolder(r, p, other);
    ConflictsOf(r, p, list);
    ConflictsOf(r, p, other);
    RemovesOf(r, p, list);
    RemovesOf(r, p, other);
    hide Reconcile;
    hide Champion;
    hide Antichain;
    OnlyDuplicatesDiffer(r, list, other, m);
  }

  /** Losers that differ in record from the winner are losers either way. */
  lemma OnlyDuplicatesDiffer(r: Ranks, list: seq<Candidate>, other: seq<Candidate>, m: Manifest)
    requires Antichain(list) != [] && Antichain(other) != []
    requires Holder(r, list).m == m && Holder(r, other).m == m
    requires (forall c :: c in list <==> c in other) && forall x :: Dominated(x, list) == Dominated(x, other)
    ensures forall x: Candidate :: x.m != m ==> (Loses(r, list, x) <==> Loses(r, other, x))
    ensures forall x: Candidate :: Loses(r, list, x) && FateUnder(m, x.m) == Kept ==> Loses(r, other, x)
    ensures forall x: Candidate :: Loses(r, other, x) && FateUnder(m, x.m) == Kept ==> Loses(r, list, x)
  {
    hide Dominated;
    hide Antichain;
    hide Sorted;
  }

  // ---- The copies of one path on a disk ----

  function Here(d: Disk, s: Source): Candidate
    requires s in d
  {
    Candidate(d[s], s)
  }

  lemma GroupFacts(d: Disk, walk: seq<Source>, p: Path)
    requires DiskOk(d) && Walks(walk, d) && p in Paths(d)
    ensures var g := Group(d, walk, p);
            && AllClocksOk(g) && Antichain(g) != [] && (forall c :: multiset(g)[c] <= 1)
            && (forall c :: c in g <==> c.source in d && c.source.path == p && c == Here(d, c.source))
  {
    GroupIsUnique(d, walk, p);
    var s :| s in d && s.path == p;
    assert Here(d, s) in Group(d, walk, p);
    AntichainIsNotEmpty(Group(d, walk, p));
  }
}
