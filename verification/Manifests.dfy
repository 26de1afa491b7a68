/** Manifest copies of one virtual path and their reconciliation into a winner, conflict
    copies and removals. */
module Manifests {
  import opened Prelude

  type Device = string

  /** A vector clock: a counter per writing device. Every counter a writer mints is positive. */
  type Clock = map<Device, int>

  predicate ClockOk(c: Clock) { forall k :: k in c ==> c[k] > 0 }

  function At(c: Clock, k: Device): int { if k in c then c[k] else 0 }

  datatype ChunkRef = ChunkRef(id: string, size: int)

  /** A timestamp field: `text` stands for the stored string by its place in lexicographic
      order, `instant` for the time it parses to, if it does. */
  datatype Stamp = Stamp(text: int, instant: Option<int>)

  datatype FileRecord = FileRecord(size: int, mode: int, updatedAt: Stamp, generation: int,
                                   chunks: seq<ChunkRef>, clock: Clock)

  datatype Manifest = Manifest(updatedAt: Stamp, deleted: bool, deletedGeneration: int, clock: Clock, file: FileRecord)

  /** What conflict names and content keys are hashed from. */
  datatype Content = Content(chunks: seq<ChunkRef>, generation: int, updatedAt: int)

  function ContentOf(f: FileRecord): Content { Content(f.chunks, f.generation, f.updatedAt.text) }

  /** A virtual path; a conflict path is its original plus a suffix seeded from content. */
  datatype Path = Named(name: string) | ConflictCopy(original: Path, content: Content)

  /** A manifest file: the canonical name of a path, or a copy a sync client named otherwise. */
  datatype Source = Canonical(path: Path) | Copy(path: Path, name: string)

  datatype Candidate = Candidate(m: Manifest, source: Source)

  /** Hash values, as the orders they induce: of content keys and of serialised clocks. */
  datatype Ranks = Ranks(content: (Content, bool) -> int, clock: Clock -> int)

  // ---- Clocks ----

  function ClockOf(m: Manifest): Clock { if m.file.clock != map[] then m.file.clock else m.clock }

  predicate Clocked(m: Manifest) { ClockOf(m) != map[] }

  predicate Dominates(a: Clock, b: Clock) {
    && a != map[] && b != map[]
    && (forall k :: k in b ==> At(a, k) >= b[k])
    && ((exists k :: k in b && At(a, k) > b[k]) || (exists k :: k in a && a[k] > 0 && k !in b))
  }

  method ClockDominates(a: Clock, b: Clock) returns (d: bool)
    ensures d == Dominates(a, b)
  {
    if a == map[] || b == map[] {
      return false;
    }
    var strictly := false;
    var todo := b.Keys;
    while todo != {}
      invariant todo <= b.Keys
      invariant forall k :: k in b && k !in todo ==> At(a, k) >= b[k]
      invariant strictly <==> exists k :: k in b && k !in todo && At(a, k) > b[k]
    {
      var k :| k in todo;
      todo := todo - {k};
      if At(a, k) < b[k] {
        return false;
      }
      if At(a, k) > b[k] {
        strictly := true;
      }
    }
    if !strictly {
      todo := a.Keys;
      while todo != {} && !strictly
        invariant todo <= a.Keys
        invariant strictly <==> exists k :: k in a && k !in todo && a[k] > 0 && k !in b
        decreases todo
      {
        var k :| k in todo;
        todo := todo - {k};
        if a[k] <= 0 {
          continue;
        }
        if k !in b {
          strictly := true;
        }
      }
    }
    d := strictly;
  }

  /** On clocks writers can mint, dominance is being ahead somewhere and behind nowhere ... */
  lemma DominatesPointwise(a: Clock, b: Clock)
    requires ClockOk(a) && ClockOk(b) && b != map[]
    ensures Dominates(a, b) <==> (forall k :: At(a, k) >= At(b, k)) && a != b
  {
    if Dominates(a, b) {
      forall k ensures At(a, k) >= At(b, k) {
        if k in b { assert At(a, k) >= b[k]; }
      }
    }
    if (forall k :: At(a, k) >= At(b, k)) && a != b {
      assert forall k :: k in b ==> At(b, k) == b[k];
      var k0 :| k0 in b;
      assert At(a, k0) >= At(b, k0);
      assert k0 in a;
      if forall k :: k in b ==> At(a, k) == b[k] {
        assert forall k :: k in b ==> k in a && a[k] == b[k];
        assert exists k :: k in a && k !in b;
      }
    }
  }

  /** ... and a strict partial order. */
  lemma DominanceIsStrictOrder(a: Clock, b: Clock, c: Clock)
    requires ClockOk(a) && ClockOk(b) && ClockOk(c)
    ensures !Dominates(a, a)
    ensures Dominates(a, b) ==> !Dominates(b, a)
    ensures Dominates(a, b) && Dominates(b, c) ==> Dominates(a, c)
  {
    if Dominates(a, b) {
      DominatesPointwise(a, b);
      if forall k :: At(b, k) >= At(a, k) {
        SameCounters(a, b);
      }
      if Dominates(b, a) {
        DominatesPointwise(b, a);
      }
      if Dominates(b, c) {
        DominatesPointwise(b, c);
        DominatesPointwise(a, c);
        forall k ensures At(a, k) >= At(c, k) {
          assert At(a, k) >= At(b, k) && At(b, k) >= At(c, k);
        }
      }
    }
  }

  lemma SameCounters(a: Clock, b: Clock)
    requires ClockOk(a) && ClockOk(b)
    requires (forall k :: At(a, k) >= At(b, k)) && (forall k :: At(b, k) >= At(a, k))
    ensures a == b
  {
    forall k ensures k in a <==> k in b {
      assert At(a, k) >= At(b, k) && At(b, k) >= At(a, k);
    }
    forall k | k in a ensures a[k] == b[k] {
      assert At(a, k) >= At(b, k) && At(b, k) >= At(a, k);
    }
  }

  // ---- The order that elects a winner ----

  function Sign(a: int, b: int): int { if a > b then 1 else if a < b then -1 else 0 }

  function Then(first: int, second: int): int { if first != 0 then first else second }

  function Bit(b: bool): int { if b then 1 else 0 }

  /** A tombstone written without a generation is ordered by its timestamp. */
  function Generation(m: Manifest): int {
    if m.deleted && m.file.generation == 0 && m.updatedAt.instant.Some? then m.updatedAt.instant.value
    else m.file.generation
  }

  function GenerationCompare(a: Manifest, b: Manifest): int {
    Then(Sign(Generation(a), Generation(b)),
         Then(if a.updatedAt.instant.Some? && b.updatedAt.instant.Some?
              then Sign(a.updatedAt.instant.value, b.updatedAt.instant.value) else 0,
              Then(Sign(a.updatedAt.text, b.updatedAt.text), Sign(Bit(a.deleted), Bit(b.deleted)))))
  }

  function ContentKey(r: Ranks, m: Manifest): int { r.content(ContentOf(m.file), m.deleted) }

  function ConcurrentTiebreak(r: Ranks, a: Manifest, b: Manifest): int {
    Then(Sign(Bit(a.deleted), Bit(b.deleted)),
         Then(Sign(ContentKey(r, a), ContentKey(r, b)), Sign(r.clock(ClockOf(a)), r.clock(ClockOf(b)))))
  }

  function Compare(r: Ranks, a: Manifest, b: Manifest): int {
    if Clocked(a) && Clocked(b) then
      if Dominates(ClockOf(a), ClockOf(b)) then 1
      else if Dominates(ClockOf(b), ClockOf(a)) then -1
      else ConcurrentTiebreak(r, a, b)
    else GenerationCompare(a, b)
  }

  predicate Beats(r: Ranks, a: Manifest, b: Manifest) { Compare(r, a, b) > 0 }

  lemma BeatsIsAsymmetric(r: Ranks, a: Manifest, b: Manifest)
    requires ClockOk(ClockOf(a)) && ClockOk(ClockOf(b))
    ensures Compare(r, a, b) == -Compare(r, b, a)
  {
    if Clocked(a) && Clocked(b) {
      DominanceIsStrictOrder(ClockOf(a), ClockOf(b), ClockOf(a));
      DominanceIsStrictOrder(ClockOf(b), ClockOf(a), ClockOf(b));
    }
  }

  // ---- Reconciliation of one path ----

  predicate Dominated(c: Candidate, list: seq<Candidate>) {
    Clocked(c.m) && exists o :: o in list && o.source != c.source && Dominates(ClockOf(o.m), ClockOf(c.m))
  }

  function Undominated(part: seq<Candidate>, list: seq<Candidate>): (s: seq<Candidate>)
    ensures forall c :: c in s <==> c in part && !Dominated(c, list)
  {
    if part == [] then [] else
    var s := Undominated(Init(part), list);
    assert part == Init(part) + [Last(part)];
    if Dominated(Last(part), list) then s else s + [Last(part)]
  }

  function Antichain(list: seq<Candidate>): (s: seq<Candidate>)
    ensures forall c :: c in s <==> c in list && !Dominated(c, list)
  {
    Undominated(list, list)
  }

  /** Moves x forward past every element it beats, from the end, until one holds it up. */
  function Insert(r: Ranks, s: seq<Candidate>, x: Candidate): (t: seq<Candidate>)
    ensures multiset(t) == multiset(s) + multiset{x}
    ensures t != []
  {
    if s == [] then [x] else
    assert s == Init(s) + [Last(s)];
    if Beats(r, x.m, Last(s).m) then Insert(r, Init(s), x) + [Last(s)] else s + [x]
  }

  /** The stable insertion sort, greatest first. */
  function Sorted(r: Ranks, list: seq<Candidate>): (s: seq<Candidate>)
    ensures multiset(s) == multiset(list)
    ensures |s| == |list|
  {
    if list == [] then [] else
    assert list == Init(list) + [Last(list)];
    var s := Insert(r, Sorted(r, Init(list)), Last(list));
    assert |multiset(s)| == |s| && |multiset(list)| == |list|;
    s
  }

  predicate SameFile(a: FileRecord, b: FileRecord) { a.size == b.size && a.chunks == b.chunks }

  datatype Fate = Duplicate | OldTombstone | Suppressed | Kept

  /** What becomes of an undominated loser under this winner. */
  function FateUnder(winner: Manifest, loser: Manifest): Fate {
    if loser.deleted == winner.deleted && SameFile(loser.file, winner.file) then Duplicate
    else if loser.deleted then OldTombstone
    else if winner.deleted && winner.deletedGeneration > 0 && !(Clocked(winner) && Clocked(loser))
            && loser.file.generation <= winner.deletedGeneration then Suppressed
    else Kept
  }

  function ConflictPath(p: Path, f: FileRecord): Path { ConflictCopy(p, ContentOf(f)) }

  datatype Planned = Planned(path: Path, file: FileRecord, source: Source)

  datatype Outcome = Outcome(live: Option<FileRecord>, conflicts: seq<Planned>, removes: seq<Source>)

  function Conflicts(p: Path, winner: Manifest, losers: seq<Candidate>): seq<Planned> {
    if losers == [] then [] else
    Conflicts(p, winner, Init(losers)) +
    if FateUnder(winner, Last(losers).m) == Kept
    then [Planned(ConflictPath(p, Last(losers).m.file), Last(losers).m.file, Last(losers).source)] else []
  }

  function Redundant(winner: Manifest, losers: seq<Candidate>): seq<Source> {
    if losers == [] then [] else
    Redundant(winner, Init(losers)) +
    if FateUnder(winner, Last(losers).m) != Kept then [Last(losers).source] else []
  }

  function Superseded(part: seq<Candidate>, list: seq<Candidate>): seq<Source> {
    if part == [] then [] else
    Superseded(Init(part), list) + if Dominated(Last(part), list) then [Last(part).source] else []
  }

  function Reconcile(r: Ranks, p: Path, list: seq<Candidate>): Outcome {
    var sorted := Sorted(r, Antichain(list));
    if sorted == [] then Outcome(None, [], Superseded(list, list)) else
    var winner := sorted[0].m;
    Outcome(if winner.deleted then None else Some(winner.file),
            Conflicts(p, winner, sorted[1..]),
            Superseded(list, list) + Redundant(winner, sorted[1..]))
  }
}
