/** What becomes of the copies that lose a path, and who wins it, read off the records alone. */
module Losers {
  import opened Prelude
  import opened Manifests
  import opened Election
  import opened Loading

  /** A record carries a clock, of its file or its own. */
  predicate HasClock(m: Manifest) { m.file.clock != map[] || m.clock != map[] }

  predicate SameContent(a: Manifest, b: Manifest) { a.file.size == b.file.size && a.file.chunks == b.file.chunks }

  /** The conflict copy of x is planned under the name its content gives. */
  predicate BecomesCopy(r: Ranks, p: Path, list: seq<Candidate>, x: Candidate) {
    var f := x.m.file;
    Planned(ConflictCopy(p, Content(f.chunks, f.generation, f.updatedAt.text)), f, x.source) in Reconcile(r, p, list).conflicts
  }

  predicate IsRemoved(r: Ranks, p: Path, list: seq<Candidate>, x: Candidate) { x.source in Reconcile(r, p, list).removes }

  /** An undominated copy that does not hold the path, each copy from a file of its own. */
  ghost predicate Lost(r: Ranks, list: seq<Candidate>, x: Candidate) {
    && Antichain(list) != [] && (forall c :: multiset(list)[c] <= 1) && (forall y, z :: y in list && z in list && y.source == z.source ==> y == z)
    && x in list && !Dominated(x, list) && x != Holder(r, list)
  }

  /** Whether it is removed, in full; what is not removed becomes a conflict copy, and nothing both. */
  lemma LoserExactly(r: Ranks, p: Path, list: seq<Candidate>, x: Candidate)
    requires Lost(r, list, x)
    ensures var w := Holder(r, list).m;
            IsRemoved(r, p, list, x) <==>
            || (SameContent(x.m, w) && x.m.deleted == w.deleted)
            || x.m.deleted
            || (w.deleted && w.deletedGeneration > 0 && x.m.file.generation <= w.deletedGeneration && !(HasClock(w) && HasClock(x.m)))
    ensures BecomesCopy(r, p, list, x) <==> !IsRemoved(r, p, list, x)
  {
    var w := Holder(r, list).m;
    RemovesOf(r, p, list);
    ConflictsOf(r, p, list);
    assert Loses(r, list, x);
    hide Reconcile;
    hide Antichain;
    hide Dominated;
    hide Holder;
    assert IsRemoved(r, p, list, x) <==> FateUnder(w, x.m) != Kept;
  }

  /** Where all copies carry clocks, a live loser is removed only as a duplicate of a live winner: no
      delete takes an edit it did not see. */
  lemma ClockedEditsAreKept(r: Ranks, p: Path, list: seq<Candidate>, x: Candidate)
    requires Lost(r, list, x) && !x.m.deleted && forall c :: c in list ==> HasClock(c.m)
    ensures var out := Reconcile(r, p, list);
            IsRemoved(r, p, list, x) <==>
            out.live.Some? && out.live.value.size == x.m.file.size && out.live.value.chunks == x.m.file.chunks
    ensures BecomesCopy(r, p, list, x) <==> !IsRemoved(r, p, list, x)
  {
    LoserExactly(r, p, list, x);
    LiveIsHolder(r, p, list);
    hide Reconcile;
    hide Antichain;
    hide Dominated;
    hide Holder;
  }

  /** Where one side has no clock, a delete that says which generation it saw takes just the live
      copies up to it. */
  lemma SeenEditsAreRemoved(r: Ranks, p: Path, list: seq<Candidate>, x: Candidate)
    requires Lost(r, list, x) && !x.m.deleted
    requires var w := Holder(r, list).m; w.deleted && w.deletedGeneration > 0 && !(HasClock(w) && HasClock(x.m))
    ensures IsRemoved(r, p, list, x) <==> x.m.file.generation <= Holder(r, list).m.deletedGeneration
    ensures BecomesCopy(r, p, list, x) <==> !IsRemoved(r, p, list, x)
  {
    LoserExactly(r, p, list, x);
  }

  // ---- Who wins ----

  /** Three or four keys in order of importance. */
  datatype Rank = Rank(first: int, second: int, third: int, fourth: int)

  predicate AtLeast(a: Rank, b: Rank) {
    a.first > b.first || (a.first == b.first &&
    (a.second > b.second || (a.second == b.second &&
    (a.third > b.third || (a.third == b.third && a.fourth >= b.fourth)))))
  }

  /** For copies with clocks: a delete first, then the hashes of content and clock. */
  function ConcurrentRank(r: Ranks, m: Manifest): Rank {
    var clock := if m.file.clock != map[] then m.file.clock else m.clock;
    Rank(if m.deleted then 1 else 0, r.content(Content(m.file.chunks, m.file.generation, m.file.updatedAt.text), m.deleted), r.clock(clock), 0)
  }

  /** For copies without: the generation, then the time written, then its text, then a delete. A
      delete without a generation counts as of its time. */
  function WrittenRank(m: Manifest): Rank
    requires m.updatedAt.instant.Some?
  {
    var at := m.updatedAt.instant.value;
    Rank(if m.deleted && m.file.generation == 0 then at else m.file.generation, at, m.updatedAt.text, if m.deleted then 1 else 0)
  }

  /** Which of two copies goes before the other, in full: where both carry clocks the dominating one,
      or of two concurrent ones the greater in rank; otherwise the later by generation, by the times
      written if both parse, by their texts, and last the delete. What is alike in all this ties. */
  lemma BeatsExactly(r: Ranks, a: Manifest, b: Manifest)
    requires ClockOk(ClockOf(a)) && ClockOk(ClockOf(b))
    ensures HasClock(a) && HasClock(b) ==>
              (Beats(r, a, b) <==> Dominates(ClockOf(a), ClockOf(b))
                                   || (!Dominates(ClockOf(b), ClockOf(a)) && !AtLeast(ConcurrentRank(r, b), ConcurrentRank(r, a))))
    ensures !(HasClock(a) && HasClock(b)) && a.updatedAt.instant.Some? && b.updatedAt.instant.Some? ==>
              (Beats(r, a, b) <==> !AtLeast(WrittenRank(b), WrittenRank(a)))
    ensures !(HasClock(a) && HasClock(b)) && !(a.updatedAt.instant.Some? && b.updatedAt.instant.Some?) ==>
              (Beats(r, a, b) <==> !AtLeast(UntimedRank(b), UntimedRank(a)))
  {
    if HasClock(a) && HasClock(b) {
      DominanceIsStrictOrder(ClockOf(a), ClockOf(b), ClockOf(a));
    }
  }

  /** Where a time does not parse, it is left out of the comparison. */
  function UntimedRank(m: Manifest): Rank {
    Rank(if m.deleted && m.file.generation == 0 && m.updatedAt.instant.Some? then m.updatedAt.instant.value else m.file.generation,
         m.updatedAt.text, if m.deleted then 1 else 0, 0)
  }

  /** Those of a class stand before the others. */
  ghost predicate HighFirst(s: seq<Candidate>, high: Manifest -> bool) {
    forall i, j :: 0 <= i < j < |s| && high(s[j].m) ==> high(s[i].m)
  }

  ghost predicate HighBeatsLow(r: Ranks, s: seq<Candidate>, high: Manifest -> bool) {
    forall a, b :: a in s && b in s && high(a.m) && !high(b.m) ==> Beats(r, a.m, b.m) && !Beats(r, b.m, a.m)
  }

  lemma {:induction false} InsertKeepsHigh(r: Ranks, s: seq<Candidate>, x: Candidate, high: Manifest -> bool)
    requires HighFirst(s, high) && HighBeatsLow(r, s + [x], high)
    ensures HighFirst(Insert(r, s, x), high)
  {
    if s != [] {
      var front, last := Init(s), Last(s);
      assert s == front + [last] && last in s + [x] && x in s + [x];
      if Beats(r, x.m, last.m) {
        assert forall c :: c in front + [x] ==> c in s + [x];
        InsertKeepsHigh(r, front, x, high);
        var t := Insert(r, front, x);
        hide Insert;
        forall i | 0 <= i < |t| && high(last.m) ensures high(t[i].m) {
          HighMembers(front, x, t, high, i);
        }
      }
    }
  }

  lemma HighMembers(s: seq<Candidate>, x: Candidate, t: seq<Candidate>, high: Manifest -> bool, i: nat)
    requires multiset(t) == multiset(s) + multiset{x} && i < |t|
    requires high(x.m) && forall c :: c in s ==> high(c.m)
    ensures high(t[i].m)
  {
    assert t[i] in multiset(t);
  }

  lemma {:induction false} SortedKeepsHigh(r: Ranks, list: seq<Candidate>, high: Manifest -> bool)
    requires HighBeatsLow(r, list, high)
    ensures HighFirst(Sorted(r, list), high)
  {
    if list != [] {
      assert list == Init(list) + [Last(list)];
      SortedKeepsHigh(r, Init(list), high);
      var s := Sorted(r, Init(list));
      SameMembers(s, Init(list));
      InsertKeepsHigh(r, s, Last(list), high);
    }
  }

  /** A class that beats the rest has the winner, if anything of it is there. */
  lemma HighWins(r: Ranks, list: seq<Candidate>, high: Manifest -> bool, x: Candidate)
    requires HighBeatsLow(r, Antichain(list), high) && x in Antichain(list) && high(x.m)
    ensures high(Holder(r, list).m)
  {
    var a := Antichain(list);
    SortedKeepsHigh(r, a, high);
    var s := Sorted(r, a);
    SameMembers(s, a);
    var i :| 0 <= i < |s| && s[i] == x;
  }

  /** Where all copies carry clocks the holder of the path is the greatest of the undominated ones. */
  lemma GreatestConcurrentWins(r: Ranks, list: seq<Candidate>, x: Candidate)
    requires AllClocksOk(list) && (forall c :: c in list ==> HasClock(c.m))
    requires forall y, z :: y in list && z in list && y.source == z.source ==> y == z
    requires x in list && !Dominated(x, list)
    ensures AtLeast(ConcurrentRank(r, Holder(r, list).m), ConcurrentRank(r, x.m))
  {
    var high := (m: Manifest) => AtLeast(ConcurrentRank(r, m), ConcurrentRank(r, x.m));
    forall a, b | a in Antichain(list) && b in Antichain(list) && high(a.m) && !high(b.m)
      ensures Beats(r, a.m, b.m) && !Beats(r, b.m, a.m)
    {
      Concurrent(list, a, b);
      BeatsIsAsymmetric(r, a.m, b.m);
      RankDecides(r, a.m, b.m, x.m);
    }
    HighWins(r, list, high, x);
  }

  lemma Concurrent(list: seq<Candidate>, x: Candidate, y: Candidate)
    requires x in list && y in list && !Dominated(x, list) && !Dominated(y, list) && HasClock(x.m) && HasClock(y.m)
    requires x.source != y.source
    ensures !Dominates(ClockOf(x.m), ClockOf(y.m)) && !Dominates(ClockOf(y.m), ClockOf(x.m))
  {
  }

  lemma RankDecides(r: Ranks, a: Manifest, b: Manifest, x: Manifest)
    requires HasClock(a) && HasClock(b) && !Dominates(ClockOf(a), ClockOf(b)) && !Dominates(ClockOf(b), ClockOf(a))
    requires AtLeast(ConcurrentRank(r, a), ConcurrentRank(r, x)) && !AtLeast(ConcurrentRank(r, b), ConcurrentRank(r, x))
    ensures Beats(r, a, b)
  {
  }

  /** So an undominated delete takes the path from any number of concurrent edits. */
  lemma DeleteTakesTheSlot(r: Ranks, p: Path, list: seq<Candidate>, x: Candidate)
    requires AllClocksOk(list) && (forall c :: multiset(list)[c] <= 1) && (forall c :: c in list ==> HasClock(c.m))
    requires forall y, z :: y in list && z in list && y.source == z.source ==> y == z
    requires x in list && !Dominated(x, list) && x.m.deleted
    ensures Reconcile(r, p, list).live == None
  {
    assert x in Antichain(list);
    GreatestConcurrentWins(r, list, x);
    LiveIsHolder(r, p, list);
  }

  /** Where no copy carries a clock and all timestamps parse, the holder was written last. */
  lemma LastWrittenWins(r: Ranks, list: seq<Candidate>, x: Candidate)
    requires forall c :: c in list ==> !HasClock(c.m) && c.m.updatedAt.instant.Some?
    requires x in list
    ensures x in Antichain(list) && Holder(r, list) in list
    ensures AtLeast(WrittenRank(Holder(r, list).m), WrittenRank(x.m))
  {
    var rank := (m: Manifest) => if m.updatedAt.instant.Some? then WrittenRank(m) else Rank(0, 0, 0, 0);
    var high := (m: Manifest) => AtLeast(rank(m), rank(x.m));
    ClocklessStand(r, list, x);
    assert AtLeast(WrittenRank(x.m), WrittenRank(x.m));
    hide Dominated;
    hide Holder;
    hide WrittenRank;
    hide AtLeast;
    forall a, b | a in Antichain(list) && b in Antichain(list) && high(a.m) && !high(b.m)
      ensures Beats(r, a.m, b.m) && !Beats(r, b.m, a.m)
    {
      LaterBeats(r, a.m, b.m, x.m);
    }
    HighWins(r, list, high, x);
  }

  lemma ClocklessStand(r: Ranks, list: seq<Candidate>, x: Candidate)
    requires (forall c :: c in list ==> !HasClock(c.m)) && x in list
    ensures x in Antichain(list) && Holder(r, list) in list
  {
    assert !Dominated(x, list);
    SameMembers(Sorted(r, Antichain(list)), Antichain(list));
    assert Holder(r, list) in Sorted(r, Antichain(list));
  }

  lemma LaterBeats(r: Ranks, a: Manifest, b: Manifest, x: Manifest)
    requires !HasClock(a) && !HasClock(b) && a.updatedAt.instant.Some? && b.updatedAt.instant.Some? && x.updatedAt.instant.Some?
    requires AtLeast(WrittenRank(a), WrittenRank(x)) && !AtLeast(WrittenRank(b), WrittenRank(x))
    ensures Beats(r, a, b) && !Beats(r, b, a)
  {
  }

  /** And a clock that dominates decides before all that. */
  lemma DominatorBeats(r: Ranks, a: Manifest, b: Manifest)
    requires HasClock(a) && HasClock(b) && ClockOk(ClockOf(a)) && ClockOk(ClockOf(b))
    requires var f := (m: Manifest) => if m.file.clock != map[] then m.file.clock else m.clock; Dominates(f(a), f(b))
    ensures Beats(r, a, b) && !Beats(r, b, a)
  {
    DominanceIsStrictOrder(ClockOf(a), ClockOf(b), ClockOf(a));
  }
}
