/** When the elected winner of a path does not depend on the order its copies were loaded in. */
module Election {
  import opened Prelude
  import opened Manifests

  function Winner(r: Ranks, list: seq<Candidate>): Manifest
    requires list != []
  {
    Sorted(r, list)[0].m
  }

  /** m is among the records and strictly beats every other one. */
  ghost predicate Champion(r: Ranks, list: seq<Candidate>, m: Manifest) {
    && (exists c :: c in list && c.m == m)
    && forall c :: c in list ==> c.m == m || Beats(r, m, c.m)
  }

  /** Any two orders of the same copies elect the same record. */
  ghost predicate OrderFree(r: Ranks, list: seq<Candidate>)
    requires list != []
  {
    forall other :: multiset(other) == multiset(list) && other != [] ==> Winner(r, other) == Winner(r, list)
  }

  // ---- A champion always wins ----

  lemma {:induction false} ChampionLeads(r: Ranks, list: seq<Candidate>, m: Manifest)
    requires forall c :: c in list ==> c.m == m || (Beats(r, m, c.m) && !Beats(r, c.m, m))
    requires !Beats(r, m, m)
    ensures list != [] && (exists c :: c in list && c.m == m) ==> Sorted(r, list)[0].m == m
  {
    if list != [] {
      assert list == Init(list) + [Last(list)];
      ChampionLeads(r, Init(list), m);
      var front := Sorted(r, Init(list));
      assert forall c :: c in front ==> c in multiset(front);
      if Last(list).m == m {
        InsertChampion(r, front, Last(list), m);
      } else if exists c :: c in Init(list) && c.m == m {
        InsertBehind(r, front, Last(list));
      }
    }
  }

  lemma {:induction false} InsertChampion(r: Ranks, s: seq<Candidate>, x: Candidate, m: Manifest)
    requires x.m == m && !Beats(r, m, m)
    requires forall c :: c in s ==> c.m == m || Beats(r, m, c.m)
    requires (exists c :: c in s && c.m == m) ==> s[0].m == m
    ensures Insert(r, s, x)[0].m == m
  {
    if s != [] {
      assert s == Init(s) + [Last(s)];
      if Beats(r, m, Last(s).m) {
        InsertChampion(r, Init(s), x, m);
      }
    }
  }

  /** An element that does not beat the first of the list ends up behind it. */
  lemma {:induction false} InsertBehind(r: Ranks, s: seq<Candidate>, x: Candidate)
    requires s != [] && !Beats(r, x.m, s[0].m)
    ensures Insert(r, s, x)[0] == s[0]
  {
    if Beats(r, x.m, Last(s).m) && |s| > 1 {
      InsertBehind(r, Init(s), x);
    }
  }

  lemma ChampionWins(r: Ranks, list: seq<Candidate>, m: Manifest)
    requires AllClocksOk(list) && Champion(r, list, m)
    ensures list != [] && Winner(r, list) == m
  {
    var c0 :| c0 in list && c0.m == m;
    BeatsIsAsymmetric(r, m, m);
    forall c | c in list ensures c.m == m || (Beats(r, m, c.m) && !Beats(r, c.m, m)) {
      BeatsIsAsymmetric(r, m, c.m);
    }
    ChampionLeads(r, list, m);
  }

  ghost predicate AllClocksOk(list: seq<Candidate>) { forall c :: c in list ==> ClockOk(ClockOf(c.m)) }

  // ---- Without one, the order decides ----

  /** The first element of class m, if any, comes after some c that m does not beat. */
  ghost predicate HeldUp(s: seq<Candidate>, c: Candidate, m: Manifest) {
    exists i :: 0 <= i < |s| && s[i] == c && forall j :: 0 <= j < i ==> s[j].m != m
  }

  lemma {:induction false} InsertStaysHeldUp(r: Ranks, s: seq<Candidate>, x: Candidate, c: Candidate, m: Manifest)
    requires HeldUp(s, c, m) && !Beats(r, m, c.m)
    ensures HeldUp(Insert(r, s, x), c, m)
  {
    var i :| 0 <= i < |s| && s[i] == c && forall j :: 0 <= j < i ==> s[j].m != m;
    var t := Insert(r, s, x);
    if !Beats(r, x.m, Last(s).m) {
      assert t[i] == c && forall j :: 0 <= j < i ==> t[j] == s[j];
    } else if i < |s| - 1 {
      assert Init(s)[i] == c;
      InsertStaysHeldUp(r, Init(s), x, c, m);
      var k :| 0 <= k < |Insert(r, Init(s), x)| && Insert(r, Init(s), x)[k] == c
               && forall j :: 0 <= j < k ==> Insert(r, Init(s), x)[j].m != m;
      assert t[k] == c;
    } else {
      assert x.m != m;
      assert Last(t) == c;
      assert multiset(Init(t)) == multiset(Init(s)) + multiset{x};
      forall j | 0 <= j < |t| - 1 ensures t[j].m != m {
        assert Init(t)[j] in multiset(Init(t));
      }
    }
  }

  lemma {:induction false} SortedStaysHeldUp(r: Ranks, list: seq<Candidate>, c: Candidate, m: Manifest)
    requires list != [] && list[0] == c && c.m != m && !Beats(r, m, c.m)
    ensures HeldUp(Sorted(r, list), c, m)
  {
    assert list == Init(list) + [Last(list)];
    if |list| == 1 {
      assert Sorted(r, Init(list)) == [];
      assert Sorted(r, list)[0] == c;
    } else {
      SortedStaysHeldUp(r, Init(list), c, m);
      InsertStaysHeldUp(r, Sorted(r, Init(list)), Last(list), c, m);
    }
  }

  lemma FrontedWins(r: Ranks, list: seq<Candidate>, c: Candidate, m: Manifest)
    requires list != [] && list[0] == c && c.m != m && !Beats(r, m, c.m)
    ensures Winner(r, list) != m
  {
    SortedStaysHeldUp(r, list, c, m);
  }

  function MoveToFront(list: seq<Candidate>, i: nat): (t: seq<Candidate>)
    requires i < |list|
    ensures multiset(t) == multiset(list) && t != [] && t[0] == list[i]
  {
    assert list == list[..i] + [list[i]] + list[i + 1..];
    [list[i]] + list[..i] + list[i + 1..]
  }

  /** The winner is independent of the load order exactly when the copies have a champion. */
  lemma OrderFreeExactly(r: Ranks, list: seq<Candidate>)
    requires list != [] && AllClocksOk(list)
    ensures OrderFree(r, list) <==> exists m :: Champion(r, list, m)
  {
    if exists m :: Champion(r, list, m) {
      var m :| Champion(r, list, m);
      ChampionWins(r, list, m);
      forall other | multiset(other) == multiset(list) && other != [] ensures Winner(r, other) == Winner(r, list) {
        SameMembers(list, other);
        ChampionWins(r, other, m);
      }
    }
    if OrderFree(r, list) {
      var m := Winner(r, list);
      WinnerIsMember(r, list);
      if !Champion(r, list, m) {
        var c :| c in list && c.m != m && !Beats(r, m, c.m);
        var i :| 0 <= i < |list| && list[i] == c;
        var other := MoveToFront(list, i);
        FrontedWins(r, other, c, m);
      }
    }
  }

  lemma SameMembers(a: seq<Candidate>, b: seq<Candidate>)
    requires multiset(a) == multiset(b)
    ensures forall c :: c in a <==> c in b
  {
    forall c ensures c in a <==> c in b {
      assert c in a <==> c in multiset(a);
      assert c in b <==> c in multiset(b);
    }
  }

  lemma WinnerIsMember(r: Ranks, list: seq<Candidate>)
    requires list != []
    ensures exists c :: c in list && c.m == Winner(r, list)
  {
    var c := Sorted(r, list)[0];
    assert c in multiset(Sorted(r, list));
    assert c in multiset(list);
    assert c in list && c.m == Winner(r, list);
  }

  // ---- Two families that always have one ----

  /** Copies that rank equal are equal. */
  ghost predicate NoTies(r: Ranks, list: seq<Candidate>) {
    forall a, b :: a in list && b in list && Compare(r, a.m, b.m) == 0 ==> a.m == b.m
  }

  /** All copies carry a clock and none dominates another; or none does, and every timestamp parses. */
  ghost predicate Homogeneous(list: seq<Candidate>) {
    || (forall a, b :: a in list && b in list ==> Clocked(a.m) && !Dominates(ClockOf(a.m), ClockOf(b.m)))
    || (forall a :: a in list ==> !Clocked(a.m) && a.m.updatedAt.instant.Some?)
  }

  lemma BeatsIsTransitive(r: Ranks, list: seq<Candidate>, a: Candidate, b: Candidate, c: Candidate)
    requires Homogeneous(list) && a in list && b in list && c in list
    requires Beats(r, a.m, b.m) && Beats(r, b.m, c.m)
    ensures Beats(r, a.m, c.m)
  {
    if Clocked(a.m) {
      assert Clocked(b.m) && Clocked(c.m);
      assert !Dominates(ClockOf(a.m), ClockOf(b.m)) && !Dominates(ClockOf(b.m), ClockOf(a.m));
      assert !Dominates(ClockOf(b.m), ClockOf(c.m)) && !Dominates(ClockOf(c.m), ClockOf(b.m));
      assert !Dominates(ClockOf(a.m), ClockOf(c.m)) && !Dominates(ClockOf(c.m), ClockOf(a.m));
    }
  }

  lemma {:induction false} HomogeneousHasChampion(r: Ranks, all: seq<Candidate>, list: seq<Candidate>)
    returns (m: Manifest)
    requires list != [] && AllClocksOk(all) && Homogeneous(all) && NoTies(r, all)
    requires forall c :: c in list ==> c in all
    ensures Champion(r, list, m)
    decreases |list|
  {
    assert list == Init(list) + [Last(list)];
    if |list| == 1 {
      m := Last(list).m;
      assert Last(list) in list;
    } else {
      m := HomogeneousHasChampion(r, all, Init(list));
      m := Challenge(r, all, Init(list), m, Last(list));
    }
  }

  /** A newcomer either takes the title or leaves it where it is. */
  lemma Challenge(r: Ranks, all: seq<Candidate>, list: seq<Candidate>, m0: Manifest, x: Candidate) returns (m: Manifest)
    requires AllClocksOk(all) && Homogeneous(all) && NoTies(r, all)
    requires Champion(r, list, m0) && x in all && forall c :: c in list ==> c in all
    ensures Champion(r, list + [x], m)
  {
    hide Homogeneous;
    hide Compare;
    hide ClockOk;
    var c0 :| c0 in list && c0.m == m0;
    BeatsIsAsymmetric(r, x.m, m0);
    assert x in list + [x] && c0 in list + [x];
    if Beats(r, x.m, m0) {
      m := x.m;
      forall c | c in list + [x] ensures c.m == m || Beats(r, m, c.m) {
        if c in list && c.m != m0 {
          BeatsIsTransitive(r, all, x, c0, c);
        }
      }
    } else {
      m := m0;
      assert x.m == m0 || Compare(r, x.m, m0) != 0;
    }
  }

  /** Within such a family the load order cannot matter. */
  lemma HomogeneousIsOrderFree(r: Ranks, list: seq<Candidate>)
    requires list != [] && AllClocksOk(list) && Homogeneous(list) && NoTies(r, list)
    ensures OrderFree(r, list)
  {
    var m := HomogeneousHasChampion(r, list, list);
    OrderFreeExactly(r, list);
  }

  // ---- A mixed family that has none ----

  function MixedRecord(generation: int, clock: Clock): Manifest {
    Manifest(Stamp(generation, Some(generation)), false, 0, clock,
             FileRecord(1, 0, Stamp(generation, Some(generation)), generation, [], clock))
  }

  const LOW := Candidate(MixedRecord(1, map["A" := 1]), Canonical(Named("p")))
  const HIGH := Candidate(MixedRecord(3, map["B" := 1]), Copy(Named("p"), "b"))
  const BARE := Candidate(MixedRecord(2, map[]), Copy(Named("p"), "c"))

  lemma BeatInACircle(r: Ranks)
    requires r.content(Content([], 1, 1), false) > r.content(Content([], 3, 3), false)
    ensures Beats(r, LOW.m, HIGH.m) && !Beats(r, HIGH.m, LOW.m)
    ensures Beats(r, HIGH.m, BARE.m) && !Beats(r, BARE.m, HIGH.m)
    ensures Beats(r, BARE.m, LOW.m) && !Beats(r, LOW.m, BARE.m)
    ensures !Dominates(ClockOf(LOW.m), ClockOf(HIGH.m)) && !Dominates(ClockOf(HIGH.m), ClockOf(LOW.m))
  {
    var a, b := map["A" := 1], map["B" := 1];
    assert !Dominates(a, b) by { assert At(a, "B") == 0 && "B" in b; }
    assert !Dominates(b, a) by { assert At(b, "A") == 0 && "A" in a; }
    assert "A" in a && "B" in b;
    assert ClockOf(LOW.m) == a && ClockOf(HIGH.m) == b;
    assert Clocked(LOW.m) && Clocked(HIGH.m) && !Clocked(BARE.m);
    assert ContentKey(r, LOW.m) > ContentKey(r, HIGH.m);
  }

  /** Two concurrent clocked copies and one without a clock can beat each other in a circle,
      so that two devices that walk the same files in different orders elect different winners. */
  lemma MixedFamilyDependsOnOrder(r: Ranks)
    requires r.content(Content([], 1, 1), false) > r.content(Content([], 3, 3), false)
    ensures var one, two := [LOW, HIGH, BARE], [HIGH, BARE, LOW];
            && Antichain(one) == one && Antichain(two) == two
            && Winner(r, one) == LOW.m && Winner(r, two) == HIGH.m
            && Reconcile(r, Named("p"), one).live != Reconcile(r, Named("p"), two).live
  {
    BeatInACircle(r);
    hide Beats;
    assert !Clocked(BARE.m);
    assert !Dominates(ClockOf(BARE.m), ClockOf(LOW.m)) && !Dominates(ClockOf(BARE.m), ClockOf(HIGH.m));
    hide Dominates;
    UndominatedOfThree(LOW, HIGH, BARE);
    UndominatedOfThree(HIGH, BARE, LOW);
    SortOfThree(r, LOW, HIGH, BARE);
    SortOfThree(r, HIGH, BARE, LOW);
    assert LOW.m.file != HIGH.m.file;
  }

  lemma UndominatedOfThree(a: Candidate, b: Candidate, c: Candidate)
    requires !Dominated(a, [a, b, c]) && !Dominated(b, [a, b, c]) && !Dominated(c, [a, b, c])
    ensures Antichain([a, b, c]) == [a, b, c]
  {
    var l := [a, b, c];
    assert Init([a]) == [] && Init([a, b]) == [a] && Init(l) == [a, b];
    assert Undominated([a], l) == [a] && Undominated([a, b], l) == [a, b];
  }

  lemma SortedSnoc(r: Ranks, list: seq<Candidate>, x: Candidate)
    ensures Sorted(r, list + [x]) == Insert(r, Sorted(r, list), x)
  {
    assert Init(list + [x]) == list;
  }

  lemma InsertLast(r: Ranks, s: seq<Candidate>, x: Candidate)
    requires s == [] || !Beats(r, x.m, Last(s).m)
    ensures Insert(r, s, x) == s + [x]
  {
  }

  /** Neither later element beats the one before it, so nothing moves. */
  lemma SortOfThree(r: Ranks, a: Candidate, b: Candidate, c: Candidate)
    requires !Beats(r, b.m, a.m) && !Beats(r, c.m, b.m)
    ensures Sorted(r, [a, b, c]) == [a, b, c]
  {
    hide Beats;
    hide Insert;
    SortedSnoc(r, [], a);
    SortedSnoc(r, [a], b);
    SortedSnoc(r, [a, b], c);
    InsertLast(r, [], a);
    InsertLast(r, [a], b);
    InsertLast(r, [a, b], c);
    assert [] + [a] == [a] && [a] + [b] == [a, b] && [a, b] + [c] == [a, b, c];
  }
}
