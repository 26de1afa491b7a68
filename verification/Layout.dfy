/** Opening a vault: the protected workspace marker, the move of older records under content/,
    and the wiped-index signs that opening must not hide from garbage collection. */
module Layout {
  import opened Prelude
  import opened Manifests
  import opened Loading
  import opened Cache
  import opened Compaction
  import Clocks
  import Coherence
  import opened FileOps
  import opened Election
  import Losers

  /** A manifest file that no path of the index comes from: its record names another path than
      its file name does, or none, or it cannot be decrypted. */
  datatype Stray = Misplaced(deleted: bool) | Pathless | Unreadable

  /** The rest of a store: its kind, stray manifest files, whether chunks exist, and an index in
      the older single-file form. */
  datatype Rest = Rest(manifestStore: bool, strays: set<Stray>, hasChunks: bool, legacy: Option<Index>)

  predicate HasManifests(s: Rest, d: Disk) { d != map[] || s.strays != {} }

  predicate HasLiveManifest(s: Rest, d: Disk) { Misplaced(false) in s.strays || exists src :: src in d && !d[src].deleted }

  predicate HasCandidates(s: Rest, d: Disk) { d != map[] || Misplaced(true) in s.strays || Misplaced(false) in s.strays }

  /** The index a load gives, if it gives one. */
  function Loaded(r: Ranks, s: Rest, d: Disk, walk: seq<Source>): Option<Index> {
    if !s.manifestStore && HasManifests(s, d) then None
    else if s.manifestStore && Unreadable in s.strays then None
    else if s.manifestStore && HasCandidates(s, d) then Some(LoadIndex(r, d, walk))
    else if s.legacy.Some? then s.legacy
    else Some(map[])
  }

  datatype Verdict = LoadFails | Refused | Passes

  /** The refusal gate of garbage collection. */
  function Gate(r: Ranks, s: Rest, d: Disk, walk: seq<Source>): Verdict {
    var idx := Loaded(r, s, d, walk);
    if idx == None then LoadFails
    else if !s.manifestStore || idx.value != map[] then Passes
    else if HasLiveManifest(s, d) then Refused
    else if !HasManifests(s, d) && s.hasChunks then Refused
    else Passes
  }

  /** Whether making the marker would hide a wiped or replaced index. */
  predicate WouldMask(s: Rest, d: Disk, idx: Index) { idx == map[] && s.manifestStore && (HasManifests(s, d) || s.hasChunks) }

  // ---- The workspace ----

  predicate EndsWith(s: string, t: string) { |t| <= |s| && s[|s| - |t|..] == t }

  const MARKER := Named("content/.seavault-dir")

  /** Lower case, as far as a name can come to read like that of a marker: a dotted capital i does so. */
  function LowerChar(c: char): char { if 'A' <= c <= 'Z' then (c as int + 32) as char else if c == '\U{130}' then 'i' else c }

  /** Case folded for comparison, as far again: a long s counts as an s. */
  function FoldChar(c: char): char { if 'A' <= c <= 'Z' then (c as int + 32) as char else if c == '\U{17f}' then 's' else c }

  function Lower(s: string): string { if s == "" then "" else Lower(Init(s)) + [LowerChar(Last(s))] }

  function FoldCase(s: string): string { if s == "" then "" else FoldCase(Init(s)) + [FoldChar(Last(s))] }

  /** Directory markers: that name alone, or as the last segment, in any case. */
  predicate Internal(p: Path) { p.Named? && (FoldCase(p.name) == ".seavault-dir" || EndsWith(Lower(p.name), "/.seavault-dir")) }

  predicate InContent(p: Path) { if p.Named? then "content/" <= p.name else InContent(p.original) }

  /** A record of the older layout. */
  predicate Movable(p: Path) { !Internal(p) && !InContent(p) }

  function Moved(p: Path): Path { if p.Named? then Named("content/" + p.name) else ConflictCopy(Moved(p.original), p.content) }

  lemma {:induction false} MovedIsInContent(p: Path)
    ensures InContent(Moved(p))
  {
    if p.ConflictCopy? {
      MovedIsInContent(p.original);
    }
  }

  lemma {:induction false} CaseAt(s: string)
    ensures |Lower(s)| == |FoldCase(s)| == |s|
    ensures forall i :: 0 <= i < |s| ==> Lower(s)[i] == LowerChar(s[i]) && FoldCase(s)[i] == FoldChar(s[i])
  {
    if s != "" {
      CaseAt(Init(s));
    }
  }

  /** c is the letter d in either case; or, in a name of one segment, a long s for s, and in the last
      of several, a dotted capital i for i. */
  predicate Spells(c: char, d: char, whole: bool) {
    c == d || ('a' <= d <= 'z' && c as int + 32 == d as int) || (whole && d == 's' && c == '\U{17f}') || (!whole && d == 'i' && c == '\U{130}')
  }

  /** A record is older exactly when its name is not below content/ and its last segment does not spell
      the marker's name; and it keeps its name below content/. */
  lemma MovableExactly(name: string)
    requires name == "" || name[0] != '/'
    ensures Movable(Named(name)) <==>
            && !(|name| >= 8 && name[..8] == "content/")
            && !(|name| >= 13 && (|name| == 13 || name[|name| - 14] == '/')
                 && forall i :: 0 <= i < 13 ==> Spells(name[|name| - 13 + i], ".seavault-dir"[i], |name| == 13))
    ensures Moved(Named(name)) == Named("content/" + name) && !Movable(Moved(Named(name)))
  {
    MovedIsInContent(Named(name));
    MarkerSpelled(name);
  }

  lemma MarkerSpelled(name: string)
    requires name == "" || name[0] != '/'
    ensures Internal(Named(name)) <==>
            |name| >= 13 && (|name| == 13 || name[|name| - 14] == '/')
            && forall i :: 0 <= i < 13 ==> Spells(name[|name| - 13 + i], ".seavault-dir"[i], |name| == 13)
  {
    hide Spells;
    if |name| == 13 {
      WholeSpelled(name);
    } else {
      CaseAt(name);
      assert |FoldCase(name)| != |".seavault-dir"|;
      if |name| > 13 {
        TailSpelled(name);
      }
    }
  }

  lemma WholeSpelled(name: string)
    requires |name| == 13
    ensures Internal(Named(name)) <==> forall i :: 0 <= i < 13 ==> Spells(name[i], ".seavault-dir"[i], true)
  {
    CaseAt(name);
    var marker := ".seavault-dir";
    forall i | 0 <= i < 13 ensures FoldChar(name[i]) == marker[i] <==> Spells(name[i], marker[i], true) {
      MarkerLetter(name[i], marker[i]);
    }
    hide *;
    SameLetters(FoldCase(name), marker);
    InternalIs(name);
  }

  lemma InternalIs(name: string)
    ensures Internal(Named(name)) <==>
            FoldCase(name) == ".seavault-dir" || (|Lower(name)| >= 14 && Lower(name)[|Lower(name)| - 14..] == "/.seavault-dir")
  {
  }

  lemma SameLetters(s: string, t: string)
    ensures s == t <==> |s| == |t| && forall i :: 0 <= i < |s| ==> s[i] == t[i]
  {
  }

  lemma TailSpelled(name: string)
    requires |name| > 13
    ensures Internal(Named(name)) <==>
            name[|name| - 14] == '/' && forall i :: 0 <= i < 13 ==> Spells(name[|name| - 13 + i], ".seavault-dir"[i], false)
  {
    CaseAt(name);
    var marker, end := ".seavault-dir", Lower(name)[|name| - 14..];
    SameLetters(end, "/" + marker);
    forall i | 0 <= i < 13 ensures end[i + 1] == marker[i] <==> Spells(name[|name| - 13 + i], marker[i], false) {
      MarkerLetter(name[|name| - 13 + i], marker[i]);
    }
    assert "/" + marker == "/.seavault-dir" && |FoldCase(name)| != |marker|;
    InternalIs(name);
    hide *;
    forall i | 0 <= i < 14 ensures ("/" + marker)[i] == if i == 0 then '/' else marker[i - 1] {
    }
    SlashFirst(name, end);
    if end[0] == '/' && forall i :: 0 <= i < 13 ==> end[i + 1] == marker[i] {
      forall i | 0 <= i < 14 ensures end[i] == ("/" + marker)[i] {
        assert i > 0 ==> end[i - 1 + 1] == marker[i - 1];
      }
    }
  }

  lemma SlashFirst(name: string, end: string)
    requires |name| > 13 && |Lower(name)| == |name| && end == Lower(name)[|name| - 14..]
    requires Lower(name)[|name| - 14] == LowerChar(name[|name| - 14])
    ensures end[0] == '/' <==> name[|name| - 14] == '/'
  {
    assert end[0] == Lower(name)[|name| - 14];
  }

  lemma MarkerLetter(c: char, d: char)
    requires d in ".seavault-dir"
    ensures FoldChar(c) == d <==> Spells(c, d, true)
    ensures LowerChar(c) == d <==> Spells(c, d, false)
  {
  }

  /** Records keep apart on the way: different ones go to different names. */
  lemma {:induction false} MovedApart(p: Path, q: Path)
    requires Moved(p) == Moved(q)
    ensures p == q
  {
    if p.ConflictCopy? {
      MovedApart(p.original, q.original);
    } else {
      assert p.name == ("content/" + p.name)[8..] && q.name == ("content/" + q.name)[8..];
    }
  }

  /** Where one record goes, by what is in the index by then. */
  function Place(idx: Index, p: Path, e: Entry): Path {
    if Moved(p) in idx then ConflictPath(Moved(p), e.file) else Moved(p)
  }

  /** The index and the places taken when the records in `done` have moved, no one over another. */
  ghost predicate MovedSoFar(idx0: Index, done: set<Path>, idx: Index, places: map<Path, Path>) {
    && places.Keys == done <= idx0.Keys
    && (forall q :: q in done ==> PlacedAs(q, idx0[q], places[q]))
    && (forall q :: q in done ==> places[q] in idx && idx[places[q]] == idx0[q])
    && (forall p, q :: p in done && q in done && places[p] == places[q] ==> p == q)
    && (forall p :: p in idx0 && p !in done ==> p in idx && idx[p] == idx0[p] && forall q :: q in done ==> places[q] != p)
    && (forall p :: p in idx ==> (p in idx0 && p !in done) || exists q :: q in done && places[q] == p)
  }

  predicate PlacedAs(p: Path, e: Entry, to: Path) {
    Movable(p) && !Movable(to) && (to == Moved(p) || to == ConflictPath(Moved(p), e.file))
  }

  lemma PlaceIsPlaced(idx: Index, p: Path, e: Entry)
    requires Movable(p)
    ensures PlacedAs(p, e, Place(idx, p, e))
  {
    MovedIsInContent(p);
    assert InContent(Place(idx, p, e));
  }

  lemma MoveStep(idx0: Index, done: set<Path>, idx: Index, places: map<Path, Path>, p: Path, to: Path)
    requires MovedSoFar(idx0, done, idx, places) && p in idx0 && p !in done && PlacedAs(p, idx0[p], to) && to !in idx
    ensures MovedSoFar(idx0, done + {p}, idx[to := idx0[p]] - {p}, places[p := to])
  {
    assert Movable(p) && !Movable(to);
    MoveKeepsOthers(idx0, done, idx, places, p, to);
    MoveCovers(idx0, done, idx, places, p, to);
    hide PlacedAs;
  }

  lemma MoveKeepsOthers(idx0: Index, done: set<Path>, idx: Index, places: map<Path, Path>, p: Path, to: Path)
    requires MovedSoFar(idx0, done, idx, places) && p in idx0 && p !in done && PlacedAs(p, idx0[p], to) && to !in idx
    ensures var idx', places' := idx[to := idx0[p]] - {p}, places[p := to];
            && places'.Keys == done + {p} <= idx0.Keys
            && (forall q :: q in done + {p} ==> places'[q] in idx' && idx'[places'[q]] == idx0[q])
            && (forall r, q :: r in done + {p} && q in done + {p} && places'[r] == places'[q] ==> r == q)
            && (forall r :: r in idx0 && r !in done + {p} ==>
                  r in idx' && idx'[r] == idx0[r] && forall q :: q in done + {p} ==> places'[q] != r)
  {
    var places' := places[p := to];
    NotMovable(p, idx0[p], to);
    hide PlacedAs;
    forall q | q in done ensures places'[q] == places[q] && places[q] != p && places[q] != to {
    }
    MoveKeepsRest(idx0, done, idx, places, p, to);
  }

  lemma MoveKeepsRest(idx0: Index, done: set<Path>, idx: Index, places: map<Path, Path>, p: Path, to: Path)
    requires MovedSoFar(idx0, done, idx, places) && p in idx0 && p !in done && to !in idx
    ensures forall r :: r in idx0 && r !in done + {p} ==>
                          && r in idx[to := idx0[p]] - {p} && (idx[to := idx0[p]] - {p})[r] == idx0[r]
                          && forall q :: q in done + {p} ==> places[p := to][q] != r
  {
    hide PlacedAs;
    forall r | r in idx0 && r !in done + {p} ensures r in idx && idx[r] == idx0[r] && r != to && forall q :: q in done ==> places[q] != r {
    }
  }

  lemma MoveCovers(idx0: Index, done: set<Path>, idx: Index, places: map<Path, Path>, p: Path, to: Path)
    requires MovedSoFar(idx0, done, idx, places) && p !in done
    ensures var idx', places' := idx[to := idx0[p]] - {p}, places[p := to];
            forall r :: r in idx' ==> (r in idx0 && r !in done + {p}) || exists q :: q in done + {p} && places'[q] == r
    requires p in idx0
  {
    hide PlacedAs;
    var idx', places' := idx[to := idx0[p]] - {p}, places[p := to];
    forall r | r in idx' ensures (r in idx0 && r !in done + {p}) || exists q :: q in done + {p} && places'[q] == r {
      if r == to {
        assert places'[p] == r;
      } else if !(r in idx0 && r !in done) {
        var q :| q in done && places[q] == r;
        assert places'[q] == r;
      }
    }
  }

  /** The plain new name if no record had it; the name of a conflict copy only if some record has. */
  ghost predicate PutAt(idx0: Index, idx: Index, p: Path, to: Path) {
    && p in idx0
    && (to == Moved(p) ==> Moved(p) !in idx0)
    && (to != Moved(p) ==> to == ConflictPath(Moved(p), idx0[p].file) && Moved(p) in idx)
  }

  ghost predicate ClocksOk(idx: Index) { forall p :: p in idx ==> ClockOk(idx[p].file.clock) }

  function Elements(s: seq<Path>): set<Path> { set p | p in s }

  /** What the records not yet moved and those already moved look like, whatever went over what. */
  ghost predicate Listed(idx0: Index, paths: seq<Path>, i: nat, idx: Index)
    requires i <= |paths|
  {
    && (forall j :: i <= j < |paths| ==> paths[j] in idx && paths[j] in idx0 && idx[paths[j]] == idx0[paths[j]])
    && (forall j :: 0 <= j < i ==> paths[j] !in idx)
    && (ClocksOk(idx0) ==> ClocksOk(idx))
  }

  ghost predicate Put(idx0: Index, paths: seq<Path>, i: nat, idx: Index, places: map<Path, Path>)
    requires i <= |paths|
  {
    && places.Keys == Elements(paths[..i])
    && (forall q :: q in idx0 && !Movable(q) ==> q in idx)
    && (forall p :: p in places ==> PutAt(idx0, idx, p, places[p]))
  }

  ghost predicate Distinct(paths: seq<Path>) { forall i, j :: 0 <= i < j < |paths| ==> paths[i] != paths[j] }

  lemma MoveListed(idx0: Index, paths: seq<Path>, i: nat, idx: Index, to: Path)
    requires Distinct(paths) && i < |paths| && Listed(idx0, paths, i, idx) && forall p :: p in paths ==> Movable(p)
    requires !Movable(to)
    ensures Listed(idx0, paths, i + 1, idx[to := idx[paths[i]]] - {paths[i]})
  {
    var next := idx[to := idx[paths[i]]] - {paths[i]};
    forall j | 0 <= j < |paths| ensures paths[j] != to && (j != i ==> (paths[j] in next <==> paths[j] in idx)) {
      assert paths[j] in paths;
    }
  }

  lemma {:induction false} CopyIsAnother(p: Path, content: Content)
    ensures ConflictCopy(p, content) != p
  {
    if p.ConflictCopy? {
      CopyIsAnother(p.original, p.content);
    }
  }

  lemma MovePut(idx0: Index, paths: seq<Path>, i: nat, idx: Index, places: map<Path, Path>, to: Path)
    requires i < |paths| && Put(idx0, paths, i, idx, places) && paths[i] in idx && paths[i] in idx0
    requires Movable(paths[i]) && idx[paths[i]] == idx0[paths[i]] && to == Place(idx, paths[i], idx[paths[i]])
    ensures Put(idx0, paths, i + 1, idx[to := idx[paths[i]]] - {paths[i]}, places[paths[i] := to])
  {
    var p := paths[i];
    var next, more := idx[to := idx[p]] - {p}, places[p := to];
    TakeOneMore(paths, i);
    MovedIsInContent(p);
    assert Elements(paths[..i + 1]) == Elements(paths[..i]) + {p};
    CopyIsAnother(Moved(p), ContentOf(idx[p].file));
    assert !Movable(Moved(p)) && PutAt(idx0, next, p, to);
    forall q | q in more ensures PutAt(idx0, next, q, more[q]) {
      MovedIsInContent(q);
    }
  }

  /** A move over another record leaves one record fewer. */
  lemma MoveCount(idx: Index, p: Path, e: Entry, to: Path)
    requires p in idx && to != p
    ensures |idx[to := e] - {p}| == |idx| - if to in idx then 1 else 0
  {
    var next := idx[to := e] - {p};
    assert next.Keys == idx.Keys + {to} - {p};
  }

  /** Moves the older records one by one, and reports a record it had to put over another. */
  method MoveRecords(idx0: Index, paths: seq<Path>) returns (idx: Index, places: map<Path, Path>, clash: bool)
    requires forall p :: p in paths ==> p in idx0 && Movable(p)
    requires forall i, j :: 0 <= i < j < |paths| ==> paths[i] != paths[j]
    ensures !clash ==> MovedSoFar(idx0, Elements(paths), idx, places)
    ensures forall p :: p in paths ==> p !in idx
    ensures ClocksOk(idx0) ==> ClocksOk(idx)
    ensures paths == [] ==> idx == idx0 && !clash
    ensures AllPut(idx0, Elements(paths), idx, clash, places)
  {
    idx, places, clash := idx0, map[], false;
    MoveStart(idx0, paths);
    hide *;
    for i := 0 to |paths|
      invariant !clash ==> MovedSoFar(idx0, Elements(paths[..i]), idx, places)
      invariant Listed(idx0, paths, i, idx) && Put(idx0, paths, i, idx, places)
      invariant |idx| <= |idx0| && (clash <==> |idx| < |idx0|)
      invariant i == 0 ==> idx == idx0
    {
      var p := paths[i];
      NextListed(idx0, paths, i, idx);
      var rec := idx[p];
      var newPath := Moved(p);
      if newPath in idx {
        newPath := ConflictPath(newPath, rec.file);
      }
      MoveOne(idx0, paths, i, idx, places, newPath);
      clash := clash || newPath in idx;
      idx := idx[newPath := rec] - {p};
      places := places[p := newPath];
    }
    assert paths[..|paths|] == paths;
    MoveEnd(idx0, paths, idx, places);
    assert AllPut(idx0, Elements(paths), idx, clash, places) by { ArePut(idx0, Elements(paths), idx, clash, places); }
  }

  lemma ArePut(idx1: Index, olds: set<Path>, final: Index, clash: bool, places: map<Path, Path>)
    requires |final| <= |idx1| && (clash <==> |final| < |idx1|)
    requires places.Keys == olds && forall p :: p in olds ==> PutAt(idx1, final, p, places[p])
    ensures AllPut(idx1, olds, final, clash, places)
  {
  }

  lemma MoveStart(idx0: Index, paths: seq<Path>)
    requires forall p :: p in paths ==> p in idx0 && Movable(p)
    ensures MovedSoFar(idx0, Elements(paths[..0]), idx0, map[]) && Listed(idx0, paths, 0, idx0) && Put(idx0, paths, 0, idx0, map[])
  {
    assert Elements(paths[..0]) == {};
    forall j | 0 <= j < |paths| ensures paths[j] in idx0 {
      assert paths[j] in paths;
    }
  }

  lemma NextListed(idx0: Index, paths: seq<Path>, i: nat, idx: Index)
    requires i < |paths| && Listed(idx0, paths, i, idx)
    ensures paths[i] in idx && paths[i] in idx0 && idx[paths[i]] == idx0[paths[i]]
  {
  }

  lemma MoveOne(idx0: Index, paths: seq<Path>, i: nat, idx: Index, places: map<Path, Path>, to: Path)
    requires i < |paths| && Listed(idx0, paths, i, idx) && Put(idx0, paths, i, idx, places)
    requires forall p :: p in paths ==> p in idx0 && Movable(p)
    requires forall i, j :: 0 <= i < j < |paths| ==> paths[i] != paths[j]
    requires paths[i] in idx && to == Place(idx, paths[i], idx[paths[i]])
    ensures var next, more := idx[to := idx[paths[i]]] - {paths[i]}, places[paths[i] := to];
            && Listed(idx0, paths, i + 1, next) && Put(idx0, paths, i + 1, next, more)
            && |next| == |idx| - (if to in idx then 1 else 0)
            && (to !in idx && MovedSoFar(idx0, Elements(paths[..i]), idx, places) ==>
                  MovedSoFar(idx0, Elements(paths[..i + 1]), next, more))
  {
    hide *;
    var p := paths[i];
    assert p in paths;
    NextListed(idx0, paths, i, idx);
    PlaceIsPlaced(idx, p, idx[p]);
    NotMovable(p, idx[p], to);
    AreDistinct(paths);
    MoveListed(idx0, paths, i, idx, to);
    MovePut(idx0, paths, i, idx, places, to);
    MoveCount(idx, p, idx[p], to);
    if to !in idx && MovedSoFar(idx0, Elements(paths[..i]), idx, places) {
      NotYet(paths, i);
      MoveStep(idx0, Elements(paths[..i]), idx, places, p, to);
    }
  }

  lemma AreDistinct(paths: seq<Path>)
    requires forall i, j :: 0 <= i < j < |paths| ==> paths[i] != paths[j]
    ensures Distinct(paths)
  {
  }

  lemma NotMovable(p: Path, e: Entry, to: Path)
    requires PlacedAs(p, e, to)
    ensures !Movable(to) && Movable(p) && to != p
  {
  }

  lemma NotYet(paths: seq<Path>, i: nat)
    requires i < |paths| && Distinct(paths)
    ensures paths[i] !in Elements(paths[..i]) && Elements(paths[..i + 1]) == Elements(paths[..i]) + {paths[i]}
  {
    TakeOneMore(paths, i);
  }

  lemma MoveEnd(idx0: Index, paths: seq<Path>, idx: Index, places: map<Path, Path>)
    requires Listed(idx0, paths, |paths|, idx) && Put(idx0, paths, |paths|, idx, places)
    requires paths[..|paths|] == paths
    requires forall p :: p in paths ==> p in idx0
    ensures forall p :: p in paths ==> p !in idx
    ensures ClocksOk(idx0) ==> ClocksOk(idx)
    ensures places.Keys == Elements(paths) && forall p :: p in Elements(paths) ==> PutAt(idx0, idx, p, places[p])
  {
    hide PutAt;
  }

  // ---- Opening ----

  /** The disk once every record of `final` has been committed but those in `todo`, and the paths
      in `gone` have been given tombstones. */
  ghost predicate Committed(d0: Disk, final: Index, todo: set<Path>, gone: set<Path>, d: Disk) {
    && (forall p :: p in final && p !in todo && p !in gone ==> Canonical(p) in d && d[Canonical(p)] == Saved(final[p].file))
    && (forall p :: p in gone ==> Canonical(p) in d && d[Canonical(p)].deleted)
    && (forall src :: src in d && !(src in d0 && d[src] == d0[src]) ==>
          src.Canonical? && ((src.path in final && src.path !in todo) || src.path in gone))
    && (forall src :: src in d0 ==> src in d)
  }

  lemma CommitStep(d0: Disk, final: Index, todo: set<Path>, d: Disk, p: Path)
    requires Committed(d0, final, todo, {}, d) && p in todo && p in final
    ensures Committed(d0, final, todo - {p}, {}, Written(d, p, Saved(final[p].file)))
  {
  }

  lemma TombstoneStep(d0: Disk, final: Index, gone: set<Path>, d: Disk, p: Path, m: Manifest)
    requires Committed(d0, final, {}, gone, d) && m.deleted && p !in final
    ensures Committed(d0, final, {}, gone + {p}, Written(d, p, m))
  {
  }

  /** Lists the older records. */
  method OlderRecords(idx: Index) returns (paths: seq<Path>)
    ensures forall p :: p in paths <==> p in idx && Movable(p)
    ensures forall i, j :: 0 <= i < j < |paths| ==> paths[i] != paths[j]
  {
    paths := [];
    var todo := idx.Keys;
    while todo != {}
      invariant todo <= idx.Keys
      invariant forall p :: p in paths <==> p in idx && p !in todo && Movable(p)
      invariant forall i, j :: 0 <= i < j < |paths| ==> paths[i] != paths[j]
    {
      var p :| p in todo;
      todo := todo - {p};
      if Movable(p) {
        paths := paths + [p];
      }
    }
  }

  /** Commits every record of the final index. */
  method CommitAll(v: Vault, ghost d0: Disk, final: Index, faults: nat -> bool) returns (ok: bool, op: nat)
    requires DiskOk(v.disk) && v.disk == d0 && ClocksOk(final)
    modifies v
    ensures DiskOk(v.disk)
    ensures ok ==> Committed(d0, final, {}, {}, v.disk)
    ensures exists todo :: Committed(d0, final, todo, {}, v.disk)
    ensures (ok <==> AllGo(|final.Keys|, faults)) && (ok ==> op == |final.Keys|)
  {
    hide Coherence.Elects;
    hide Coherence.OneRecord;
    hide Coherence.ShadowsAgree;
    hide Coherence.AgreesAt;
    hide Fresh;
    hide Observed;
    hide OwnFileOnly;
    var todo := final.Keys;
    op := 0;
    while todo != {}
      invariant todo <= final.Keys && DiskOk(v.disk) && Committed(d0, final, todo, {}, v.disk)
      invariant op == |final.Keys| - |todo| && AllGo(op, faults)
    {
      var p :| p in todo;
      assert |todo - {p}| == |todo| - 1;
      CommitStep(d0, final, todo, v.disk, p);
      ok := v.CommitFile(p, final[p].file, faults(op));
      if !ok {
        return;
      }
      op := op + 1;
      todo := todo - {p};
    }
    ok := true;
  }

  /** Gives every old path a tombstone whose clock is ahead of the record that left it. */
  method TombstoneAll(v: Vault, ghost d0: Disk, final: Index, olds: seq<Path>, idx0: Index, deviceID: Device, wallNano: int,
                      now: Stamp, faults: nat -> bool, op0: nat)
    returns (ok: bool)
    requires DiskOk(v.disk) && Committed(d0, final, {}, {}, v.disk) && ClocksOk(idx0)
    requires forall p :: p in olds ==> p !in final && p in idx0
    modifies v
    ensures ok ==> Committed(d0, final, {}, Elements(olds), v.disk)
    ensures exists gone :: gone <= Elements(olds) && Committed(d0, final, {}, gone, v.disk)
    ensures AllGo(op0, faults) ==> (ok <==> AllGo(op0 + |olds|, faults))
    ensures ok ==> Outdated(idx0, deviceID, wallNano, Elements(olds), v.disk)
  {
    TombstoneStart(d0, final, olds, v.disk, op0, faults);
    OutdatedStart(idx0, deviceID, wallNano, olds, v.disk);
    hide *;
    for i := 0 to |olds|
      invariant Outdated(idx0, deviceID, wallNano, Elements(olds[..i]), v.disk)
      invariant DiskOk(v.disk) && TombstonedSoFar(d0, final, olds, i, v.disk, op0, faults)
    {
      var p := olds[i];
      var clock := Clocks.AdvanceClock(deviceID, idx0[p].file.clock, wallNano);
      TombstoneMore(d0, final, idx0, olds, i, v.disk, op0, faults, now, wallNano, clock);
      OutdatedMore(idx0, deviceID, wallNano, olds, i, v.disk, now, clock);
      ok := v.CommitTombstone(p, now, wallNano, idx0[p].file.generation, clock, faults(op0 + i));
      if !ok {
        return;
      }
    }
    TombstoneDone(d0, final, olds, v.disk, op0, faults);
    OutdatedDone(idx0, deviceID, wallNano, olds, v.disk);
    ok := true;
  }

  /** A tombstone that says it saw this record: by its generation, and by a clock ahead of its own. */
  ghost predicate SawRecord(m: Manifest, f: FileRecord, deviceID: Device, wallNano: int) {
    && m.deleted && m.file.generation == wallNano && (f.generation >= 0 ==> m.deletedGeneration == f.generation)
    && m.file.clock == m.clock && (deviceID == "" <==> m.clock == map[]) && ClockOk(m.clock)
    && (deviceID != "" && f.clock != map[] ==> Dominates(m.clock, f.clock))
  }

  /** Each of these paths holds such a tombstone for the record it had. */
  ghost predicate Outdated(idx0: Index, deviceID: Device, wallNano: int, gone: set<Path>, d: Disk) {
    forall p :: p in gone ==> p in idx0 && Canonical(p) in d && SawRecord(d[Canonical(p)], idx0[p].file, deviceID, wallNano)
  }

  /** The first i of the old paths have their tombstones. */
  ghost predicate TombstonedSoFar(d0: Disk, final: Index, olds: seq<Path>, i: nat, d: Disk, op0: nat, faults: nat -> bool)
    requires i <= |olds|
  {
    Committed(d0, final, {}, Elements(olds[..i]), d) && (AllGo(op0, faults) ==> AllGo(op0 + i, faults))
  }

  lemma OutdatedStart(idx0: Index, deviceID: Device, wallNano: int, olds: seq<Path>, d: Disk)
    ensures Outdated(idx0, deviceID, wallNano, Elements(olds[..0]), d)
  {
  }

  lemma OutdatedMore(idx0: Index, deviceID: Device, wallNano: int, olds: seq<Path>, i: nat, d: Disk, now: Stamp, clock: Clock)
    requires i < |olds| && Outdated(idx0, deviceID, wallNano, Elements(olds[..i]), d) && olds[i] in idx0
    requires (deviceID == "" ==> clock == map[])
             && (deviceID != "" ==> deviceID in clock && ClockOk(clock)
                                    && (Dominates(clock, idx0[olds[i]].file.clock) <==> idx0[olds[i]].file.clock != map[]))
    ensures Outdated(idx0, deviceID, wallNano, Elements(olds[..i + 1]),
                     Written(d, olds[i], Tombstone(now, wallNano, idx0[olds[i]].file.generation, clock)))
  {
    var p := olds[i];
    var m := Tombstone(now, wallNano, idx0[p].file.generation, clock);
    assert SawRecord(m, idx0[p].file, deviceID, wallNano);
    TakeOneMore(olds, i);
    assert Elements(olds[..i + 1]) == Elements(olds[..i]) + {p};
    hide SawRecord;
    hide Elements;
    hide Tombstone;
  }

  lemma OutdatedDone(idx0: Index, deviceID: Device, wallNano: int, olds: seq<Path>, d: Disk)
    requires Outdated(idx0, deviceID, wallNano, Elements(olds[..|olds|]), d)
    ensures Outdated(idx0, deviceID, wallNano, Elements(olds), d)
  {
    assert olds[..|olds|] == olds;
  }

  /** So a copy of such a record that a sync brings back to its old path later comes to nothing: the path
      stays empty and the copy is removed, with clocks at once, and without if the delete is later. */
  lemma LateCopyGoes(r: Ranks, p: Path, list: seq<Candidate>, x: Candidate, y: Candidate, f: FileRecord, deviceID: Device, wallNano: int)
    requires (forall c :: c in list <==> c == x || c == y) && forall c :: multiset(list)[c] <= 1
    requires x.source != y.source && y.m == Saved(f) && ClockOk(f.clock)
    requires SawRecord(x.m, f, deviceID, wallNano) && 0 < f.generation < wallNano
    ensures Reconcile(r, p, list).live == None && forall c :: c !in Reconcile(r, p, list).conflicts
    ensures forall src :: src in Reconcile(r, p, list).removes <==> src == y.source
  {
    TombstoneHolds(r, list, x, y, f, deviceID, wallNano);
    hide *;
    LiveIsHolder(r, p, list);
    RemovesOf(r, p, list);
    ConflictsOf(r, p, list);
    assert x.m.deleted by { WasDelete(x.m, f, deviceID, wallNano); }
    OneLoser(r, list, x, y);
  }

  lemma WasDelete(m: Manifest, f: FileRecord, deviceID: Device, wallNano: int)
    requires SawRecord(m, f, deviceID, wallNano)
    ensures m.deleted
  {
  }

  lemma OneLoser(r: Ranks, list: seq<Candidate>, x: Candidate, y: Candidate)
    requires (forall c :: c in list <==> c == x || c == y) && x != y && Antichain(list) != []
    requires Holder(r, list) == x && !Dominated(x, list) && (Dominated(y, list) || FateUnder(x.m, y.m) == Suppressed)
    ensures forall c :: c in list && (Dominated(c, list) || (Loses(r, list, c) && FateUnder(x.m, c.m) != Kept)) <==> c == y
    ensures forall c :: !(Loses(r, list, c) && FateUnder(x.m, c.m) == Kept)
  {
    hide Dominated;
    hide Holder;
    hide Antichain;
    hide FateUnder;
  }

  lemma TombstoneHolds(r: Ranks, list: seq<Candidate>, x: Candidate, y: Candidate, f: FileRecord, deviceID: Device, wallNano: int)
    requires (forall c :: c in list <==> c == x || c == y) && x.source != y.source && y.m == Saved(f) && ClockOk(f.clock)
    requires SawRecord(x.m, f, deviceID, wallNano) && 0 < f.generation < wallNano
    ensures Antichain(list) != [] && Holder(r, list) == x && !Dominated(x, list)
    ensures Dominated(y, list) || FateUnder(x.m, y.m) == Suppressed
  {
    if Clocked(x.m) && Clocked(y.m) {
      Losers.DominatorBeats(r, x.m, y.m);
      DominanceIsStrictOrder(ClockOf(x.m), ClockOf(y.m), ClockOf(x.m));
      assert Dominated(y, list);
    }
    assert !Dominated(x, list);
    assert x in Antichain(list);
    var high := (m: Manifest) => m.deleted;
    assert Beats(r, x.m, y.m) && !Beats(r, y.m, x.m);
    Losers.HighWins(r, list, high, x);
    SameMembers(Sorted(r, Antichain(list)), Antichain(list));
    assert Holder(r, list) in Sorted(r, Antichain(list));
  }

  lemma TombstoneStart(d0: Disk, final: Index, olds: seq<Path>, d: Disk, op0: nat, faults: nat -> bool)
    requires Committed(d0, final, {}, {}, d)
    ensures TombstonedSoFar(d0, final, olds, 0, d, op0, faults)
  {
    hide Committed;
    assert Elements(olds[..0]) == {};
  }

  lemma TombstoneMore(d0: Disk, final: Index, idx0: Index, olds: seq<Path>, i: nat, d: Disk, op0: nat, faults: nat -> bool,
                      now: Stamp, generation: int, clock: Clock)
    requires i < |olds| && TombstonedSoFar(d0, final, olds, i, d, op0, faults)
    requires forall p :: p in olds ==> p !in final && p in idx0
    ensures olds[i] in idx0
    ensures !faults(op0 + i) ==>
              TombstonedSoFar(d0, final, olds, i + 1,
                              Written(d, olds[i], Tombstone(now, generation, idx0[olds[i]].file.generation, clock)), op0, faults)
    ensures (exists gone :: gone <= Elements(olds) && Committed(d0, final, {}, gone, d))
            && (faults(op0 + i) && AllGo(op0, faults) ==> !AllGo(op0 + |olds|, faults))
  {
    TakeOneMore(olds, i);
    var gone := Elements(olds[..i]);
    assert olds[i] in olds && gone <= Elements(olds);
    assert Elements(olds[..i + 1]) == gone + {olds[i]};
    TombstoneStep(d0, final, gone, d, olds[i], Tombstone(now, generation, idx0[olds[i]].file.generation, clock));
    hide Committed;
    hide Elements;
  }

  lemma TombstoneDone(d0: Disk, final: Index, olds: seq<Path>, d: Disk, op0: nat, faults: nat -> bool)
    requires TombstonedSoFar(d0, final, olds, |olds|, d, op0, faults)
    ensures Committed(d0, final, {}, Elements(olds), d) && (AllGo(op0, faults) ==> AllGo(op0 + |olds|, faults))
  {
    assert olds[..|olds|] == olds;
  }

  /** What a completed opening has made of the index idx0 and the disk: the older records, and the
      marker if it was missing, each committed under content/, and every old path deleted. */
  ghost predicate Upgraded(idx0: Index, marker: FileRecord, masked: bool, d0: Disk, d: Disk, final: Index, clash: bool) {
    exists places, olds :: UpgradedBy(idx0, marker, masked, d0, d, final, clash, places, olds)
  }

  ghost predicate UpgradedBy(idx0: Index, marker: FileRecord, masked: bool, d0: Disk, d: Disk, final: Index, clash: bool,
                             places: map<Path, Path>, olds: set<Path>) {
    && (!clash ==> MovedSoFar(WithMarker(idx0, marker, masked), olds, final, places))
    && (olds == {} ==> final == WithMarker(idx0, marker, masked))
    && (forall p :: p in olds <==> p in idx0 && Movable(p))
    && AllPut(WithMarker(idx0, marker, masked), olds, final, clash, places)
    && Committed(d0, final, {}, olds, d)
  }

  /** Every older record has its new place, and there is a clash just when a record was lost to it. */
  ghost predicate AllPut(idx1: Index, olds: set<Path>, final: Index, clash: bool, places: map<Path, Path>) {
    && |final| <= |idx1| && (clash <==> |final| < |idx1|)
    && places.Keys == olds && forall p :: p in olds ==> PutAt(idx1, final, p, places[p])
  }

  function WithMarker(idx0: Index, marker: FileRecord, masked: bool): Index {
    if MARKER in idx0 || masked then idx0 else idx0[MARKER := Entry(marker, None)]
  }

  /** Loads the index into the cache, from the manifests or else the older single file. */
  method LoadInto(v: Vault, s: Rest, walk: seq<Source>) returns (ok: bool)
    requires s.manifestStore && v.cached == None && Walks(walk, v.disk)
    modifies v
    ensures v.disk == old(v.disk)
    ensures v.cached == Loaded(v.ranks, s, v.disk, walk) && ok == v.cached.Some?
  {
    ok := true;
    if Unreadable in s.strays {
      ok := false;
    } else if v.disk != map[] || Misplaced(true) in s.strays || Misplaced(false) in s.strays {
      var loaded := v.CachedIndex(walk, None);
    } else if s.legacy.Some? {
      v.cached := s.legacy;
    } else {
      v.cached := Some(map[]);
    }
  }

  /** Moves what is older, then commits everything, then deletes the old paths. */
  method Upgrade(v: Vault, idx1: Index, olds: seq<Path>, deviceID: Device, wallNano: int, now: Stamp, faults: nat -> bool)
    returns (ok: bool, final: Index, clash: bool, ghost places: map<Path, Path>)
    requires DiskOk(v.disk) && ClocksOk(idx1) && forall p :: p in olds <==> p in idx1 && Movable(p)
    requires forall i, j :: 0 <= i < j < |olds| ==> olds[i] != olds[j]
    modifies v
    ensures !clash ==> MovedSoFar(idx1, Elements(olds), final, places)
    ensures olds == [] ==> final == idx1
    ensures ok ==> Committed(old(v.disk), final, {}, Elements(olds), v.disk)
    ensures exists todo, gone :: Interrupted(old(v.disk), final, todo, gone, Elements(olds), v.disk)
    ensures ok <==> AllGo(|final.Keys| + |olds|, faults)
    ensures AllPut(idx1, Elements(olds), final, clash, places)
    ensures ok ==> Outdated(idx1, deviceID, wallNano, Elements(olds), v.disk)
  {
    ghost var d0 := v.disk;
    final, places, clash := MoveRecords(idx1, olds);
    hide MovedSoFar;
    hide Committed;
    var op;
    ok, op := CommitAll(v, d0, final, faults);
    if !ok {
      ghost var todo :| Committed(d0, final, todo, {}, v.disk);
      assert Interrupted(d0, final, todo, {}, Elements(olds), v.disk);
      return;
    }
    ok := TombstoneAll(v, d0, final, olds, idx1, deviceID, wallNano, now, faults, op);
    ghost var gone :| gone <= Elements(olds) && Committed(d0, final, {}, gone, v.disk);
    assert Interrupted(d0, final, {}, gone, Elements(olds), v.disk);
  }

  /** However far it got, no old path is deleted before every record is committed. */
  ghost predicate Interrupted(d0: Disk, final: Index, todo: set<Path>, gone: set<Path>, olds: set<Path>, d: Disk) {
    Committed(d0, final, todo, gone, d) && (gone == {} || todo == {}) && gone <= olds
  }

  /** Run by every open. Nothing is written to a store that looks wiped, nor to one in order. */
  method EnsureContentLayout(v: Vault, s: Rest, walk: seq<Source>, marker: FileRecord, deviceID: Device, wallNano: int,
                             now: Stamp, faults: nat -> bool)
    returns (ok: bool, ghost final: Index, ghost clash: bool)
    requires s.manifestStore && v.cached == None && DiskOk(v.disk) && Walks(walk, v.disk) && ClockOk(marker.clock)
    requires s.legacy.Some? ==> ClocksOk(s.legacy.value)
    modifies v
    ensures var idx0 := Loaded(v.ranks, s, old(v.disk), walk);
            if idx0 == None then !ok && v.disk == old(v.disk)
            else if Settled(s, old(v.disk), idx0.value)
            then ok && v.disk == old(v.disk) && v.cached == idx0
            else (ok ==> Upgraded(idx0.value, marker, WouldMask(s, old(v.disk), idx0.value), old(v.disk), v.disk, final, clash))
                 && StoppedSafely(idx0.value, old(v.disk), v.disk, final)
                 && (ok <==> AllGo(|final.Keys| + |Older(idx0.value)|, faults))
                 && (ok ==> Outdated(idx0.value, deviceID, wallNano, Older(idx0.value), v.disk))
    ensures Gate(v.ranks, s, old(v.disk), walk) == Refused ==> ok && v.disk == old(v.disk) && v.cached == Some(map[])
  {
    if Gate(v.ranks, s, v.disk, walk) == Refused {
      WipeSurvivesOpening(v.ranks, s, v.disk, walk);
    }
    hide Gate;
    final, clash := map[], false;
    ok := LoadInto(v, s, walk);
    if !ok {
      return;
    }
    var idx0 := v.cached.value;
    LoadedClocksOk(v.ranks, s, v.disk, walk);
    hide Loaded;
    var masked := idx0 == map[] && (v.disk != map[] || s.strays != {} || s.hasChunks);
    assert masked == WouldMask(s, v.disk, idx0);
    var idx1 := if MARKER in idx0 || masked then idx0 else idx0[MARKER := Entry(marker, None)];
    MarkerIsInternal();
    var olds := OlderRecords(idx1);
    assert forall p :: p in olds <==> p in idx0 && Movable(p);
    hide Movable;
    if (MARKER in idx0 || masked) && olds == [] {
      NoOlder(idx0, olds);
      return;
    }
    if olds != [] {
      assert olds[0] in olds;
    }
    AreDistinct(olds);
    hide *;
    var finalIdx, clashed;
    ghost var places;
    ok, finalIdx, clashed, places := Upgrade(v, idx1, olds, deviceID, wallNano, now, faults);
    final, clash := finalIdx, clashed;
    UpgradeResult(idx0, marker, masked, old(v.disk), v.disk, final, clash, places, olds, ok, faults);
    if ok {
      OutdatedBefore(idx0, marker, masked, deviceID, wallNano, olds, v.disk);
    }
  }

  lemma OutdatedBefore(idx0: Index, marker: FileRecord, masked: bool, deviceID: Device, wallNano: int, olds: seq<Path>, d: Disk)
    requires forall p :: p in olds <==> p in idx0 && Movable(p)
    requires Outdated(if MARKER in idx0 || masked then idx0 else idx0[MARKER := Entry(marker, None)], deviceID, wallNano, Elements(olds), d)
    ensures Outdated(idx0, deviceID, wallNano, Older(idx0), d)
  {
    MarkerIsInternal();
    OlderIs(idx0, olds);
    hide Movable;
    hide SawRecord;
  }

  /** What a completed opening makes of the single-file index of a store without manifests. */
  ghost predicate Rewritten(idx0: Index, marker: FileRecord, final: Index, clash: bool, places: map<Path, Path>, olds: set<Path>) {
    && (forall p :: p in olds <==> p in idx0 && Movable(p))
    && (forall p :: p in olds ==> p !in final)
    && AllPut(WithMarker(idx0, marker, false), olds, final, clash, places)
    && (olds == {} ==> final == WithMarker(idx0, marker, false))
    && (!clash ==> MovedSoFar(WithMarker(idx0, marker, false), olds, final, places))
  }

  /** The same for a store of the older kind, whose index is one file: it is moved and written as a
      whole, or stays; a store of that kind that has manifests is not opened. */
  method EnsureSingleFileLayout(s: Rest, d: Disk, marker: FileRecord, failWrite: bool)
    returns (ok: bool, s': Rest, cached: Option<Index>, ghost clash: bool, ghost places: map<Path, Path>, ghost olds: set<Path>)
    requires !s.manifestStore
    ensures s' == s.(legacy := s'.legacy) && (!ok ==> s' == s)
    ensures HasManifests(s, d) ==> !ok && cached == None
    ensures !HasManifests(s, d) ==>
              var idx0 := if s.legacy.Some? then s.legacy.value else map[];
              if Settled(s, d, idx0) then ok && s' == s && cached == Some(idx0)
              else (ok <==> !failWrite) && (!ok ==> cached == Some(idx0))
                   && (ok ==> s'.legacy == cached && cached.Some? && Rewritten(idx0, marker, cached.value, clash, places, olds))
  {
    ok, s', cached, clash, places, olds := false, s, None, false, map[], {};
    if d != map[] || s.strays != {} {
      return;
    }
    var idx0 := if s.legacy.Some? then s.legacy.value else map[];
    cached := Some(idx0);
    var idx1 := if MARKER in idx0 then idx0 else idx0[MARKER := Entry(marker, None)];
    MarkerIsInternal();
    var paths := OlderRecords(idx1);
    assert forall p :: p in paths <==> p in idx0 && Movable(p);
    hide Movable;
    hide MovedSoFar;
    if MARKER in idx0 && paths == [] {
      NoOlder(idx0, paths);
      ok := true;
      return;
    }
    if paths != [] {
      assert paths[0] in paths;
    }
    hide *;
    var final, ps, clashed := MoveRecords(idx1, paths);
    if failWrite {
      return;
    }
    RewriteResult(idx0, marker, final, clashed, ps, paths);
    ok, s', cached := true, s.(legacy := Some(final)), Some(final);
    clash, places, olds := clashed, ps, Elements(paths);
  }

  lemma RewriteResult(idx0: Index, marker: FileRecord, final: Index, clash: bool, places: map<Path, Path>, olds: seq<Path>)
    requires forall p :: p in olds <==> p in idx0 && Movable(p)
    requires forall p :: p in olds ==> p !in final
    requires var idx1 := if MARKER in idx0 then idx0 else idx0[MARKER := Entry(marker, None)];
             && (!clash ==> MovedSoFar(idx1, Elements(olds), final, places)) && (olds == [] ==> final == idx1)
             && AllPut(idx1, Elements(olds), final, clash, places)
    ensures Rewritten(idx0, marker, final, clash, places, Elements(olds))
  {
    hide MovedSoFar;
    hide AllPut;
    hide Movable;
    assert WithMarker(idx0, marker, false) == if MARKER in idx0 then idx0 else idx0[MARKER := Entry(marker, None)];
    EmptyElements(olds);
    assert forall p :: p in Elements(olds) <==> p in olds;
  }

  /** The next opening finds such an index in order. */
  lemma RewrittenIsSettled(s: Rest, d: Disk, idx0: Index, marker: FileRecord, final: Index, places: map<Path, Path>, olds: set<Path>)
    requires !s.manifestStore && Rewritten(idx0, marker, final, false, places, olds)
    ensures Settled(s, d, final)
  {
    MarkerIsInternal();
    var idx1 := WithMarker(idx0, marker, false);
    assert MARKER in idx1 && MARKER !in olds;
    forall p | p in final ensures !Movable(p) {
      if !(p in idx1 && p !in olds) {
        var q :| q in olds && places[q] == p;
        assert PlacedAs(q, idx1[q], places[q]);
      }
    }
  }

  lemma UpgradeResult(idx0: Index, marker: FileRecord, masked: bool, d0: Disk, d: Disk, final: Index, clash: bool,
                      places: map<Path, Path>, olds: seq<Path>, ok: bool, faults: nat -> bool)
    requires forall p :: p in olds <==> p in idx0 && Movable(p)
    requires var idx1 := WithMarker(idx0, marker, masked);
             && (!clash ==> MovedSoFar(idx1, Elements(olds), final, places)) && (olds == [] ==> final == idx1)
             && AllPut(idx1, Elements(olds), final, clash, places)
    requires Distinct(olds) && (ok <==> AllGo(|final.Keys| + |olds|, faults))
    requires ok ==> Committed(d0, final, {}, Elements(olds), d)
    requires exists todo, gone :: Interrupted(d0, final, todo, gone, Elements(olds), d)
    ensures ok ==> Upgraded(idx0, marker, masked, d0, d, final, clash)
    ensures StoppedSafely(idx0, d0, d, final)
    ensures ok <==> AllGo(|final.Keys| + |Older(idx0)|, faults)
  {
    ElementsCount(olds);
    EmptyElements(olds);
    OlderIs(idx0, olds);
    hide *;
    if ok {
      IsUpgraded(idx0, marker, masked, d0, d, final, clash, places, olds);
    }
    Stopped(idx0, d0, d, final, olds);
  }

  lemma OlderIs(idx0: Index, olds: seq<Path>)
    requires forall p :: p in olds <==> p in idx0 && Movable(p)
    ensures Older(idx0) == Elements(olds)
  {
    hide Movable;
  }

  lemma IsUpgraded(idx0: Index, marker: FileRecord, masked: bool, d0: Disk, d: Disk, final: Index, clash: bool,
                   places: map<Path, Path>, olds: seq<Path>)
    requires Older(idx0) == Elements(olds) && (Elements(olds) == {} ==> olds == [])
    requires var idx1 := WithMarker(idx0, marker, masked);
             && (!clash ==> MovedSoFar(idx1, Elements(olds), final, places)) && (olds == [] ==> final == idx1)
             && AllPut(idx1, Elements(olds), final, clash, places)
    requires Committed(d0, final, {}, Elements(olds), d)
    ensures Upgraded(idx0, marker, masked, d0, d, final, clash)
  {
    hide MovedSoFar;
    hide Committed;
    hide AllPut;
    hide Movable;
    hide Elements;
    assert UpgradedBy(idx0, marker, masked, d0, d, final, clash, places, Elements(olds));
  }

  lemma Stopped(idx0: Index, d0: Disk, d: Disk, final: Index, olds: seq<Path>)
    requires Older(idx0) == Elements(olds) && exists todo, gone :: Interrupted(d0, final, todo, gone, Elements(olds), d)
    ensures StoppedSafely(idx0, d0, d, final)
  {
    hide Interrupted;
    hide Movable;
    hide Elements;
  }

  /** The older records of an index. */
  ghost function Older(idx: Index): set<Path> { set p | p in idx && Movable(p) }

  lemma {:induction false} ElementsCount(s: seq<Path>)
    requires Distinct(s)
    ensures |Elements(s)| == |s|
  {
    if s != [] {
      ElementsCount(Init(s));
      InitAndLast(s);
      assert Elements(s) == Elements(Init(s)) + {Last(s)};
    }
  }

  lemma EmptyElements(s: seq<Path>)
    ensures Elements(s) == {} ==> s == []
  {
    if s != [] {
      assert s[0] in Elements(s);
    }
  }

  ghost predicate StoppedSafely(idx0: Index, d0: Disk, d: Disk, final: Index) {
    exists todo, gone, olds :: Interrupted(d0, final, todo, gone, olds, d) && forall p :: p in olds <==> p in idx0 && Movable(p)
  }

  lemma OldIsGone(idx1: Index, olds: set<Path>, final: Index, places: map<Path, Path>)
    requires MovedSoFar(idx1, olds, final, places)
    ensures forall p :: p in olds ==> p !in final
  {
    forall p, q | p in olds && q in olds ensures places[q] != p {
      assert PlacedAs(p, idx1[p], places[p]) && PlacedAs(q, idx1[q], places[q]);
    }
  }

  /** Wherever an upgrade stops, each older record is on disk where it was or where it goes. */
  lemma NothingLostMidway(idx1: Index, d0: Disk, d: Disk, final: Index, todo: set<Path>, gone: set<Path>, olds: set<Path>,
                          places: map<Path, Path>, p: Path)
    requires MovedSoFar(idx1, olds, final, places) && Interrupted(d0, final, todo, gone, olds, d) && p in olds
    ensures (Canonical(p) in d0 ==> Canonical(p) in d && d[Canonical(p)] == d0[Canonical(p)])
            || (Canonical(places[p]) in d && d[Canonical(places[p])] == Saved(idx1[p].file))
  {
    OldIsGone(idx1, olds, final, places);
    if p in gone {
      assert places[p] in final && places[p] !in gone;
    }
  }

  /** But an upgrade from the single-file index is not safe to interrupt: once one manifest is
      written the load no longer falls back to that file, and of the records it was to write it
      shows those that are committed and no other. */
  lemma InterruptedUpgradeHidesRest(r: Ranks, s: Rest, final: Index, todo: set<Path>, d: Disk, walk: seq<Source>, p: Path)
    requires s.manifestStore && s.strays == {} && ClocksOk(final)
    requires Committed(map[], final, todo, {}, d) && d != map[] && p in final && Walks(walk, d)
    ensures Loaded(r, s, d, walk).Some?
    ensures Lookup(Loaded(r, s, d, walk).value, p) == if p in todo then None else Some(Entry(final[p].file, None))
  {
    forall src | src in d ensures src.Canonical? && src.path in final && src.path !in todo && d[src] == Saved(final[src.path].file) {
    }
    assert AllOwn(d) && DiskOk(d) && (Canonical(p) in d <==> p !in todo);
    OwnDiskLoads(r, d, walk, p);
    LoadShows(r, d, walk);
    hide LoadAt;
    hide LoadIndex;
  }

  /** A fresh store gets its marker, and is collectable from then on. */
  lemma FreshStoreGetsMarker(r: Ranks, s: Rest, d: Disk, walk: seq<Source>, marker: FileRecord, final: Index, clash: bool)
    requires s.manifestStore && s.strays == {} && ClockOk(marker.clock) && Walks(walk, d)
    requires Upgraded(map[], marker, false, map[], d, final, clash)
    ensures d.Keys == {Canonical(MARKER)} && d[Canonical(MARKER)] == Saved(marker)
    ensures Gate(r, s, d, walk) == Passes
  {
    var places, olds :| UpgradedBy(map[], marker, false, map[], d, final, clash, places, olds);
    assert olds == {} && final == map[MARKER := Entry(marker, None)];
    hide MovedSoFar;
    assert MARKER in final;
    hide UpgradedBy;
    assert Canonical(MARKER) in d && d[Canonical(MARKER)] == Saved(marker);
    assert forall src :: src in d ==> src == Canonical(MARKER);
    hide Committed;
    hide Upgraded;
    MarkerLoads(r, s, d, walk, marker);
  }

  lemma MarkerLoads(r: Ranks, s: Rest, d: Disk, walk: seq<Source>, marker: FileRecord)
    requires s.manifestStore && s.strays == {} && ClockOk(marker.clock) && Walks(walk, d)
    requires d.Keys == {Canonical(MARKER)} && d[Canonical(MARKER)] == Saved(marker)
    ensures Gate(r, s, d, walk) == Passes
  {
    hide LoadAt;
    hide LoadIndex;
    hide Walks;
    assert forall src :: src in d ==> src == Canonical(MARKER);
    assert AllOwn(d) && DiskOk(d);
    OwnDiskLoads(r, d, walk, MARKER);
    assert Canonical(MARKER) in d;
    IsIndexed(r, d, walk, MARKER);
    assert LoadIndex(r, d, walk) != map[];
    assert d != map[];
  }

  lemma IsIndexed(r: Ranks, d: Disk, walk: seq<Source>, q: Path)
    requires q in Paths(d) && LoadAt(r, d, walk, q).Some?
    ensures q in LoadIndex(r, d, walk)
  {
    hide LoadAt;
  }

  lemma MarkerIsInternal()
    ensures !Movable(MARKER)
  {
    var name := "content/.seavault-dir";
    assert name[|name| - 13..] == ".seavault-dir" && name[|name| - 14] == '/';
    MarkerSpelled(name);
  }

  /** Nothing to do: the marker is there, or must not be made, and no record is older. */
  predicate Settled(s: Rest, d: Disk, idx: Index) {
    (MARKER in idx || WouldMask(s, d, idx)) && forall p :: p in idx ==> !Movable(p)
  }

  lemma NoOlder(idx: Index, olds: seq<Path>)
    requires olds == [] && forall p :: p in olds <==> p in idx && Movable(p)
    ensures forall p :: p in idx ==> !Movable(p)
  {
    forall p | p in idx ensures !Movable(p) {
      assert p !in olds;
    }
  }

  /** A load invents no record: every entry shows one that some manifest holds. */
  lemma EntryIsOnDisk(r: Ranks, d: Disk, walk: seq<Source>, q: Path)
    requires DiskOk(d) && Walks(walk, d) && LoadAt(r, d, walk, q).Some?
    ensures exists src :: src in d && !d[src].deleted && d[src].file == LoadAt(r, d, walk, q).value.file
  {
    if q in Paths(d) {
      var g := Group(d, walk, q);
      GroupFacts(d, walk, q);
      LiveIsHolder(r, q, g);
      assert Holder(r, g).source in d;
    } else {
      var p := q.original;
      var g := Group(d, walk, p);
      GroupFacts(d, walk, p);
      LastForIs(Outcomes(r, d, walk, p).conflicts, q);
      ConflictsOf(r, p, g);
      hide Reconcile;
      hide Antichain;
      hide Dominated;
      hide Holder;
      var c :| c in Outcomes(r, d, walk, p).conflicts && c.path == q && c.file == LoadAt(r, d, walk, q).value.file;
      var x :| Loses(r, g, x) && FateUnder(Holder(r, g).m, x.m) == Kept
               && c == Planned(ConflictPath(p, x.m.file), x.m.file, x.source);
      assert x.source in d && d[x.source] == x.m;
    }
  }

  lemma LoadedClocksOk(r: Ranks, s: Rest, d: Disk, walk: seq<Source>)
    requires DiskOk(d) && Walks(walk, d) && (s.legacy.Some? ==> ClocksOk(s.legacy.value))
    ensures Loaded(r, s, d, walk).Some? ==> ClocksOk(Loaded(r, s, d, walk).value)
  {
    hide LoadAt;
    forall q | q in LoadIndex(r, d, walk) ensures ClockOk(LoadIndex(r, d, walk)[q].file.clock) {
      EntryIsOnDisk(r, d, walk, q);
    }
  }

  // ---- Which stores load from the manifests, and which are refused ----

  /** The older single file is read only where no manifest names a path: one that lies under another
      name, even a tombstone, is enough for it to be passed over. */
  lemma FallsBackExactly(r: Ranks, s: Rest, walk: seq<Source>)
    requires s.manifestStore && Unreadable !in s.strays && Walks(walk, map[]) && s.legacy.Some? && s.legacy.value != map[]
    ensures Loaded(r, s, map[], walk) == s.legacy || Loaded(r, s, map[], walk) == Some(map[])
    ensures Loaded(r, s, map[], walk) == s.legacy <==> forall b :: Misplaced(b) !in s.strays
  {
  }

  /** A live manifest under another name has a store that loads empty refused; a tombstone there, or
      one that names no path, has it pass, chunks or not. */
  lemma StraysDecide(r: Ranks, s: Rest, walk: seq<Source>)
    requires s.manifestStore && Unreadable !in s.strays && Walks(walk, map[]) && s.legacy == None
    ensures Gate(r, s, map[], walk) == Refused <==> Misplaced(false) in s.strays || (s.strays == {} && s.hasChunks)
    ensures Gate(r, s, map[], walk) == Passes <==> Gate(r, s, map[], walk) != Refused
  {
  }

  // ---- Wiped stores stay recognisable ----

  /** A store whose gate refuses is left as it is, so it is refused after any number of opens. */
  lemma WipeSurvivesOpening(r: Ranks, s: Rest, d: Disk, walk: seq<Source>)
    requires Gate(r, s, d, walk) == Refused
    ensures s.manifestStore && Loaded(r, s, d, walk) == Some(map[]) && Settled(s, d, map[])
  {
    hide LoadIndex;
  }

  /** The marker is withheld from more than the gate refuses: also from a store that holds
      nothing but tombstones, or manifests that name no path. Collection passes there. */
  lemma MaskedExactly(r: Ranks, s: Rest, d: Disk, walk: seq<Source>)
    requires s.manifestStore && Loaded(r, s, d, walk) == Some(map[])
    ensures WouldMask(s, d, map[]) <==>
            Gate(r, s, d, walk) == Refused || (HasManifests(s, d) && !HasLiveManifest(s, d))
    ensures HasManifests(s, d) && !HasLiveManifest(s, d) ==> Gate(r, s, d, walk) == Passes
  {
    hide LoadIndex;
  }

  /** A store of tombstones alone loads empty, is left alone by opening, and stays collectable. */
  lemma AllTombstonesStayCollectable(r: Ranks, s: Rest, d: Disk, walk: seq<Source>)
    requires s.manifestStore && s.strays == {} && d != map[] && DiskOk(d) && Walks(walk, d) && forall src :: src in d ==> d[src].deleted
    ensures Loaded(r, s, d, walk) == Some(map[]) && Settled(s, d, map[]) && Gate(r, s, d, walk) == Passes
  {
    NothingLoads(r, d, walk);
    hide *;
    AllTombstones(r, s, d, walk);
  }

  lemma NothingLoads(r: Ranks, d: Disk, walk: seq<Source>)
    requires DiskOk(d) && Walks(walk, d) && forall src :: src in d ==> d[src].deleted
    ensures LoadIndex(r, d, walk) == map[]
  {
    hide LoadAt;
    forall q | q in LoadIndex(r, d, walk) ensures false {
      EntryIsOnDisk(r, d, walk, q);
    }
  }

  lemma AllTombstones(r: Ranks, s: Rest, d: Disk, walk: seq<Source>)
    requires s.manifestStore && s.strays == {} && d != map[] && LoadIndex(r, d, walk) == map[] && forall src :: src in d ==> d[src].deleted
    ensures Loaded(r, s, d, walk) == Some(map[]) && Settled(s, d, map[]) && Gate(r, s, d, walk) == Passes
  {
    hide LoadIndex;
    hide Movable;
  }

  lemma LiveManifestIsRefused(r: Ranks, s: Rest, d: Disk, walk: seq<Source>, src: Source)
    requires s.manifestStore && s.strays == {} && Loaded(r, s, d, walk) == Some(map[]) && src in d && !d[src].deleted
    ensures Gate(r, s, d, walk) == Refused
  {
    hide LoadIndex;
  }
}
