/** When an exported file is in the way of a directory another one needs. */
module Nesting {
  import opened Prelude
  import opened Portable
  import opened Export

  /** A directory's key: that of a file of its path. */
  function DirKey(fold: Folding, dirs: seq<string>): string
    requires dirs != []
  {
    TargetKey(fold, VPath(Init(dirs), Last(dirs)))
  }

  /** The file t folds to the same path as a directory u lies in. */
  ghost predicate InTheWay(fold: Folding, t: VPath, u: VPath) {
    exists k :: 0 < k <= |u.dirs| && TargetKey(fold, t) == DirKey(fold, u.dirs[..k])
  }

  ghost predicate Nest(fold: Folding, targets: seq<VPath>) {
    exists i, j :: 0 <= i < |targets| && 0 <= j < |targets| && InTheWay(fold, targets[i], targets[j])
  }

  /** The names before any is told apart. */
  function Plains(matches: seq<Match>, vp: seq<string>, exactFile: bool): (plains: seq<VPath>)
    ensures |plains| == |matches|
  {
    if matches == [] then [] else Plains(Init(matches), vp, exactFile) + [Plain(Last(matches), vp, exactFile)]
  }

  /** A name given to a match whose plain one was taken. */
  ghost predicate ToldApart(plain: VPath, suffix: string, t: VPath) {
    t == Suffixed(plain, suffix) || exists n: nat :: n >= 2 && t == Numbered(plain, suffix, n)
  }

  /** Only the last segment is ever told apart, and every plain key ends up as some target's. */
  lemma {:induction false} TargetsAre(fold: Folding, vp: seq<string>, exactFile: bool, matches: seq<Match>, targets: seq<VPath>, i: nat)
    requires Assigned(fold, vp, exactFile, matches, targets) && i < |matches|
    ensures var plain := Plains(matches, vp, exactFile)[i];
            && targets[i].dirs == plain.dirs && (targets[i] == plain || ToldApart(plain, matches[i].suffix, targets[i]))
            && TargetKey(fold, plain) in Keys(fold, targets)
  {
    InitAndLast(targets);
    InitAndLast(matches);
    KeysSnoc(fold, Init(targets), Last(targets));
    hide Plain;
    hide TargetKey;
    hide Keys;
    if i < |matches| - 1 {
      hide Chosen;
      hide ToldApart;
      TargetsAre(fold, vp, exactFile, Init(matches), Init(targets), i);
    }
  }

  lemma SameDirsSameWay(fold: Folding, t: VPath, u: VPath, v: VPath)
    requires u.dirs == v.dirs
    ensures InTheWay(fold, t, u) <==> InTheWay(fold, t, v)
  {
  }

  /** Targets nest exactly when a plain name is in the way of another, or a name that was told apart
      is: in the way of the directories of a plain name, since those of the targets are the same. */
  lemma NestExactly(fold: Folding, vp: seq<string>, exactFile: bool, matches: seq<Match>, targets: seq<VPath>)
    requires Assigned(fold, vp, exactFile, matches, targets)
    ensures var plains := Plains(matches, vp, exactFile);
            Nest(fold, targets) <==>
            Nest(fold, plains) || exists i, j :: 0 <= i < |plains| && 0 <= j < |plains| && targets[i] != plains[i]
                                                 && InTheWay(fold, targets[i], plains[j])
  {
    var plains := Plains(matches, vp, exactFile);
    forall i | 0 <= i < |matches|
      ensures targets[i].dirs == plains[i].dirs && TargetKey(fold, plains[i]) in Keys(fold, targets)
    {
      TargetsAre(fold, vp, exactFile, matches, targets, i);
    }
    hide *;
    NestBothWays(fold, plains, targets);
  }

  lemma NestBothWays(fold: Folding, plains: seq<VPath>, targets: seq<VPath>)
    requires |plains| == |targets|
    requires forall i :: 0 <= i < |plains| ==> targets[i].dirs == plains[i].dirs && TargetKey(fold, plains[i]) in Keys(fold, targets)
    ensures Nest(fold, targets) <==>
            Nest(fold, plains) || exists i, j :: 0 <= i < |plains| && 0 <= j < |plains| && targets[i] != plains[i]
                                                 && InTheWay(fold, targets[i], plains[j])
  {
    hide InTheWay;
    hide TargetKey;
    hide Keys;
    forall i, j | 0 <= i < |plains| && 0 <= j < |plains|
      ensures InTheWay(fold, targets[i], targets[j]) <==> InTheWay(fold, targets[i], plains[j])
    {
      SameDirsSameWay(fold, targets[i], targets[j], plains[j]);
    }
    if Nest(fold, plains) {
      PlainWayIsTaken(fold, plains, targets);
    }
    if Nest(fold, targets) {
      var i, j :| 0 <= i < |targets| && 0 <= j < |targets| && InTheWay(fold, targets[i], targets[j]);
      assert InTheWay(fold, targets[i], plains[j]);
    }
  }

  lemma PlainWayIsTaken(fold: Folding, plains: seq<VPath>, targets: seq<VPath>)
    requires Nest(fold, plains) && |plains| == |targets|
    requires forall i :: 0 <= i < |plains| ==> targets[i].dirs == plains[i].dirs && TargetKey(fold, plains[i]) in Keys(fold, targets)
    ensures Nest(fold, targets)
  {
    var i, j :| 0 <= i < |plains| && 0 <= j < |plains| && InTheWay(fold, plains[i], plains[j]);
    var t :| t in targets && TargetKey(fold, t) == TargetKey(fold, plains[i]);
    var n :| 0 <= n < |targets| && targets[n] == t;
    hide TargetKey;
    hide DirKey;
    var k :| 0 < k <= |plains[j].dirs| && TargetKey(fold, plains[i]) == DirKey(fold, plains[j].dirs[..k]);
    assert TargetKey(fold, t) == DirKey(fold, targets[j].dirs[..k]);
    assert InTheWay(fold, targets[n], targets[j]);
  }

  /** So where no suffixed or numbered form would be in the way, it is decided by the plain names:
      both files land exactly when no portable name folds to a directory of another. */
  lemma NestByPlainsExactly(fold: Folding, vp: seq<string>, exactFile: bool, matches: seq<Match>, targets: seq<VPath>)
    requires Assigned(fold, vp, exactFile, matches, targets)
    requires forall i, j, t :: 0 <= i < |matches| && 0 <= j < |matches|
                               && ToldApart(Plains(matches, vp, exactFile)[i], matches[i].suffix, t) ==>
                                 !InTheWay(fold, t, Plains(matches, vp, exactFile)[j])
    ensures Nest(fold, targets) <==> Nest(fold, Plains(matches, vp, exactFile))
  {
    var plains := Plains(matches, vp, exactFile);
    NestExactly(fold, vp, exactFile, matches, targets);
    if i, j :| 0 <= i < |plains| && 0 <= j < |plains| && targets[i] != plains[i] && InTheWay(fold, targets[i], plains[j]) {
      TargetsAre(fold, vp, exactFile, matches, targets, i);
      assert false;
    }
  }

  /** No suffixed name folds to another suffixed name or to a plain one. */
  ghost predicate SuffixesTellApart(fold: Folding, plains: seq<VPath>, matches: seq<Match>)
    requires |plains| == |matches|
  {
    && (forall i, j :: 0 <= i < j < |matches| ==>
          TargetKey(fold, Suffixed(plains[i], matches[i].suffix)) != TargetKey(fold, Suffixed(plains[j], matches[j].suffix)))
    && (forall i, j :: 0 <= i < |matches| && 0 <= j < |matches| ==>
          TargetKey(fold, Suffixed(plains[i], matches[i].suffix)) != TargetKey(fold, plains[j]))
  }

  ghost predicate SharesBefore(fold: Folding, plains: seq<VPath>, i: nat)
    requires i < |plains|
  {
    exists k :: 0 <= k < i && TargetKey(fold, plains[k]) == TargetKey(fold, plains[i])
  }

  /** Then just the names that share their plain key with an earlier one are suffixed. */
  lemma {:induction false} SuffixedExactly(fold: Folding, vp: seq<string>, exactFile: bool, matches: seq<Match>, targets: seq<VPath>)
    requires Assigned(fold, vp, exactFile, matches, targets) && SuffixesTellApart(fold, Plains(matches, vp, exactFile), matches)
    ensures var plains := Plains(matches, vp, exactFile);
            forall i :: 0 <= i < |matches| ==>
                          targets[i] == if SharesBefore(fold, plains, i) then Suffixed(plains[i], matches[i].suffix) else plains[i]
  {
    if matches != [] {
      var plains, n := Plains(matches, vp, exactFile), |matches| - 1;
      PlainsGrow(vp, exactFile, matches);
      FrontTellsApart(fold, plains, matches);
      SuffixedExactly(fold, vp, exactFile, Init(matches), Init(targets));
      forall k | 0 <= k < n ensures TargetKey(fold, plains[k]) in Keys(fold, Init(targets)) {
        TargetsAre(fold, vp, exactFile, Init(matches), Init(targets), k);
      }
      assert Chosen(fold, Keys(fold, Init(targets)), plains[n], matches[n].suffix, targets[n]);
      FrontShares(fold, plains);
      hide *;
      LastIsSuffixed(fold, plains, matches, targets);
    }
  }

  lemma PlainsGrow(vp: seq<string>, exactFile: bool, matches: seq<Match>)
    requires matches != []
    ensures Plains(Init(matches), vp, exactFile) == Init(Plains(matches, vp, exactFile))
  {
    InitOfSnoc(Plains(Init(matches), vp, exactFile), Plain(Last(matches), vp, exactFile));
  }

  lemma FrontTellsApart(fold: Folding, plains: seq<VPath>, matches: seq<Match>)
    requires |plains| == |matches| > 0 && SuffixesTellApart(fold, plains, matches)
    ensures SuffixesTellApart(fold, Init(plains), Init(matches)) && LastApart(fold, plains, matches)
  {
    hide TargetKey;
    hide Suffixed;
    var n := |plains| - 1;
    assert forall i :: 0 <= i < n ==> Init(plains)[i] == plains[i] && Init(matches)[i] == matches[i];
  }

  /** The suffixed form of the last name meets no other form. */
  ghost predicate LastApart(fold: Folding, plains: seq<VPath>, matches: seq<Match>)
    requires |plains| == |matches| > 0
  {
    var last := Suffixed(Last(plains), Last(matches).suffix);
    forall k :: 0 <= k < |plains| - 1 ==>
                  && TargetKey(fold, last) != TargetKey(fold, plains[k])
                  && TargetKey(fold, last) != TargetKey(fold, Suffixed(plains[k], matches[k].suffix))
                  && TargetKey(fold, Last(plains)) != TargetKey(fold, Suffixed(plains[k], matches[k].suffix))
  }

  lemma FrontShares(fold: Folding, plains: seq<VPath>)
    requires plains != []
    ensures forall i :: 0 <= i < |plains| - 1 ==> (SharesBefore(fold, plains, i) <==> SharesBefore(fold, Init(plains), i))
  {
    hide TargetKey;
  }

  lemma LastIsSuffixed(fold: Folding, plains: seq<VPath>, matches: seq<Match>, targets: seq<VPath>)
    requires |plains| == |matches| == |targets| > 0 && LastApart(fold, plains, matches)
    requires var n := |plains| - 1;
             && Chosen(fold, Keys(fold, Init(targets)), plains[n], matches[n].suffix, targets[n])
             && (forall k :: 0 <= k < n ==> TargetKey(fold, plains[k]) in Keys(fold, Init(targets)))
             && (forall k :: 0 <= k < n ==>
                   Init(targets)[k] == if SharesBefore(fold, Init(plains), k) then Suffixed(Init(plains)[k], Init(matches)[k].suffix)
                                       else Init(plains)[k])
             && (forall k :: 0 <= k < n ==> (SharesBefore(fold, plains, k) <==> SharesBefore(fold, Init(plains), k)))
    ensures forall i :: 0 <= i < |plains| ==>
                          targets[i] == if SharesBefore(fold, plains, i) then Suffixed(plains[i], matches[i].suffix) else plains[i]
  {
    var n := |plains| - 1;
    forall k | 0 <= k < n
      ensures targets[k] == if SharesBefore(fold, plains, k) then Suffixed(plains[k], matches[k].suffix) else plains[k]
    {
      assert Init(targets)[k] == targets[k];
    }
    SharedIsUsed(fold, plains, matches, Init(targets));
    hide TargetKey;
    hide Suffixed;
    hide Keys;
    hide SharesBefore;
    hide LastApart;
  }

  lemma SharedIsUsed(fold: Folding, plains: seq<VPath>, matches: seq<Match>, front: seq<VPath>)
    requires |plains| == |matches| == |front| + 1 && LastApart(fold, plains, matches)
    requires forall k :: 0 <= k < |front| ==> front[k] == plains[k] || front[k] == Suffixed(plains[k], matches[k].suffix)
    requires forall k :: 0 <= k < |front| ==> TargetKey(fold, plains[k]) in Keys(fold, front)
    ensures TargetKey(fold, Last(plains)) in Keys(fold, front) <==> SharesBefore(fold, plains, |front|)
    ensures TargetKey(fold, Suffixed(Last(plains), Last(matches).suffix)) !in Keys(fold, front)
  {
    hide TargetKey;
    hide Suffixed;
    if t :| t in front && TargetKey(fold, t) == TargetKey(fold, Last(plains)) {
      var k :| 0 <= k < |front| && front[k] == t;
      assert TargetKey(fold, plains[k]) == TargetKey(fold, plains[|front|]);
    }
  }

  /** And so whether the targets nest is decided by the plain names and the suffixes alone. */
  lemma NestBySuffixesExactly(fold: Folding, vp: seq<string>, exactFile: bool, matches: seq<Match>, targets: seq<VPath>)
    requires Assigned(fold, vp, exactFile, matches, targets) && SuffixesTellApart(fold, Plains(matches, vp, exactFile), matches)
    ensures var plains := Plains(matches, vp, exactFile);
            Nest(fold, targets) <==>
            Nest(fold, plains) || exists i, j :: 0 <= i < |plains| && 0 <= j < |plains| && SharesBefore(fold, plains, i)
                                                 && InTheWay(fold, Suffixed(plains[i], matches[i].suffix), plains[j])
  {
    var plains := Plains(matches, vp, exactFile);
    NestExactly(fold, vp, exactFile, matches, targets);
    SuffixedExactly(fold, vp, exactFile, matches, targets);
    forall i | 0 <= i < |matches| ensures Suffixed(plains[i], matches[i].suffix) != plains[i] {
      assert |Suffixed(plains[i], matches[i].suffix).leaf| > |plains[i].leaf|;
    }
    hide *;
    SuffixedInTheWay(fold, plains, matches, targets);
  }

  lemma SuffixedInTheWay(fold: Folding, plains: seq<VPath>, matches: seq<Match>, targets: seq<VPath>)
    requires |plains| == |matches| == |targets|
    requires forall i :: 0 <= i < |matches| ==>
                           targets[i] == if SharesBefore(fold, plains, i) then Suffixed(plains[i], matches[i].suffix) else plains[i]
    requires forall i :: 0 <= i < |matches| ==> Suffixed(plains[i], matches[i].suffix) != plains[i]
    ensures (exists i, j :: 0 <= i < |plains| && 0 <= j < |plains| && targets[i] != plains[i] && InTheWay(fold, targets[i], plains[j]))
            <==> (exists i, j :: 0 <= i < |plains| && 0 <= j < |plains| && SharesBefore(fold, plains, i)
                                 && InTheWay(fold, Suffixed(plains[i], matches[i].suffix), plains[j]))
  {
    hide *;
    if i, j :| 0 <= i < |plains| && 0 <= j < |plains| && targets[i] != plains[i] && InTheWay(fold, targets[i], plains[j]) {
      assert SharesBefore(fold, plains, i) && InTheWay(fold, Suffixed(plains[i], matches[i].suffix), plains[j]);
    }
    if i, j :| 0 <= i < |plains| && 0 <= j < |plains| && SharesBefore(fold, plains, i)
               && InTheWay(fold, Suffixed(plains[i], matches[i].suffix), plains[j]) {
      assert targets[i] != plains[i] && InTheWay(fold, targets[i], plains[j]);
    }
  }

  /** Distinct targets may still nest: a name that sanitises to that of a directory becomes a
      file where the directory has to be. */
  lemma TargetsMayNest(fold: Folding, targets: seq<VPath>, one: string, two: string)
    requires Assigned(fold, [], false, [Match(VPath([], "a:"), one), Match(VPath(["a_"], "b"), two)], targets)
    ensures targets == [VPath([], "a_"), VPath(["a_"], "b")] && Nest(fold, targets)
  {
    ColonBecomesUnderscore();
    hide PortableName;
    hide Sanitized;
    var p, q := VPath([], "a_"), VPath(["a_"], "b");
    assert Init(["a_"]) == [] && PortableDirs(["a_"]) == ["a_"];
    assert Portably(VPath([], "a:")) == p && Portably(q) == q;
    assert RelativePath(q, [], false) == q;
    hide Portably;
    var m, n := Match(VPath([], "a:"), one), Match(VPath(["a_"], "b"), two);
    assert Init([m, n]) == [m] && Init([m]) == [];
    assert Init(targets) == [targets[0]] && Init([targets[0]]) == [];
    assert Assigned(fold, [], false, [m], [targets[0]]);
    assert Chosen(fold, {}, p, one, targets[0]);
    assert Chosen(fold, Keys(fold, [p]), q, two, targets[1]);
    InItsWay(fold, p, q);
    hide InTheWay;
    FoldedLength(fold, Join(p));
    FoldedLength(fold, Join(q));
    assert Ahead([]) == "" && Ahead(["a_"]) == "a_/";
    assert InTheWay(fold, targets[0], targets[1]);
  }

  lemma InItsWay(fold: Folding, p: VPath, q: VPath)
    requires p.dirs == [] && q.dirs == [p.leaf]
    ensures InTheWay(fold, p, q)
  {
    assert q.dirs[..1] == q.dirs && DirKey(fold, q.dirs) == TargetKey(fold, p);
  }

  lemma {:induction false} FoldedLength(fold: Folding, s: string)
    ensures |Folded(fold, s)| == |s|
  {
    if s != "" {
      FoldedLength(fold, Init(s));
    }
  }

  lemma ColonBecomesUnderscore()
    ensures !PortableName("a:") && Sanitized("a:") == "a_" && PortableName("a_") && PortableName("b")
  {
    assert Illegal("a:"[1]);
    ReplacedColon();
    NoDevice("a_", "A_");
    NoDevice("b", "B");
  }

  lemma ReplacedColon()
    ensures Trimmed(Replaced("a:")) == "a_"
  {
    hide ReservedStem;
    assert Init("a:") == "a" && Init("a") == "" && Replaced("a") == "a";
    assert Replaced("a:") == "a_" && !TrailsOff("a_");
  }

  lemma NoDevice(s: string, upper: string)
    requires Upper(s) == upper && Stem(s) == s && 0 < |upper| < 3
    ensures !ReservedStem(s)
  {
    assert |"CON"| == 3 && |"PRN"| == 3 && |"AUX"| == 3 && |"NUL"| == 3;
  }
}
