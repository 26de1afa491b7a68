/** When a COPY or MOVE keeps its source, and when its destination is what the source was: exactly. */
module DavTransfers {
  import opened Prelude
  import opened DavTree

  // ---- When clearing the destination leaves something to transfer ----

  /** Something at or below src is not taken away with dst. */
  ghost predicate LeftAt(t: Tree, src: Path, dst: Path) {
    (exists f :: f in t.files && src < f && !Targeted(t, dst, f)) || (exists m :: m in t.markers && src <= m && !TargetedMarker(t, dst, m))
  }

  ghost predicate Spared(t: Tree, src: Path, dst: Path) {
    if dst <= src then FileAt(t, dst) else src <= dst ==> FileAt(t, src) || !Exists(t, dst) || LeftAt(t, src, dst)
  }

  /** The source is still there once the destination is cleared exactly when they are apart; or the
      destination is the source or above it and a file; or it is below the source, and the source is
      a file, or nothing is cleared, or the source has something besides. */
  lemma SourceSurvivesExactly(t: Tree, src: Path, dst: Path)
    requires Exists(t, src) && src != [] && dst != []
    ensures Exists(Cleared(t, src, dst), src) <==> Spared(t, src, dst)
  {
    var t1 := Cleared(t, src, dst);
    PrefixCases(dst, src);
    PrefixCases(src, dst);
    if dst <= src && !FileAt(t, dst) {
      OverreachGone(t, src, dst);
      ClearedAbove(t, src, dst);
    } else if dst <= src {
      ClearedFileAbove(t, src, dst);
    } else if src <= dst {
      ClearedBelow(t, src, dst);
    } else {
      ClearedApart(t, src, dst);
    }
  }

  lemma ClearedAbove(t: Tree, src: Path, dst: Path)
    requires Exists(t, src) && src != [] && dst != [] && dst <= src && !FileAt(t, dst)
    ensures !Exists(Cleared(t, src, dst), src)
  {
    if DirAt(t, src) {
      DirUp(t, dst, src);
    }
    var t1 := Cleared(t, src, dst);
    forall q | src <= q ensures q !in t1.files && q !in t1.markers {
      PrefixesChain(dst, src, q);
      PrefixCases(dst, q);
      PrefixCases(dst, src);
    }
  }

  lemma ClearedFileAbove(t: Tree, src: Path, dst: Path)
    requires Exists(t, src) && src != [] && dst <= src && FileAt(t, dst)
    ensures Exists(Cleared(t, src, dst), src)
  {
    var t1 := Cleared(t, src, dst);
    if dst == src {
      if DirAt(t, src) {
        DirStaysBelow(t, src);
      }
    } else {
      assert t1.markers == t.markers;
      forall f | f in t.files && src <= f ensures f in t1.files {
        assert |f| > |dst|;
      }
    }
  }

  lemma ClearedBelow(t: Tree, src: Path, dst: Path)
    requires Exists(t, src) && src != [] && src < dst
    ensures Exists(Cleared(t, src, dst), src) <==> FileAt(t, src) || !Exists(t, dst) || LeftAt(t, src, dst)
  {
    var t1 := Cleared(t, src, dst);
    if !FileAt(t, src) && Exists(t, dst) {
      assert forall f :: f in t1.files <==> f in t.files && !Targeted(t, dst, f);
      assert forall m :: m in t1.markers <==> m in t.markers && !TargetedMarker(t, dst, m);
      hide Cleared;
      hide Targeted;
      hide TargetedMarker;
      if m :| m in t1.markers && src <= m {
        PrefixCases(src, m);
      }
    }
  }

  lemma ClearedApart(t: Tree, src: Path, dst: Path)
    requires Exists(t, src) && Apart(src, dst)
    ensures Exists(Cleared(t, src, dst), src)
  {
    var t1 := Cleared(t, src, dst);
    assert SameOutside(t, t1, dst);
    SourceSame(t, t1, src, dst);
    DirAtBelow(t, t1, src, src);
  }

  /** A destination that exists below the source can be all there is of it. */
  lemma DestinationCanBeAllThereIs()
    ensures var t := Tree(map[["content", "a", "b", "x"] := "data"], {});
            var src, dst: Path := ["content", "a"], ["content", "a", "b"];
            Exists(t, src) && src < dst && !Hybrid(t, src) && !Hybrid(t, dst) && !Overreaches(t, src, dst) && !Exists(Cleared(t, src, dst), src)
  {
    var t := Tree(map[["content", "a", "b", "x"] := "data"], {});
    var src, dst: Path := ["content", "a"], ["content", "a", "b"];
    assert ["content", "a", "b", "x"] in t.files && src < ["content", "a", "b", "x"] && dst < ["content", "a", "b", "x"];
    assert DirAt(t, src) && DirAt(t, dst);
    assert Cleared(t, src, dst) == Removed(t, dst);
  }

  // ---- When a COPY keeps its source ----

  /** What was to be copied is all there afterwards: the file, or every member of the collection. */
  ghost predicate Kept(t: Tree, src: Path, t': Tree) {
    if src in t.files then src in t'.files && t'.files[src] == t.files[src]
    else
      && (forall f :: f in t.files && src < f ==> f in t'.files && t'.files[f] == t.files[f])
      && (forall m :: m in t.markers && src <= m ==> m in t'.markers)
  }

  /** What dst held is in the source besides, so that the copy brings it back. */
  ghost predicate BroughtBack(t: Tree, src: Path, dst: Path) {
    && (forall f :: f in t.files && dst <= f ==>
          Origin(src, dst, f) in t.files && !(dst <= Origin(src, dst, f)) && t.files[Origin(src, dst, f)] == t.files[f])
    && (forall m :: m in t.markers && dst <= m ==> m == dst || (Origin(src, dst, m) in t.markers && !(dst <= Origin(src, dst, m))))
  }

  /** Members that are written at members carry what is there. */
  ghost predicate LandsAlike(t: Tree, src: Path, dst: Path) {
    forall f :: f in Members(t, src) && Image(src, dst, f) in Members(t, src) ==> t.files[Image(src, dst, f)] == t.files[f]
  }

  ghost predicate KeepsSource(t: Tree, src: Path, dst: Path) {
    if FileAt(t, src) then dst == src ==> !DirAt(t, src)
    else if dst <= src then LandsAlike(t, src, dst)
    else src <= dst && Exists(t, dst) ==> !FileAt(t, dst) && BroughtBack(t, src, dst)
  }

  /** A COPY that goes through keeps its whole source, in whatever order it goes, exactly when: a file
      is not copied to itself where it is a collection too; a collection copied onto a file above
      itself has, wherever a member is written at a member, the same data there; a collection copied
      onto a collection below itself has all that this held elsewhere, in the same places. */
  lemma CopyKeepsSourceExactly(t: Tree, src: Path, dst: Path, t': Tree)
    requires Transferred(t, src, dst, false, t') && src != [] && dst != []
    requires Exists(t, src) && Exists(Cleared(t, src, dst), src)
    ensures Kept(t, src, t') <==> KeepsSource(t, src, dst)
  {
    SourceSurvivesExactly(t, src, dst);
    PrefixCases(dst, src);
    PrefixCases(src, dst);
    hide *;
    if src in t.files {
      FileKept(t, src, dst, t');
    } else if dst <= src {
      KeptOntoAbove(t, src, dst, t');
    } else if src <= dst && Exists(t, dst) {
      KeptOntoBelow(t, src, dst, t');
    } else {
      KeptElsewhere(t, src, dst, t');
    }
  }

  lemma FileKept(t: Tree, src: Path, dst: Path, t': Tree)
    requires Transferred(t, src, dst, false, t') && src != [] && src in t.files && Spared(t, src, dst)
    ensures Kept(t, src, t') <==> KeepsSource(t, src, dst)
  {
    var t1 := Cleared(t, src, dst);
    PrefixCases(dst, src);
    if dst == src && DirAt(t, src) {
      var order :| Lists(order, Members(t1, src)) && t'.files == Written(t1.files, src, dst, order);
      WrittenAt(t1.files, src, dst, order, src);
      ImageOfOrigin(src, dst, src, src);
      assert src !in order;
    } else if dst == src {
      assert t1 == t;
    } else {
      assert src in t1.files && t1.files[src] == t.files[src];
    }
  }

  /** Which files there are after the writes, and which have not changed. */
  lemma {:induction false} WrittenAt(files: map<Path, Data>, src: Path, dst: Path, order: seq<Path>, q: Path)
    requires forall f :: f in order ==> src <= f && f in files
    ensures q in Written(files, src, dst, order) <==> q in files || (dst <= q && Origin(src, dst, q) in order)
    ensures q in files && !(dst <= q && Origin(src, dst, q) in order) ==> Written(files, src, dst, order)[q] == files[q]
  {
    if order != [] {
      InitAndLast(order);
      var f := Last(order);
      forall g | g in Init(order) ensures g in order {
      }
      WrittenAt(files, src, dst, Init(order), q);
      WrittenAt(files, src, dst, Init(order), f);
      assert f in order;
      ImageOfOrigin(src, dst, f, q);
    }
  }

  lemma {:induction false} MembersStayExactly(files: map<Path, Data>, src: Path, dst: Path, order: seq<Path>, members: set<Path>, listed: set<Path>)
    requires Lists(order, listed) && listed <= members && forall f :: f in members ==> src <= f && f in files
    ensures members <= Written(files, src, dst, order).Keys
    ensures (forall q :: q in members ==> Written(files, src, dst, order)[q] == files[q])
            <==> forall f :: f in listed && Image(src, dst, f) in members ==> files[Image(src, dst, f)] == files[f]
  {
    forall q | q in members ensures q in Written(files, src, dst, order) {
      WrittenAt(files, src, dst, order, q);
    }
    if order == [] {
      assert forall f :: f in listed ==> f in order;
    } else {
      var f := Last(order);
      ListsLess(order, listed);
      MembersStayExactly(files, src, dst, Init(order), members, listed - {f});
      LastWriteCounts(files, src, dst, order, members, listed);
    }
  }

  lemma LastWriteCounts(files: map<Path, Data>, src: Path, dst: Path, order: seq<Path>, members: set<Path>, listed: set<Path>)
    requires order != [] && Lists(order, listed) && listed <= members && (forall f :: f in members ==> src <= f && f in files)
    requires Last(order) in members && members <= Written(files, src, dst, Init(order)).Keys && members <= Written(files, src, dst, order).Keys
    ensures (forall q :: q in members ==> Written(files, src, dst, order)[q] == files[q])
            <==> (forall q :: q in members ==> Written(files, src, dst, Init(order))[q] == files[q])
                 && (Image(src, dst, Last(order)) in members ==> files[Image(src, dst, Last(order))] == files[Last(order)])
  {
    var f := Last(order);
    ListsLess(order, listed);
    var p := Image(src, dst, f);
    ImageOfOrigin(src, dst, f, p);
    if p in members {
      WrittenAt(files, src, dst, Init(order), p);
    }
  }

  lemma KeptOntoAbove(t: Tree, src: Path, dst: Path, t': Tree)
    requires Transferred(t, src, dst, false, t') && src !in t.files && dst <= src && Spared(t, src, dst)
    ensures Kept(t, src, t') <==> KeepsSource(t, src, dst)
  {
    var t1 := Cleared(t, src, dst);
    var order :| Lists(order, Members(t1, src)) && t'.files == Written(t1.files, src, dst, order);
    forall f | src < f ensures f in t1.files <==> f in t.files {
      assert |f| > |dst|;
    }
    assert Members(t1, src) == Members(t, src);
    MembersStayExactly(t1.files, src, dst, order, Members(t, src), Members(t, src));
    assert t1.markers == t.markers;
    hide Cleared;
    hide Lists;
    hide Written;
    assert Kept(t, src, t') <==> forall q :: q in Members(t, src) ==> t'.files[q] == t1.files[q];
  }

  lemma KeptElsewhere(t: Tree, src: Path, dst: Path, t': Tree)
    requires Transferred(t, src, dst, false, t') && src !in t.files && !(dst <= src) && (src <= dst ==> !Exists(t, dst))
    ensures Kept(t, src, t')
  {
    var t1 := Cleared(t, src, dst);
    if src <= dst {
      assert t1 == t;
      forall f | f in t.files ensures !(dst <= f) {
        PrefixCases(dst, f);
      }
    } else {
      ApartIsSafe(t1, src, dst);
      assert SameOutside(t, t1, dst);
    }
    TransferIsOutside(t, src, dst, t');
    forall q | src <= q && (q in t.files || q in t.markers) ensures !(dst <= q) {
      PrefixesCompare(src, dst, q);
      PrefixCases(dst, q);
    }
  }

  lemma TransferIsOutside(t: Tree, src: Path, dst: Path, t': Tree)
    requires Transferred(t, src, dst, false, t') && Safe(Cleared(t, src, dst), src, dst)
    ensures SameOutside(t, t', dst)
  {
    var t1 := Cleared(t, src, dst);
    SafelyCopied(t1, src, dst, t');
    assert SameOutside(t, t1, dst);
    CopiedOutside(t1, src, dst, t');
    OutsideTwice(t, t1, t', dst);
  }

  lemma KeptOntoBelow(t: Tree, src: Path, dst: Path, t': Tree)
    requires Transferred(t, src, dst, false, t') && src !in t.files && src < dst && Exists(t, dst)
    ensures Kept(t, src, t') <==> KeepsSource(t, src, dst)
  {
    var t1 := Cleared(t, src, dst);
    if FileAt(t, dst) {
      var order :| Lists(order, Members(t1, src)) && t'.files == Written(t1.files, src, dst, order);
      assert dst !in t1.files;
      WrittenAt(t1.files, src, dst, order, dst);
      ImageOfOrigin(src, dst, src, dst);
      assert dst !in t'.files;
    } else {
      forall q | dst <= q ensures q !in t1.files && q !in t1.markers {
        PrefixCases(dst, q);
      }
      SafelyCopied(t1, src, dst, t');
      hide Transferred;
      hide CopiedBy;
      hide Exists;
      KeptIfBack(t, src, dst, t1, t');
    }
  }

  lemma KeptIfBack(t: Tree, src: Path, dst: Path, t1: Tree, t': Tree)
    requires t1 == Removed(t, dst) && src !in t.files && dst !in t.files && src < dst && Copied(t1, src, dst, t')
    ensures Kept(t, src, t') <==> BroughtBack(t, src, dst)
  {
    forall q | Within(dst, q) ensures src < q && q !in t1.files && q !in t1.markers {
      PrefixCases(dst, q);
      PrefixesChain(src, dst, q);
    }
    forall q | !Within(dst, q)
      ensures (q in t1.files <==> q in t.files) && (q in t1.files ==> t1.files[q] == t.files[q])
      ensures q in t1.markers <==> q in t.markers
    {
    }
    CopiedOutside(t1, src, dst, t');
    forall q | Within(dst, q)
      ensures q in t'.files <==> Origin(src, dst, q) in t.files && !Within(dst, Origin(src, dst, q))
      ensures q in t'.files ==> t'.files[q] == t.files[Origin(src, dst, q)]
      ensures q in t'.markers <==> q == dst || (Origin(src, dst, q) in t.markers && !Within(dst, Origin(src, dst, q)))
    {
      var p := Origin(src, dst, q);
      ImageOfOrigin(src, dst, src, q);
      assert src <= p;
      PrefixCases(src, p);
    }
    hide Copied;
    hide Removed;
    hide CopiedPart;
    assert forall q :: dst <= q <==> Within(dst, q);
  }

  // ---- When a MOVE brings everything along ----

  /** What was to be moved is where it was to go: the file, or every member of the collection. */
  ghost predicate Arrived(t: Tree, src: Path, dst: Path, t': Tree) {
    if src in t.files then dst in t'.files && t'.files[dst] == t.files[src]
    else
      && (forall f :: f in Members(t, src) ==> Image(src, dst, f) in t'.files && t'.files[Image(src, dst, f)] == t.files[f])
      && (forall m :: m in t.markers && src <= m ==> Image(src, dst, m) in t'.markers)
  }

  /** Nothing is to go where the source is. */
  ghost predicate LandsClear(t: Tree, src: Path, dst: Path) {
    || src in t.files
    || ((forall f :: f in Members(t, src) ==> !(src <= Image(src, dst, f)))
        && (forall m :: m in t.markers && src <= m ==> !(src <= Image(src, dst, m))))
  }

  /** A MOVE that goes through brings everything along, in whatever order it goes, exactly when it
      moves a file, or no member of the collection is to go at or below the collection itself. */
  lemma MoveArrivesExactly(t: Tree, src: Path, dst: Path, t': Tree)
    requires Transferred(t, src, dst, true, t') && src != [] && dst != [] && !(src <= dst)
    requires Exists(t, src) && Exists(Cleared(t, src, dst), src)
    ensures Arrived(t, src, dst, t') <==> LandsClear(t, src, dst)
  {
    var t1 := Cleared(t, src, dst);
    var t2 :| CopiedBy(t1, src, dst, t2) && t' == Removed(t2, src);
    MembersSpared(t, src, dst);
    if src in t.files {
      assert src in t1.files && t1.files[src] == t.files[src];
    } else {
      hide Cleared;
      var order :| Lists(order, Members(t1, src)) && t2.files == Written(t1.files, src, dst, order);
      hide Written;
      hide Lists;
      hide Removed;
      assert Members(t1, src) == Members(t, src);
      if LandsClear(t, src, dst) {
        ClearLandingArrives(t, src, dst, t1, order, t2);
      } else {
        LandingIsLost(t, src, dst, t1, order, t2);
      }
    }
  }

  /** What is to be moved is still there when the destination has been cleared. */
  lemma MembersSpared(t: Tree, src: Path, dst: Path)
    requires src != [] && dst != [] && !(src <= dst) && Exists(t, src) && Exists(Cleared(t, src, dst), src)
    ensures SameBelow(t, Cleared(t, src, dst), src)
  {
    var t1 := Cleared(t, src, dst);
    SourceSurvivesExactly(t, src, dst);
    if dst <= src {
      assert t1.markers == t.markers;
      forall q | Within(src, q) ensures q != dst {
        assert |q| > |dst|;
      }
    } else {
      assert SameOutside(t, t1, dst);
      SourceSame(t, t1, src, dst);
    }
  }

  /** Where nothing that is read is written over, everything arrives in any order. */
  lemma {:induction false} WrittenArrives(files: map<Path, Data>, src: Path, dst: Path, order: seq<Path>, listed: set<Path>)
    requires Lists(order, listed) && forall f :: f in listed ==> src <= f && f in files && Image(src, dst, f) !in listed
    ensures forall f :: f in listed ==>
                          Image(src, dst, f) in Written(files, src, dst, order) && Written(files, src, dst, order)[Image(src, dst, f)] == files[f]
  {
    if order == [] {
      assert forall f :: f in listed ==> f in order;
    } else {
      var f := Last(order);
      ListsLess(order, listed);
      WrittenArrives(files, src, dst, Init(order), listed - {f});
      WrittenAt(files, src, dst, Init(order), f);
      if dst <= f && Origin(src, dst, f) in listed {
        ImageOfOrigin(src, dst, Origin(src, dst, f), f);
      }
      forall g | g in listed && Image(src, dst, g) == Image(src, dst, f) ensures g == f {
        ImageOfOrigin(src, dst, f, Image(src, dst, g));
        ImageOfOrigin(src, dst, g, Image(src, dst, g));
      }
    }
  }

  /** Of the files after the copy, those at or below the source are old or images. */
  lemma ClearLandingArrives(t: Tree, src: Path, dst: Path, t1: Tree, order: seq<Path>, t2: Tree)
    requires SameBelow(t, t1, src) && src !in t.files && LandsClear(t, src, dst) && CopiedBy(t1, src, dst, t2)
    requires Lists(order, Members(t, src)) && t2.files == Written(t1.files, src, dst, order)
    ensures Arrived(t, src, dst, Removed(t2, src))
  {
    var members := Members(t, src);
    assert forall f :: f in members ==> Within(src, f) && f in t1.files && t1.files[f] == t.files[f];
    WrittenArrives(t1.files, src, dst, order, members);
    WrittenAt(t1.files, src, dst, order, src);
    assert Within(src, src) && src !in t1.files;
    if dst <= src && Origin(src, dst, src) in members {
      ImageOfOrigin(src, dst, Origin(src, dst, src), src);
    }
    assert src !in t2.files;
    hide Lists;
    hide Written;
    forall m | m in t.markers && src <= m ensures Image(src, dst, m) in t2.markers {
      assert Within(src, m) && m in Marks(t1, src);
      ImageOfOrigin(src, dst, m, Image(src, dst, m));
    }
  }

  lemma LandingIsLost(t: Tree, src: Path, dst: Path, t1: Tree, order: seq<Path>, t2: Tree)
    requires SameBelow(t, t1, src) && src !in t.files && !LandsClear(t, src, dst)
    requires Lists(order, Members(t, src)) && t2.files == Written(t1.files, src, dst, order)
    ensures !Arrived(t, src, dst, Removed(t2, src))
  {
    var members := Members(t, src);
    assert forall f :: f in members ==> Within(src, f) && f in t1.files;
    WrittenAt(t1.files, src, dst, order, src);
    assert Within(src, src) && src !in t1.files;
    var t' := Removed(t2, src);
    if src in t2.files {
      var g := Origin(src, dst, src);
      assert g in members;
      ImageOfOrigin(src, dst, g, src);
      assert Image(src, dst, g) == src && src !in t'.files;
    } else if f :| f in members && src <= Image(src, dst, f) {
      PrefixCases(src, Image(src, dst, f));
      assert Image(src, dst, f) !in t'.files;
    } else {
      var m :| m in t.markers && src <= m && src <= Image(src, dst, m);
      assert Image(src, dst, m) !in t'.markers;
    }
  }

  /** A MOVE onto a file above can delete all it was to move, and report success. */
  lemma NestedMoveCanLoseAll(t': Tree)
    ensures var t := Tree(map[["content", "a"] := "old", ["content", "a", "b", "b", "x"] := "data"], {});
            var src, dst: Path := ["content", "a", "b"], ["content", "a"];
            && Exists(t, src) && Exists(Cleared(t, src, dst), src) && !LandsClear(t, src, dst)
            && (Transferred(t, src, dst, true, t') ==> t'.files == map[])
  {
    var top, deep: Path := ["content", "a"], ["content", "a", "b", "b", "x"];
    var src, dst: Path := ["content", "a", "b"], top;
    var t := Tree(map[top := "old", deep := "data"], {});
    assert deep in t.files && src < deep && dst < deep;
    assert DirAt(t, src);
    assert Members(t, src) == {deep} && Image(src, dst, deep) == ["content", "a", "b", "x"];
    var t1 := Cleared(t, src, dst);
    assert t1 == Removed(t, dst) && t1.files.Keys == {deep};
    assert Members(t1, src) == {deep} && DirAt(t1, src);
    assert forall f :: f in t1.files ==> f == deep;
    hide *;
    AllLandsBelow(t, src, dst, t1, t');
  }

  lemma AllLandsBelow(t: Tree, src: Path, dst: Path, t1: Tree, t': Tree)
    requires t1 == Cleared(t, src, dst) && forall f :: f in t1.files ==> src < f && src < Image(src, dst, f)
    ensures Transferred(t, src, dst, true, t') ==> t'.files == map[]
  {
    if Transferred(t, src, dst, true, t') {
      var t2 :| CopiedBy(t1, src, dst, t2) && t' == Removed(t2, src);
      var order :| Lists(order, Members(t1, src)) && t2.files == Written(t1.files, src, dst, order);
      hide Written;
      hide Cleared;
      forall q | q in t2.files ensures src < q {
        WrittenAt(t1.files, src, dst, order, q);
        if q !in t1.files {
          ImageOfOrigin(src, dst, Origin(src, dst, q), q);
        }
      }
      assert src !in t2.files;
    }
  }

  // ---- When the destination is what the source was ----

  /** Below src and below dst the same is seen. */
  ghost predicate AlikeBelow(t: Tree, src: Path, dst: Path) {
    forall rel: Path :: rel != [] ==>
      && (dst + rel in t.files <==> src + rel in t.files)
      && (src + rel in t.files && dst + rel in t.files ==> t.files[dst + rel] == t.files[src + rel])
      && (DirAt(t, dst + rel) <==> DirAt(t, src + rel))
  }

  /** Whatever is below dst is below src too. */
  ghost predicate CoveredBelow(t: Tree, src: Path, dst: Path) {
    && (forall rel: Path :: rel != [] && dst + rel in t.files ==> src + rel in t.files)
    && (forall rel: Path :: dst + rel in t.markers ==> DirAt(t, src + rel))
  }

  ghost predicate EndsAlike(t: Tree, src: Path, dst: Path) {
    if !Hybrid(t, dst) then !Hybrid(t, src)
    else if Hybrid(t, src) then AlikeBelow(t, src, dst)
    else !FileAt(t, src) && CoveredBelow(t, src, dst)
  }

  /** The destination of a full transfer between separate paths is what the source was exactly when
      neither is a file and a collection at once; or both are and the same is below them; or the
      source is a collection, and has all that is below the file at the destination. */
  lemma TransferIsExactly(t: Tree, src: Path, dst: Path, move: bool, t': Tree)
    requires Relocated(t, src, dst, move, t') && Apart(src, dst) && Exists(t, src)
    ensures SameVisible(t, src, t', dst) <==> EndsAlike(t, src, dst)
  {
    var t1 := Cleared(t, src, dst);
    var t2 :| Copied(t1, src, dst, t2) && t' == if move then Removed(t2, src) else t2;
    if move {
      MoveKeepsCopy(t2, src, dst);
      SeenEitherWay(t, src, t2, dst, t');
    }
    assert Relocated(t, src, dst, false, t2);
    hide Relocated;
    hide SameVisible;
    hide Copied;
    if !Hybrid(t, dst) && !Hybrid(t, src) {
      RelocationIsExact(t, src, dst, false, t2);
    } else if !Hybrid(t, dst) {
      HybridOntoPlain(t, src, dst, t1, t2);
    } else if FileAt(t, src) {
      FileOntoHybrid(t, src, dst, t1, t2);
    } else {
      CollectionOntoHybrid(t, src, dst, t1, t2);
    }
  }

  lemma SeenEitherWay(t: Tree, src: Path, t2: Tree, dst: Path, t': Tree)
    requires SameBelow(t2, t', dst)
    ensures SameVisible(t, src, t2, dst) <==> SameVisible(t, src, t', dst)
  {
    assert SameBelow(t', t2, dst);
    if SameVisible(t, src, t2, dst) {
      SeenAfterMove(t, src, t2, dst, t');
    }
    if SameVisible(t, src, t', dst) {
      SeenAfterMove(t, src, t', dst, t2);
    }
  }

  /** All but the file of such a source is left behind. */
  lemma HybridOntoPlain(t: Tree, src: Path, dst: Path, t1: Tree, t2: Tree)
    requires t1 == Cleared(t, src, dst) && Copied(t1, src, dst, t2)
    requires Apart(src, dst) && Hybrid(t, src) && !Hybrid(t, dst)
    ensures !SameVisible(t, src, t2, dst)
  {
    ClearedIsClear(t, src, dst);
    assert src in t1.files;
    forall q | q in t2.files || q in t2.markers ensures dst <= q ==> q == dst && q !in t2.markers {
      ImageOfOrigin(src, dst, src, q);
    }
    assert !DirAt(t2, dst);
    assert src + [] == src && dst + [] == dst;
    assert !DirAt(t2, dst + []) && DirAt(t, src + []);
  }

  lemma OneFileOver(t: Tree, src: Path, dst: Path, t2: Tree, q: Path)
    requires src in t.files && dst in t.files && src != dst && Copied(Tree(t.files - {dst}, t.markers), src, dst, t2)
    ensures q in t2.files <==> q in t.files
    ensures q in t.files ==> t2.files[q] == if q == dst then t.files[src] else t.files[q]
    ensures q in t2.markers <==> q in t.markers
  {
    ImageOfOrigin(src, dst, src, q);
    assert Image(src, dst, src) == dst;
  }

  lemma FileOntoHybrid(t: Tree, src: Path, dst: Path, t1: Tree, t2: Tree)
    requires t1 == Cleared(t, src, dst) && Copied(t1, src, dst, t2)
    requires Apart(src, dst) && FileAt(t, src) && Hybrid(t, dst)
    ensures SameVisible(t, src, t2, dst) <==> Hybrid(t, src) && AlikeBelow(t, src, dst)
  {
    assert t1 == Tree(t.files - {dst}, t.markers);
    forall q
      ensures q in t2.files <==> q in t.files
      ensures q in t.files ==> t2.files[q] == if q == dst then t.files[src] else t.files[q]
      ensures q in t2.markers <==> q in t.markers
    {
      OneFileOver(t, src, dst, t2, q);
    }
    hide Cleared;
    hide Copied;
    hide SameVisible;
    SeenWhereOver(t, src, dst, t2);
  }

  lemma SeenWhereOver(t: Tree, src: Path, dst: Path, t2: Tree)
    requires src in t.files && dst in t.files && DirAt(t, dst)
    requires forall q :: q in t2.files <==> q in t.files
    requires forall q :: q in t.files ==> t2.files[q] == if q == dst then t.files[src] else t.files[q]
    requires forall q :: q in t2.markers <==> q in t.markers
    ensures SameVisible(t, src, t2, dst) <==> DirAt(t, src) && AlikeBelow(t, src, dst)
  {
    forall q ensures DirAt(t2, q) <==> DirAt(t, q) {
    }
    hide DirAt;
    forall rel: Path ensures dst + rel == dst <==> rel == [] {
      OriginOfSum(src, dst, rel);
    }
    assert src + [] == src && dst + [] == dst;
    if SameVisible(t, src, t2, dst) {
      assert DirAt(t2, dst + []) <==> DirAt(t, src + []);
    }
  }

  lemma CollectionOntoHybrid(t: Tree, src: Path, dst: Path, t1: Tree, t2: Tree)
    requires t1 == Cleared(t, src, dst) && Copied(t1, src, dst, t2)
    requires Apart(src, dst) && !FileAt(t, src) && DirAt(t, src) && Hybrid(t, dst)
    ensures SameVisible(t, src, t2, dst) <==> CoveredBelow(t, src, dst)
  {
    assert t1 == Tree(t.files - {dst}, t.markers);
    forall rel: Path
      ensures dst + rel in t2.files <==> src + rel in t.files || (rel != [] && dst + rel in t.files)
      ensures src + rel in t.files ==> dst + rel in t2.files && t2.files[dst + rel] == t.files[src + rel]
      ensures dst + rel in t2.markers <==> dst + rel in t.markers || src + rel in t.markers || rel == []
    {
      UnionAt(t, src, dst, t1, t2, rel);
    }
    assert src + [] == src && dst + [] == dst;
    hide Copied;
    hide Hybrid;
    hide Apart;
    UnionIsSeen(t, src, dst, t2);
  }

  lemma UnionAt(t: Tree, src: Path, dst: Path, t1: Tree, t2: Tree, rel: Path)
    requires t1 == Tree(t.files - {dst}, t.markers) && Copied(t1, src, dst, t2)
    requires Apart(src, dst) && src !in t.files
    ensures dst + rel in t2.files <==> src + rel in t.files || (rel != [] && dst + rel in t.files)
    ensures src + rel in t.files ==> dst + rel in t2.files && t2.files[dst + rel] == t.files[src + rel]
    ensures dst + rel in t2.markers <==> dst + rel in t.markers || src + rel in t.markers || rel == []
  {
    OriginOfSum(src, dst, rel);
    assert src <= src + rel;
    assert src + rel != dst;
  }

  lemma UnionIsSeen(t: Tree, src: Path, dst: Path, t2: Tree)
    requires DirAt(t, src) && src != [] && dst != []
    requires forall rel: Path :: dst + rel in t2.files <==> src + rel in t.files || (rel != [] && dst + rel in t.files)
    requires forall rel: Path :: src + rel in t.files ==> dst + rel in t2.files && t2.files[dst + rel] == t.files[src + rel]
    requires forall rel: Path :: dst + rel in t2.markers <==> dst + rel in t.markers || src + rel in t.markers || rel == []
    requires src + [] == src
    ensures SameVisible(t, src, t2, dst) <==> CoveredBelow(t, src, dst)
  {
    forall rel: Path
      ensures src + rel in t.markers ==> DirAt(t, src + rel) && DirAt(t2, dst + rel)
      ensures dst + rel in t.markers ==> DirAt(t2, dst + rel)
      ensures rel == [] ==> DirAt(t, src + rel)
    {
    }
    hide DirAt;
    forall rel: Path ensures DirAt(t, src + rel) ==> DirAt(t2, dst + rel) {
      DirCarries(t, src, t2, dst, rel);
    }
    if CoveredBelow(t, src, dst) {
      forall rel: Path ensures DirAt(t2, dst + rel) ==> DirAt(t, src + rel) {
        DirCarries(t2, dst, t, src, rel);
      }
    }
  }
}
