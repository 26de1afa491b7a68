/** COPY and MOVE over the virtual tree: what a full-depth transfer leaves, and when it destroys
    what it was to transfer. */
module DavTree {
  import opened Prelude

  type Path = seq<string>
  type Data = string

  /** The protected workspace every path lies in. */
  const ROOT: Path := ["content"]

  /** The index: files by path, and the marker records that make empty collections visible. */
  datatype Tree = Tree(files: map<Path, Data>, markers: set<Path>)

  predicate FileAt(t: Tree, p: Path) { p in t.files }

  /** A collection exists by its marker or by anything below it. */
  predicate DirAt(t: Tree, p: Path) {
    p == [] || p in t.markers || (exists f :: f in t.files && p < f) || (exists m :: m in t.markers && p < m)
  }

  predicate Exists(t: Tree, p: Path) { FileAt(t, p) || DirAt(t, p) }

  /** A path that is a file and a collection at once. */
  predicate Hybrid(t: Tree, p: Path) { FileAt(t, p) && DirAt(t, p) }

  predicate Within(p: Path, q: Path) { p <= q }

  predicate Apart(p: Path, q: Path) { !(p <= q) && !(q <= p) }

  // ---- Removal ----

  /** What removing p takes away: the file there, else everything below. */
  predicate Targeted(t: Tree, p: Path, f: Path) { if p in t.files then f == p else p < f }

  predicate TargetedMarker(t: Tree, p: Path, m: Path) { p !in t.files && p <= m }

  function TargetFiles(t: Tree, p: Path): set<Path> { set f | f in t.files && Targeted(t, p, f) }

  function TargetMarkers(t: Tree, p: Path): set<Path> { set m | m in t.markers && TargetedMarker(t, p, m) }

  function Removed(t: Tree, p: Path): Tree { Tree(t.files - TargetFiles(t, p), t.markers - TargetMarkers(t, p)) }

  predicate NothingToRemove(t: Tree, p: Path) { TargetFiles(t, p) == {} && TargetMarkers(t, p) == {} }

  /** How many manifests removing p writes. */
  function RemoveCost(t: Tree, p: Path): nat { |TargetFiles(t, p)| + |TargetMarkers(t, p)| }

  // ---- Copies ----

  /** Where the thing at q, below dst, comes from. */
  function Origin(src: Path, dst: Path, q: Path): Path
    requires dst <= q
  {
    src + q[|dst|..]
  }

  function Image(src: Path, dst: Path, p: Path): Path
    requires src <= p
  {
    dst + p[|src|..]
  }

  /** t' is t with the files and markers of `done` copied from src to dst. */
  ghost predicate CopiedPart(t: Tree, src: Path, dst: Path, files: set<Path>, marks: set<Path>, t': Tree) {
    && (forall q :: q in t'.files <==> q in t.files || (dst <= q && Origin(src, dst, q) in files))
    && (forall q :: q in t'.files ==>
          t'.files[q] == if dst <= q && Origin(src, dst, q) in files && Origin(src, dst, q) in t.files
                         then t.files[Origin(src, dst, q)] else if q in t.files then t.files[q] else "")
    && (forall q :: q in t'.markers <==> q in t.markers || (dst <= q && Origin(src, dst, q) in marks))
  }

  function Members(t: Tree, src: Path): set<Path> { set f | f in t.files && src < f }

  function Marks(t: Tree, src: Path): set<Path> { (set m | m in t.markers && src <= m) + {src} }

  /** The markers that a copy has to make. */
  function NewMarks(t: Tree, src: Path, dst: Path): set<Path> {
    set m | m in Marks(t, src) && src <= m && Image(src, dst, m) !in t.markers
  }

  /** These images exist or may be created. */
  ghost predicate MayPut(creatable: Path -> bool, there: set<Path>, src: Path, dst: Path, sources: set<Path>) {
    forall f :: f in sources && src <= f ==> Image(src, dst, f) in there || creatable(Image(src, dst, f))
  }

  /** One more of them, or one that stands in the way. */
  lemma MayPutMore(creatable: Path -> bool, there: set<Path>, src: Path, dst: Path, all: set<Path>, done: set<Path>, f: Path)
    requires MayPut(creatable, there, src, dst, done) && done <= all && f in all && src <= f
    ensures MayPut(creatable, there, src, dst, done + {f}) <==> Image(src, dst, f) in there || creatable(Image(src, dst, f))
    ensures MayPut(creatable, there, src, dst, all) ==> Image(src, dst, f) in there || creatable(Image(src, dst, f))
  {
  }

  /** How many manifests a copy writes. */
  function CopyCost(t: Tree, src: Path, dst: Path): nat {
    if src in t.files then 1 else |Members(t, src)| + |NewMarks(t, src, dst)|
  }

  /** A collection copied in full, or a file. */
  ghost predicate Copied(t: Tree, src: Path, dst: Path, t': Tree) {
    if src in t.files then CopiedPart(t, src, dst, {src}, {}, t') else CopiedPart(t, src, dst, Members(t, src), Marks(t, src), t')
  }

  /** The files once each of these was read as it then was, in this order, and written at its image. */
  function Written(files: map<Path, Data>, src: Path, dst: Path, order: seq<Path>): map<Path, Data> {
    if order == [] then files else
    var now, f := Written(files, src, dst, Init(order)), Last(order);
    if src <= f && f in now then now[Image(src, dst, f) := now[f]] else now
  }

  ghost predicate Lists(order: seq<Path>, files: set<Path>) {
    (forall f :: f in order <==> f in files) && forall i, j :: 0 <= i < j < |order| ==> order[i] != order[j]
  }

  ghost predicate Marked(marks: set<Path>, src: Path, dst: Path, sources: set<Path>, marks': set<Path>) {
    forall q :: q in marks' <==> q in marks || (dst <= q && Origin(src, dst, q) in sources)
  }

  /** A file copied, or the members of a collection one after the other, whether or not a copy
      writes over what a later one reads. */
  ghost predicate CopiedBy(t: Tree, src: Path, dst: Path, t': Tree) {
    if src in t.files then t' == t.(files := t.files[dst := t.files[src]])
    else
      && Marked(t.markers, src, dst, Marks(t, src), t'.markers)
      && exists order :: Lists(order, Members(t, src)) && t'.files == Written(t.files, src, dst, order)
  }

  /** Nothing outside p has changed. */
  ghost predicate SameOutside(t: Tree, t': Tree, p: Path) {
    && (forall q :: !(p <= q) ==> (q in t'.files <==> q in t.files) && (q in t.files ==> t'.files[q] == t.files[q]))
    && (forall q :: !(p <= q) ==> (q in t'.markers <==> q in t.markers))
  }

  ghost predicate SameOutsideBoth(t: Tree, t': Tree, p: Path, p2: Path) {
    && (forall q :: !(p <= q) && !(p2 <= q) ==> (q in t'.files <==> q in t.files) && (q in t.files ==> t'.files[q] == t.files[q]))
    && (forall q :: !(p <= q) && !(p2 <= q) ==> (q in t'.markers <==> q in t.markers))
  }

  // ---- What a transfer promises ----

  /** The visible tree at dst is the one that was at src: the same files with the same data at
      the same places, and the same collections. */
  ghost predicate SameVisible(t: Tree, src: Path, t': Tree, dst: Path) {
    forall rel: Path ::
      && (dst + rel in t'.files <==> src + rel in t.files)
      && (src + rel in t.files && dst + rel in t'.files ==> t'.files[dst + rel] == t.files[src + rel])
      && (DirAt(t', dst + rel) <==> DirAt(t, src + rel))
  }

  ghost predicate NothingAt(t: Tree, p: Path) { (forall f :: f in t.files ==> !(p <= f)) && (forall m :: m in t.markers ==> !(p <= m)) }

  datatype Status = Created | NoContent | BadRequest | NotFound | PreconditionFailed | ServerError

  predicate Success(s: Status) { s == Created || s == NoContent }

  class Server {
    var tree: Tree
    /** How many more manifest writes will go through. */
    var budget: nat
    /** Which names may be created, and which are reserved. */
    const creatable: Path -> bool
    const reserved: Path -> bool

    constructor (tree: Tree, budget: nat, creatable: Path -> bool, reserved: Path -> bool)
      ensures this.tree == tree && this.budget == budget && this.creatable == creatable && this.reserved == reserved
    {
      this.tree, this.budget, this.creatable, this.reserved := tree, budget, creatable, reserved;
    }

    method DirectoryExists(p: Path) returns (found: bool)
      ensures found == DirAt(tree, p)
    {
      if p == [] || p in tree.markers {
        return true;
      }
      var todo := tree.files.Keys + tree.markers;
      while todo != {}
        invariant todo <= tree.files.Keys + tree.markers
        invariant forall q :: (q in tree.files || q in tree.markers) && q !in todo ==> !(p < q)
      {
        var q :| q in todo;
        if p < q {
          return true;
        }
        todo := todo - {q};
      }
      found := false;
    }

    /** Tombstones the file at p, or everything below it; stops at the first write that fails. */
    method RemovePath(p: Path) returns (ok: bool)
      modifies this`tree, this`budget
      ensures ok ==> p != ROOT && tree == Removed(old(tree), p) && !NothingToRemove(old(tree), p)
      ensures p == ROOT || NothingToRemove(old(tree), p) ==> !ok && tree == old(tree)
      ensures SameOutside(old(tree), tree, p)
      ensures ok <==> p != ROOT && !NothingToRemove(old(tree), p) && old(budget) >= RemoveCost(old(tree), p)
      ensures ok ==> budget == old(budget) - RemoveCost(old(tree), p)
    {
      if p == ROOT {
        return false;
      }
      var files, marks := TargetFiles(tree, p), TargetMarkers(tree, p);
      if files == {} && marks == {} {
        return false;
      }
      ok := TombstoneFiles(files);
      if !ok {
        return;
      }
      ok := TombstoneMarkers(marks);
    }

    method TombstoneFiles(files: set<Path>) returns (ok: bool)
      modifies this`tree, this`budget
      ensures exists gone :: gone <= files && tree == old(tree).(files := old(tree).files - gone) && (ok ==> gone == files)
      ensures ok <==> old(budget) >= |files|
      ensures ok ==> budget == old(budget) - |files|
    {
      var todo := files;
      ghost var gone: set<Path> := {};
      assert tree == tree.(files := tree.files - gone);
      while todo != {}
        invariant gone + todo == files && gone !! todo && |gone| + |todo| == |files|
        invariant tree == old(tree).(files := old(tree).files - gone)
        invariant budget == old(budget) - |gone|
      {
        var f :| f in todo;
        if budget == 0 {
          return false;
        }
        budget := budget - 1;
        tree := tree.(files := tree.files - {f});
        todo, gone := todo - {f}, gone + {f};
      }
      ok := true;
    }

    method TombstoneMarkers(marks: set<Path>) returns (ok: bool)
      modifies this`tree, this`budget
      ensures exists gone :: gone <= marks && tree == old(tree).(markers := old(tree).markers - gone) && (ok ==> gone == marks)
      ensures ok <==> old(budget) >= |marks|
      ensures ok ==> budget == old(budget) - |marks|
    {
      var todo := marks;
      ghost var gone: set<Path> := {};
      assert tree == tree.(markers := tree.markers - gone);
      while todo != {}
        invariant gone + todo == marks && gone !! todo && |gone| + |todo| == |marks|
        invariant tree == old(tree).(markers := old(tree).markers - gone)
        invariant budget == old(budget) - |gone|
      {
        var m :| m in todo;
        if budget == 0 {
          return false;
        }
        budget := budget - 1;
        tree := tree.(markers := tree.markers - {m});
        todo, gone := todo - {m}, gone + {m};
      }
      ok := true;
    }

    /** Puts a marker at p unless there is one. */
    method EnsureDirectory(p: Path) returns (ok: bool)
      modifies this`tree, this`budget
      ensures ok ==> tree == old(tree).(markers := old(tree).markers + {p})
      ensures !ok ==> tree == old(tree)
      ensures ok <==> p in old(tree).markers || (creatable(p) && old(budget) > 0)
      ensures budget == old(budget) - if ok && p !in old(tree).markers then 1 else 0
    {
      if p in tree.markers {
        assert tree.markers + {p} == tree.markers;
        return true;
      }
      if !creatable(p) || budget == 0 {
        return false;
      }
      budget := budget - 1;
      tree := tree.(markers := tree.markers + {p});
      ok := true;
    }

    /** Reads one file and writes it at another path. */
    method CopyFile(src: Path, dst: Path) returns (ok: bool)
      modifies this`tree, this`budget
      ensures ok ==> src in old(tree).files && tree == old(tree).(files := old(tree).files[dst := old(tree).files[src]])
      ensures !ok ==> tree == old(tree)
      ensures ok <==> src in old(tree).files && (dst in old(tree).files || creatable(dst)) && old(budget) > 0
      ensures budget == old(budget) - if ok then 1 else 0
    {
      if src !in tree.files || (dst !in tree.files && !creatable(dst)) || budget == 0 {
        return false;
      }
      budget := budget - 1;
      tree := tree.(files := tree.files[dst := tree.files[src]]);
      ok := true;
    }

    /** Copies a file, or a collection member by member. */
    method CopyPath(src: Path, dst: Path) returns (ok: bool)
      modifies this`tree, this`budget
      ensures ok ==> Exists(old(tree), src) && CopiedBy(old(tree), src, dst, tree)
      ensures ok && Safe(old(tree), src, dst) ==> Copied(old(tree), src, dst, tree)
      ensures !Exists(old(tree), src) || src in old(tree).files ==> ok || tree == old(tree)
      ensures !Exists(old(tree), src) ==> !ok
      ensures SameOutside(old(tree), tree, dst)
      ensures ok <==> Exists(old(tree), src) && MayCopy(old(tree), src, dst) && old(budget) >= CopyCost(old(tree), src, dst)
      ensures ok ==> budget == old(budget) - CopyCost(old(tree), src, dst)
    {
      ghost var t := tree;
      if src in tree.files {
        ok := CopyFile(src, dst);
        if ok {
          OneFileCopied(t, src, dst, tree);
        }
        return;
      }
      var isDir := DirectoryExists(src);
      if !isDir {
        return false;
      }
      ok := CopyCollection(src, dst);
    }

    /** The destination's marker, then every member, then every marker below. */
    method CopyCollection(src: Path, dst: Path) returns (ok: bool)
      requires src !in tree.files
      modifies this`tree, this`budget
      ensures ok ==> CopiedBy(old(tree), src, dst, tree)
      ensures ok && Safe(old(tree), src, dst) ==> Copied(old(tree), src, dst, tree)
      ensures SameOutside(old(tree), tree, dst)
      ensures ok <==> MayCopy(old(tree), src, dst) && old(budget) >= CopyCost(old(tree), src, dst)
      ensures ok ==> budget == old(budget) - CopyCost(old(tree), src, dst)
    {
      ghost var t := tree;
      var files := set f | f in tree.files && src < f;
      var marks := set m | m in tree.markers && src <= m;
      CollectionNeeds(creatable, t, src, dst, files, marks);
      assert MayCopy(t, src, dst) <==>
             MayPut(creatable, t.files.Keys, src, dst, files) && MayPut(creatable, {}, src, dst, NewMarks(t, src, dst));
      assert SameOutside(t, t.(markers := t.markers + {dst}), dst) && SameOutside(t, t, dst);
      hide *;
      ok := EnsureDirectory(dst);
      if !ok {
        return;
      }
      ghost var t1 := tree;
      ghost var order;
      ok, order := CopyFiles(src, dst, files);
      ghost var t2 := tree;
      OutsideTwice(t, t1, t2, dst);
      if !ok {
        return;
      }
      ok := CopyMarkers(src, dst, marks);
      OutsideTwice(t, t2, tree, dst);
      if ok {
        CollectionIsCopied(t, src, dst, order, files, marks, tree);
      }
    }

    method CopyFiles(src: Path, dst: Path, files: set<Path>) returns (ok: bool, ghost order: seq<Path>)
      requires forall f :: f in files ==> f in tree.files && src <= f
      modifies this`tree, this`budget
      ensures ok ==> Lists(order, files) && tree == old(tree).(files := Written(old(tree).files, src, dst, order))
      ensures SameOutside(old(tree), tree, dst)
      ensures ok <==> MayPut(creatable, old(tree).files.Keys, src, dst, files) && old(budget) >= |files|
      ensures ok ==> budget == old(budget) - |files|
    {
      ghost var t := tree;
      order := [];
      var todo := files;
      ghost var done: set<Path> := {};
      hide *;
      FilesAtStart(creatable, t, src, dst, files);
      while todo != {}
        invariant done + todo == files && done !! todo && |done| + |todo| == |files|
        invariant FilesUnderway(t, src, dst, files, done, order, tree)
        invariant budget == old(budget) - |done| && MayPut(creatable, t.files.Keys, src, dst, done)
      {
        var f :| f in todo;
        ok := CopyMember(t, src, dst, files, done, order, f);
        if !ok {
          return;
        }
        order := order + [f];
        todo, done := todo - {f}, done + {f};
      }
      assert done == files;
      FilesInside(t, src, dst, files, done, order, tree);
      ok := true;
    }

    method CopyMember(ghost t: Tree, src: Path, dst: Path, ghost files: set<Path>, ghost done: set<Path>, ghost order: seq<Path>, f: Path)
      returns (ok: bool)
      requires FilesUnderway(t, src, dst, files, done, order, tree) && f in files && f !in done && done <= files && src <= f
      requires MayPut(creatable, t.files.Keys, src, dst, done)
      modifies this`tree, this`budget
      ensures ok ==> FilesUnderway(t, src, dst, files, done + {f}, order + [f], tree) && budget == old(budget) - 1
      ensures ok ==> MayPut(creatable, t.files.Keys, src, dst, done + {f})
      ensures !ok ==> (old(budget) == 0 || !MayPut(creatable, t.files.Keys, src, dst, files)) && SameOutside(t, tree, dst)
    {
      FilesInside(t, src, dst, files, done, order, tree);
      FilesStep(t, src, dst, files, done, order, tree, f);
      MayPutMore(creatable, t.files.Keys, src, dst, files, done, f);
      hide *;
      ok := CopyFile(f, Image(src, dst, f));
    }

    method CopyMarkers(src: Path, dst: Path, marks: set<Path>) returns (ok: bool)
      requires forall m :: m in marks ==> src <= m
      modifies this`tree, this`budget
      ensures tree.files == old(tree).files
      ensures ok ==> Marked(old(tree).markers, src, dst, marks, tree.markers)
      ensures SameOutside(old(tree), tree, dst)
      ensures var unmade := Unmarked(old(tree).markers, src, dst, marks);
              && (ok <==> MayPut(creatable, {}, src, dst, unmade) && old(budget) >= |unmade|)
              && (ok ==> budget == old(budget) - |unmade|)
    {
      ghost var t := tree;
      var todo := marks;
      ghost var done: set<Path> := {};
      hide *;
      MarksAtStart(creatable, t, src, dst, marks);
      while todo != {}
        invariant done + todo == marks && done !! todo
        invariant MarksUnderway(t, src, dst, marks, done, tree)
        invariant budget == old(budget) - |Unmarked(t.markers, src, dst, done)|
        invariant MayPut(creatable, {}, src, dst, Unmarked(t.markers, src, dst, done))
      {
        var m :| m in todo;
        ok := CopyMarker(t, src, dst, marks, done, m);
        UnmarkedMore(t.markers, src, dst, marks, done, m);
        if !ok {
          return;
        }
        todo, done := todo - {m}, done + {m};
      }
      assert done == marks;
      MarksInside(t, src, dst, marks, done, tree);
      ok := true;
    }

    method CopyMarker(ghost t: Tree, src: Path, dst: Path, ghost marks: set<Path>, ghost done: set<Path>, m: Path) returns (ok: bool)
      requires MarksUnderway(t, src, dst, marks, done, tree) && m in marks && m !in done && done <= marks && src <= m
      requires MayPut(creatable, {}, src, dst, Unmarked(t.markers, src, dst, done))
      modifies this`tree, this`budget
      ensures tree.files == t.files && SameOutside(t, tree, dst)
      ensures ok ==> MarksUnderway(t, src, dst, marks, done + {m}, tree)
      ensures ok ==> MayPut(creatable, {}, src, dst, Unmarked(t.markers, src, dst, done + {m}))
      ensures ok ==> budget == old(budget) - (if Image(src, dst, m) in t.markers then 0 else 1)
      ensures !ok ==> Image(src, dst, m) !in t.markers
                      && (old(budget) == 0 || !MayPut(creatable, {}, src, dst, Unmarked(t.markers, src, dst, marks)))
    {
      MarksInside(t, src, dst, marks, done, tree);
      MarksStep(t, src, dst, marks, done, tree, m);
      UnmarkedMore(t.markers, src, dst, marks, done, m);
      if Image(src, dst, m) !in t.markers {
        assert m in Unmarked(t.markers, src, dst, marks);
        MayPutMore(creatable, {}, src, dst, Unmarked(t.markers, src, dst, marks), Unmarked(t.markers, src, dst, done), m);
      }
      hide *;
      ok := EnsureDirectory(Image(src, dst, m));
      if ok {
        MarksInside(t, src, dst, marks, done + {m}, tree);
      }
    }

    /** Every name the copy needs exists or may be created. */
    ghost predicate MayCopy(t: Tree, src: Path, dst: Path) {
      if src in t.files then dst in t.files || creatable(dst)
      else MayPut(creatable, t.files.Keys, src, dst, Members(t, src)) && MayPut(creatable, {}, src, dst, NewMarks(t, src, dst))
    }

    /** There is something to copy, every name is allowed, and the writes suffice. */
    ghost predicate CanCopy(t: Tree, src: Path, dst: Path, budget: nat) {
      var t1 := Cleared(t, src, dst);
      Exists(t1, src) && MayCopy(t1, src, dst) && budget >= ClearCost(t, src, dst) + CopyCost(t1, src, dst)
    }

    ghost predicate CanRemove(t: Tree, src: Path, dst: Path, budget: nat) {
      src != ROOT && budget >= ClearCost(t, src, dst) + CopyCost(Cleared(t, src, dst), src, dst) + RemoveCost(t, src)
    }

    ghost predicate CanCreate(t: Tree, dst: Path, budget: nat) {
      var first := if FileAt(t, dst) then 1 else 0;
      (FileAt(t, dst) ==> dst != ROOT && budget >= 1) && (dst in t.markers || (creatable(dst) && budget >= first + 1))
    }

    /** How a full transfer is answered: by success just when clearing, copying and, for a MOVE between
        separate paths, removing can all go through; not found when the copy cannot. */
    ghost predicate AnsweredBy(t: Tree, src: Path, dst: Path, move: bool, budget: nat, status: Status) {
      && (!CanClear(t, src, dst, budget) ==> status == ServerError)
      && (CanClear(t, src, dst, budget) && !CanCopy(t, src, dst, budget) ==> status == NotFound)
      && (CanClear(t, src, dst, budget) && CanCopy(t, src, dst, budget) ==>
            && (!move ==> Success(status))
            && (move ==> Success(status) || status == ServerError)
            && (move && Apart(src, dst) ==> (Success(status) <==> CanRemove(t, src, dst, budget))))
    }

    /** With every name allowed and writes enough, a transfer between separate paths succeeds. */
    lemma AmpleSucceeds(t: Tree, src: Path, dst: Path, move: bool, budget: nat, status: Status)
      requires Exists(t, src) && Apart(src, dst) && dst != ROOT && src != ROOT && forall p :: creatable(p)
      requires budget >= ClearCost(t, src, dst) + CopyCost(Cleared(t, src, dst), src, dst) + RemoveCost(t, src)
      requires AnsweredBy(t, src, dst, move, budget, status)
      ensures Success(status)
    {
      assert SameOutside(t, Cleared(t, src, dst), dst);
      SourceSame(t, Cleared(t, src, dst), src, dst);
      DirAtBelow(t, Cleared(t, src, dst), src, src);
      assert Within(src, src);
      hide DirAt;
      hide Removed;
    }

    /** A file copied where no collection is takes one write, over a file too, and a name that is there
        or may be; so it is never cleared away first. */
    lemma OneWrite(t: Tree, src: Path, dst: Path, budget: nat, status: Status)
      requires FileAt(t, src) && !DirAt(t, dst) && AnsweredBy(t, src, dst, false, budget, status)
      ensures Success(status) <==> (dst in t.files || creatable(dst)) && budget >= 1
      ensures Success(status) || status == NotFound
    {
    }

    lemma NotCleared(t: Tree, src: Path, dst: Path, move: bool, budget: nat)
      requires !CanClear(t, src, dst, budget)
      ensures AnsweredBy(t, src, dst, move, budget, ServerError)
    {
    }

    lemma AnswerIs(t: Tree, src: Path, dst: Path, move: bool, budget: nat, copied: bool, removed: bool, status: Status)
      requires CanClear(t, src, dst, budget) && budget >= ClearCost(t, src, dst)
      requires var t1, left := Cleared(t, src, dst), budget - ClearCost(t, src, dst);
               && (copied <==> Exists(t1, src) && MayCopy(t1, src, dst) && left >= CopyCost(t1, src, dst))
               && (copied && move && Apart(src, dst) ==> (removed <==> src != ROOT && left >= CopyCost(t1, src, dst) + RemoveCost(t, src)))
      requires (!copied ==> status == NotFound) && (copied && move && !removed ==> status == ServerError)
      requires copied && !(move && !removed) ==> Success(status)
      ensures AnsweredBy(t, src, dst, move, budget, status)
    {
      hide Exists;
      hide MayCopy;
      hide Apart;
    }

    /** COPY or MOVE. */
    method HandleCopyMove(src: Path, dst: Path, move: bool, overwrite: Overwrite, depth: Depth) returns (status: Status)
      modifies this`tree, this`budget
      ensures status == BadRequest <==> Malformed(src, dst, move, overwrite, depth)
      ensures status == BadRequest <==>
              dst == [] || src == [] || reserved(dst) || overwrite == Other || (move && (src <= dst || depth == Zero))
      ensures status != BadRequest && !Exists(old(tree), src) ==> status == NotFound
      ensures status == PreconditionFailed <==>
                status != BadRequest && Exists(old(tree), src) && overwrite == F && Exists(old(tree), dst)
      ensures status == BadRequest || status == PreconditionFailed || !Exists(old(tree), src) ==> tree == old(tree)
      ensures Success(status) ==> (status == NoContent <==> Exists(old(tree), dst))
      ensures Success(status) && CreatesOnly(old(tree), src, move, depth) ==>
                tree == var t := if FileAt(old(tree), dst) then Removed(old(tree), dst) else old(tree);
                        t.(markers := t.markers + {dst})
      ensures Success(status) && !CreatesOnly(old(tree), src, move, depth)
              && (Apart(src, dst) || Safe(Cleared(old(tree), src, dst), src, dst)) ==>
                Relocated(old(tree), src, dst, move, tree)
      ensures Success(status) && !CreatesOnly(old(tree), src, move, depth) ==> Transferred(old(tree), src, dst, move, tree)
      ensures move && Apart(src, dst) && !Success(status) ==> Held(old(tree), src, dst, tree)
      ensures !Success(status) ==> SameOutside(old(tree), tree, dst) || (move && SameOutsideBoth(old(tree), tree, dst, src))
      ensures Exists(old(tree), src) && !Exists(Cleared(old(tree), src, dst), src) && dst != ROOT
              && !CreatesOnly(old(tree), src, move, depth) && overwrite == T ==>
                status == BadRequest || status == ServerError || (status == NotFound && tree == Cleared(old(tree), src, dst))
      ensures status != BadRequest && status != PreconditionFailed && Exists(old(tree), src) ==>
                if CreatesOnly(old(tree), src, move, depth)
                then status == ServerError || Success(status)
                else AnsweredBy(old(tree), src, dst, move, old(budget), status)
      ensures status != BadRequest && status != PreconditionFailed && CreatesOnly(old(tree), src, move, depth) ==>
                (Success(status) <==> CanCreate(old(tree), dst, old(budget)))
      ensures !move && FileAt(old(tree), src) && !DirAt(old(tree), dst) && !Success(status) ==> tree == old(tree)
    {
      if dst == [] || src == [] || reserved(dst) || (move && src <= dst) || overwrite == Other || (move && depth == Zero) {
        UntouchedIsHeld(tree, src, dst, tree);
        return BadRequest;
      }
      var srcIsFile := src in tree.files;
      var found := DirectoryExists(src);
      var srcIsDir := !srcIsFile && found;
      if !srcIsFile && !srcIsDir {
        UntouchedIsHeld(tree, src, dst, tree);
        return NotFound;
      }
      var dstIsFile := dst in tree.files;
      var dstIsDir := DirectoryExists(dst);
      var dstExists := dstIsFile || dstIsDir;
      if overwrite == F && dstExists {
        UntouchedIsHeld(tree, src, dst, tree);
        return PreconditionFailed;
      }
      hide *;
      assert Exists(tree, src) && FileAt(tree, src) == srcIsFile && FileAt(tree, dst) == dstIsFile && DirAt(tree, dst) == dstIsDir by {
        ExistsIs(tree, src);
        ExistsIs(tree, dst);
      }
      assert CreatesOnly(tree, src, move, depth) <==> !move && srcIsDir && depth == Zero by {
        CreatesOnlyIs(tree, src, move, depth);
      }
      assert Exists(tree, dst) == dstExists by {
        ExistsIs(tree, dst);
      }
      if !move && srcIsDir && depth == Zero {
        status := CreateCollection(dst, dstIsFile, dstExists);
      } else {
        status := FullTransfer(src, dst, move, srcIsFile, dstIsFile, dstIsDir);
      }
    }

    /** A COPY of depth 0 makes just the collection, in place of a file if there is one. */
    method CreateCollection(dst: Path, dstIsFile: bool, dstExists: bool) returns (status: Status)
      requires dstIsFile == FileAt(tree, dst) && dstExists == Exists(tree, dst)
      modifies this`tree, this`budget
      ensures Success(status) ==> tree == var t := if FileAt(old(tree), dst) then Removed(old(tree), dst) else old(tree);
                                          t.(markers := t.markers + {dst})
      ensures status == ServerError || Success(status)
      ensures Success(status) ==> (status == NoContent <==> dstExists)
      ensures !Success(status) ==> SameOutside(old(tree), tree, dst)
      ensures Success(status) <==> CanCreate(old(tree), dst, old(budget))
    {
      if dstIsFile {
        FileCost(tree, dst);
        var removed := RemovePath(dst);
        if !removed {
          return ServerError;
        }
      }
      var made := EnsureDirectory(dst);
      if !made {
        return ServerError;
      }
      status := if dstExists then NoContent else Created;
    }

    /** Clears the destination where the kind changes or a collection replaces one, then copies. */
    method FullTransfer(src: Path, dst: Path, move: bool, srcIsFile: bool, dstIsFile: bool, dstIsDir: bool) returns (status: Status)
      requires Exists(tree, src) && src != [] && dst != []
      requires srcIsFile == FileAt(tree, src) && dstIsFile == FileAt(tree, dst) && dstIsDir == DirAt(tree, dst)
      modifies this`tree, this`budget
      ensures status == ServerError || status == NotFound || Success(status)
      ensures Success(status) ==> (status == NoContent <==> dstIsFile || dstIsDir)
      ensures Success(status) && (Apart(src, dst) || Safe(Cleared(old(tree), src, dst), src, dst)) ==>
                Relocated(old(tree), src, dst, move, tree)
      ensures Success(status) ==> Transferred(old(tree), src, dst, move, tree)
      ensures move && Apart(src, dst) && !Success(status) ==> Held(old(tree), src, dst, tree)
      ensures !Success(status) ==> SameOutside(old(tree), tree, dst) || (move && SameOutsideBoth(old(tree), tree, dst, src))
      ensures !Exists(Cleared(old(tree), src, dst), src) && dst != ROOT ==>
                status == ServerError || (status == NotFound && tree == Cleared(old(tree), src, dst))
      ensures AnsweredBy(old(tree), src, dst, move, old(budget), status)
      ensures !move && srcIsFile && !dstIsDir && !Success(status) ==> tree == old(tree)
    {
      ghost var t0 := tree;
      var srcIsDir := !srcIsFile;
      UntouchedIsHeld(t0, src, dst, tree);
      assert SameOutside(t0, tree, dst);
      hide *;
      var clears := ((srcIsFile && dstIsDir) || (srcIsDir && dstIsFile)) || (srcIsDir && dstIsDir);
      assert clears == Clears(t0, src, dst) by { ClearsIs(t0, src, dst, srcIsFile, dstIsFile, dstIsDir); }
      ClearedIs(t0, src, dst, budget);
      if clears {
        var removed := RemovePath(dst);
        UntouchedIsHeld(t0, src, dst, tree);
        if !removed {
          NotCleared(t0, src, dst, move, old(budget));
          return ServerError;
        }
      }
      var copied, removed := CopyThenRemove(t0, src, dst, move);
      status := if !copied then NotFound else if move && !removed then ServerError else if dstIsFile || dstIsDir then NoContent else Created;
      assert Success(status) <==> copied && !(move && !removed) by { StatusIs(status); }
      AnswerIs(t0, src, dst, move, old(budget), copied, removed, status);
    }

    /** Copies into the cleared place, then removes the source of a MOVE. */
    method CopyThenRemove(ghost t0: Tree, src: Path, dst: Path, move: bool) returns (copied: bool, removed: bool)
      requires tree == Cleared(t0, src, dst) && SameOutside(t0, tree, dst) && Exists(t0, src) && src != []
      modifies this`tree, this`budget
      ensures copied <==> Exists(old(tree), src) && MayCopy(old(tree), src, dst) && old(budget) >= CopyCost(old(tree), src, dst)
      ensures copied && move && Apart(src, dst) ==>
                (removed <==> src != ROOT && old(budget) >= CopyCost(old(tree), src, dst) + RemoveCost(t0, src))
      ensures !Exists(Cleared(t0, src, dst), src) ==> !copied && tree == Cleared(t0, src, dst)
      ensures !copied ==> SameOutside(t0, tree, dst) && (src in old(tree).files ==> tree == old(tree))
      ensures copied && !(move && !removed) ==>
                Transferred(t0, src, dst, move, tree)
                && (Apart(src, dst) || Safe(Cleared(t0, src, dst), src, dst) ==> Relocated(t0, src, dst, move, tree))
      ensures copied && move && !removed ==> SameOutsideBoth(t0, tree, dst, src)
      ensures !copied || (move && !removed) ==> Apart(src, dst) ==> Held(t0, src, dst, tree)
    {
      hide *;
      ghost var t1 := tree;
      removed := false;
      copied := CopyPath(src, dst);
      OutsideTwice(t0, t1, tree, dst);
      if !copied {
        UntouchedIsHeld(t0, src, dst, tree);
        return;
      }
      ghost var t2 := tree;
      if move {
        CostStays(t0, src, dst, t2);
        removed := RemovePath(src);
        OutsideBoth(t0, t2, tree, dst, src);
        CopiedIsHeld(t0, src, dst, t2, tree);
        if !removed {
          return;
        }
      }
      TransferredBy(t0, t1, t2, src, dst, move, tree);
      TransferIsRelocation(t0, src, dst, move, tree);
    }

    predicate Malformed(src: Path, dst: Path, move: bool, overwrite: Overwrite, depth: Depth) {
      dst == [] || src == [] || reserved(dst) || (move && src <= dst) || overwrite == Other || (move && depth == Zero)
    }
  }

  /** Every file that was to be moved is where it was or where it goes. */
  ghost predicate Held(t: Tree, src: Path, dst: Path, t': Tree) {
    forall f :: f in (if src in t.files then {src} else Members(t, src)) ==>
      && f in t.files
      && ((f in t'.files && t'.files[f] == t.files[f])
          || (Within(src, f) && Image(src, dst, f) in t'.files && t'.files[Image(src, dst, f)] == t.files[f]))
  }

  lemma UntouchedIsHeld(t: Tree, src: Path, dst: Path, t': Tree)
    requires SameOutside(t, t', dst)
    ensures Apart(src, dst) ==> Held(t, src, dst, t')
  {
    if Apart(src, dst) {
      SourceStays(t, t', src, dst);
      forall f | src <= f ensures Within(src, f) {
      }
    }
  }

  /** A copy that went through has everything, whatever is removed below the source then. */
  lemma CopiedIsHeld(t: Tree, src: Path, dst: Path, t2: Tree, t': Tree)
    requires CopiedBy(Cleared(t, src, dst), src, dst, t2) && SameOutside(t2, t', src)
    ensures Apart(src, dst) ==> Held(t, src, dst, t')
  {
    if Apart(src, dst) {
      var t1 := Cleared(t, src, dst);
      ApartIsSafe(t1, src, dst);
      SafelyCopied(t1, src, dst, t2);
      assert SameOutside(t, t1, dst);
      SourceSame(t, t1, src, dst);
      hide Cleared;
      hide CopiedBy;
      hide Copied;
      hide SameOutside;
      assert Within(src, src);
      forall f | f in t.files && Within(src, f) && (if src in t.files then f == src else src < f)
        ensures Image(src, dst, f) in t'.files && t'.files[Image(src, dst, f)] == t.files[f]
      {
        assert f in t1.files && t1.files[f] == t.files[f];
        ImageIsHeld(t1, src, dst, t2, t', f);
      }
    }
  }

  lemma ImageIsHeld(t1: Tree, src: Path, dst: Path, t2: Tree, t': Tree, f: Path)
    requires Apart(src, dst) && Copied(t1, src, dst, t2) && SameOutside(t2, t', src)
    requires f in t1.files && src <= f && (if src in t1.files then f == src else src < f)
    ensures Image(src, dst, f) in t'.files && t'.files[Image(src, dst, f)] == t1.files[f]
  {
    var q := Image(src, dst, f);
    ImageOfOrigin(src, dst, f, q);
    PrefixesCompare(src, dst, q);
    assert q in t2.files && t2.files[q] == t1.files[f];
  }

  datatype Overwrite = T | F | Other

  datatype Depth = Zero | Full

  /** A Depth 0 COPY of a collection makes the collection without its members. */
  predicate CreatesOnly(t: Tree, src: Path, move: bool, depth: Depth) { !move && depth == Zero && !FileAt(t, src) && DirAt(t, src) }

  /** The destination is cleared for a change of type or a collection over a collection. */
  predicate Clears(t: Tree, src: Path, dst: Path) { (FileAt(t, src) && DirAt(t, dst)) || (!FileAt(t, src) && Exists(t, dst)) }

  function Cleared(t: Tree, src: Path, dst: Path): Tree { if Clears(t, src, dst) then Removed(t, dst) else t }

  function ClearCost(t: Tree, src: Path, dst: Path): nat { if Clears(t, src, dst) then RemoveCost(t, dst) else 0 }

  predicate CanClear(t: Tree, src: Path, dst: Path, budget: nat) {
    Clears(t, src, dst) ==> dst != ROOT && budget >= RemoveCost(t, dst)
  }

  /** What a successful full transfer does. */
  ghost predicate Relocated(t: Tree, src: Path, dst: Path, move: bool, t': Tree) {
    exists t2 :: Copied(Cleared(t, src, dst), src, dst, t2) && t' == if move then Removed(t2, src) else t2
  }

  /** What a successful full transfer does wherever source and destination lie. */
  ghost predicate Transferred(t: Tree, src: Path, dst: Path, move: bool, t': Tree) {
    exists t2 :: CopiedBy(Cleared(t, src, dst), src, dst, t2) && t' == if move then Removed(t2, src) else t2
  }

  /** A collection that was transferred has its marker, so that it stays when its members go. */
  lemma MarkerIsMade(t: Tree, src: Path, dst: Path, move: bool, t': Tree)
    requires Transferred(t, src, dst, move, t') && !FileAt(t, src) && (!move || Apart(src, dst))
    ensures dst in t'.markers
  {
    var t1 := Cleared(t, src, dst);
    var t2 :| CopiedBy(t1, src, dst, t2) && t' == if move then Removed(t2, src) else t2;
    assert src !in t1.files && src in Marks(t1, src);
    assert Origin(src, dst, dst) == src;
  }

  /** The destination is the source or a collection above it. */
  predicate Overreaches(t: Tree, src: Path, dst: Path) {
    Exists(t, src) && dst <= src && !FileAt(t, dst) && dst != ROOT && dst != []
  }

  /** Clearing such a destination takes the source with it. */
  lemma OverreachGone(t: Tree, src: Path, dst: Path)
    ensures Overreaches(t, src, dst) ==> Cleared(t, src, dst) == Removed(t, dst) && !Exists(Cleared(t, src, dst), src)
  {
    if Overreaches(t, src, dst) {
      PrefixCases(dst, src);
      var r := Removed(t, dst);
      forall q | src <= q ensures q !in r.files && q !in r.markers {
        assert dst <= q by { assert q[..|dst|] == src[..|dst|]; }
        PrefixCases(dst, q);
      }
    }
  }

  lemma PrefixesChain(a: Path, b: Path, c: Path)
    ensures a <= b && b <= c ==> a <= c
  {
    if a <= b && b <= c {
      assert a == c[..|b|][..|a|];
    }
  }

  lemma PrefixCases(p: Path, q: Path)
    ensures p <= q ==> p == q || p < q
  {
  }

  lemma OutsideTwice(t: Tree, t1: Tree, t2: Tree, p: Path)
    requires SameOutside(t, t1, p) && SameOutside(t1, t2, p)
    ensures SameOutside(t, t2, p)
  {
  }

  lemma OutsideBoth(t: Tree, t1: Tree, t2: Tree, p: Path, p2: Path)
    requires SameOutside(t, t1, p) && SameOutside(t1, t2, p2)
    ensures SameOutsideBoth(t, t2, p, p2)
  {
  }

  lemma OutsideAfterFile(t: Tree, now: Tree, dst: Path, p: Path, d: Data)
    requires SameOutside(t, now, dst) && dst <= p
    ensures SameOutside(t, now.(files := now.files[p := d]), dst)
  {
  }

  lemma OutsideAfterMarker(t: Tree, now: Tree, dst: Path, p: Path)
    requires SameOutside(t, now, dst) && dst <= p
    ensures SameOutside(t, now.(markers := now.markers + {p}), dst)
  {
  }

  lemma TransferredBy(t: Tree, t1: Tree, t2: Tree, src: Path, dst: Path, move: bool, t': Tree)
    requires t1 == Cleared(t, src, dst) && CopiedBy(t1, src, dst, t2) && t' == if move then Removed(t2, src) else t2
    ensures Transferred(t, src, dst, move, t')
  {
  }

  lemma TransferIsRelocation(t: Tree, src: Path, dst: Path, move: bool, t': Tree)
    requires Transferred(t, src, dst, move, t')
    ensures Apart(src, dst) || Safe(Cleared(t, src, dst), src, dst) ==> Relocated(t, src, dst, move, t')
  {
    var t1 := Cleared(t, src, dst);
    var t2 :| CopiedBy(t1, src, dst, t2) && t' == if move then Removed(t2, src) else t2;
    if Apart(src, dst) {
      ApartIsSafe(t1, src, dst);
    }
    hide Cleared;
    hide Apart;
    if Safe(t1, src, dst) {
      SafelyCopied(t1, src, dst, t2);
    }
  }

  // ---- Steps of a copy ----

  function Unmarked(there: set<Path>, src: Path, dst: Path, marks: set<Path>): set<Path> {
    set m | m in marks && src <= m && Image(src, dst, m) !in there
  }

  /** Half-way through the members of a collection ... */
  ghost predicate FilesUnderway(t: Tree, src: Path, dst: Path, files: set<Path>, done: set<Path>, order: seq<Path>, now: Tree) {
    && Lists(order, done) && now == t.(files := Written(t.files, src, dst, order)) && SameOutside(t, now, dst)
    && forall f :: f in files ==> src <= f && f in now.files && (f !in done ==> (Image(src, dst, f) in now.files <==> Image(src, dst, f) in t.files))
  }

  lemma FilesAtStart(creatable: Path -> bool, t: Tree, src: Path, dst: Path, files: set<Path>)
    requires forall f :: f in files ==> f in t.files && src <= f
    ensures FilesUnderway(t, src, dst, files, {}, [], t) && MayPut(creatable, t.files.Keys, src, dst, {})
  {
    assert t == t.(files := Written(t.files, src, dst, []));
  }

  lemma FilesStep(t: Tree, src: Path, dst: Path, files: set<Path>, done: set<Path>, order: seq<Path>, now: Tree, f: Path)
    requires FilesUnderway(t, src, dst, files, done, order, now) && f in files && f !in done
    ensures src <= f && f in now.files && (Image(src, dst, f) in now.files <==> Image(src, dst, f) in t.files)
    ensures FilesUnderway(t, src, dst, files, done + {f}, order + [f], now.(files := now.files[Image(src, dst, f) := now.files[f]]))
  {
    ImagesDiffer(src, dst, f);
    ImageOfOrigin(src, dst, f, dst);
    WrittenMore(t.files, src, dst, order, f);
    ListsMore(order, done, f);
    OutsideAfterFile(t, now, dst, Image(src, dst, f), now.files[f]);
    hide Written;
    hide Lists;
    hide SameOutside;
  }

  lemma FilesInside(t: Tree, src: Path, dst: Path, files: set<Path>, done: set<Path>, order: seq<Path>, now: Tree)
    requires FilesUnderway(t, src, dst, files, done, order, now)
    ensures SameOutside(t, now, dst) && Lists(order, done) && now == t.(files := Written(t.files, src, dst, order))
  {
  }

  /** ... and through its markers. */
  ghost predicate MarksUnderway(t: Tree, src: Path, dst: Path, marks: set<Path>, done: set<Path>, now: Tree) {
    && now.files == t.files && Marked(t.markers, src, dst, done, now.markers) && SameOutside(t, now, dst)
    && forall m :: m in marks ==> src <= m && (m !in done ==> (Image(src, dst, m) in now.markers <==> Image(src, dst, m) in t.markers))
  }

  lemma MarksAtStart(creatable: Path -> bool, t: Tree, src: Path, dst: Path, marks: set<Path>)
    requires forall m :: m in marks ==> src <= m
    ensures MarksUnderway(t, src, dst, marks, {}, t)
    ensures Unmarked(t.markers, src, dst, {}) == {} && MayPut(creatable, {}, src, dst, {})
  {
  }

  lemma MarksStep(t: Tree, src: Path, dst: Path, marks: set<Path>, done: set<Path>, now: Tree, m: Path)
    requires MarksUnderway(t, src, dst, marks, done, now) && m in marks && m !in done
    ensures src <= m && (Image(src, dst, m) in now.markers <==> Image(src, dst, m) in t.markers)
    ensures MarksUnderway(t, src, dst, marks, done + {m}, now.(markers := now.markers + {Image(src, dst, m)}))
  {
    ImagesDiffer(src, dst, m);
    ImageOfOrigin(src, dst, m, dst);
    MarkedMore(t.markers, src, dst, done, now.markers, m);
    OutsideAfterMarker(t, now, dst, Image(src, dst, m));
    hide Marked;
    hide SameOutside;
  }

  lemma MarksInside(t: Tree, src: Path, dst: Path, marks: set<Path>, done: set<Path>, now: Tree)
    requires MarksUnderway(t, src, dst, marks, done, now)
    ensures SameOutside(t, now, dst) && now.files == t.files && Marked(t.markers, src, dst, done, now.markers)
  {
  }

  lemma ExistsIs(t: Tree, p: Path)
    ensures FileAt(t, p) <==> p in t.files
    ensures Exists(t, p) <==> FileAt(t, p) || DirAt(t, p)
  {
  }

  lemma CreatesOnlyIs(t: Tree, src: Path, move: bool, depth: Depth)
    ensures CreatesOnly(t, src, move, depth) <==> !move && depth == Zero && !FileAt(t, src) && DirAt(t, src)
  {
  }

  lemma StatusIs(status: Status)
    ensures Success(status) <==> status == Created || status == NoContent
  {
  }

  lemma ClearsIs(t: Tree, src: Path, dst: Path, srcIsFile: bool, dstIsFile: bool, dstIsDir: bool)
    requires srcIsFile == FileAt(t, src) && dstIsFile == FileAt(t, dst) && dstIsDir == DirAt(t, dst)
    ensures Clears(t, src, dst) <==> (srcIsFile && dstIsDir) || (!srcIsFile && dstIsFile) || (!srcIsFile && dstIsDir)
  {
  }

  lemma ClearedIs(t: Tree, src: Path, dst: Path, budget: nat)
    requires dst != []
    ensures Clears(t, src, dst) ==> !NothingToRemove(t, dst) && Cleared(t, src, dst) == Removed(t, dst)
    ensures Clears(t, src, dst) ==> (CanClear(t, src, dst, budget) <==> dst != ROOT && budget >= RemoveCost(t, dst))
    ensures Clears(t, src, dst) ==> ClearCost(t, src, dst) == RemoveCost(t, dst)
    ensures !Clears(t, src, dst) ==> Cleared(t, src, dst) == t && CanClear(t, src, dst, budget) && ClearCost(t, src, dst) == 0
  {
    if Clears(t, src, dst) {
      ExistsHasTargets(t, dst);
    }
  }

  lemma ExistsHasTargets(t: Tree, p: Path)
    requires Exists(t, p) && p != []
    ensures !NothingToRemove(t, p)
  {
    if p in t.files {
      assert p in TargetFiles(t, p);
    } else if p in t.markers {
      assert p in TargetMarkers(t, p);
    } else if f :| f in t.files && p < f {
      assert f in TargetFiles(t, p);
    } else {
      var m :| m in t.markers && p < m;
      assert m in TargetMarkers(t, p);
    }
  }

  lemma FileCost(t: Tree, p: Path)
    requires FileAt(t, p)
    ensures RemoveCost(t, p) == 1 && !NothingToRemove(t, p) && Removed(t, p).markers == t.markers
  {
    assert TargetFiles(t, p) == {p} && TargetMarkers(t, p) == {};
  }

  /** What there is to remove at the source of a MOVE does not change meanwhile. */
  lemma CostStays(t0: Tree, src: Path, dst: Path, t2: Tree)
    requires SameOutside(t0, t2, dst) && Exists(t0, src) && src != []
    ensures Apart(src, dst) ==> RemoveCost(t2, src) == RemoveCost(t0, src) && !NothingToRemove(t2, src)
  {
    if Apart(src, dst) {
      SourceStays(t0, t2, src, dst);
      ExistsHasTargets(t0, src);
      assert Within(src, src);
      forall q | src <= q ensures Within(src, q) {
      }
      assert TargetFiles(t2, src) == TargetFiles(t0, src);
      assert TargetMarkers(t2, src) == TargetMarkers(t0, src);
    }
  }

  /** What copying a collection needs, for its members and its markers. */
  lemma CollectionNeeds(creatable: Path -> bool, t: Tree, src: Path, dst: Path, files: set<Path>, marks: set<Path>)
    requires src !in t.files && files == (set f | f in t.files && src < f) && marks == (set m | m in t.markers && src <= m)
    ensures files == Members(t, src) && (forall f :: f in files ==> f in t.files && src <= f) && (forall m :: m in marks ==> src <= m)
    ensures var rest := Unmarked(t.markers + {dst}, src, dst, marks);
            && CopyCost(t, src, dst) == |files| + |rest| + (if dst in t.markers then 0 else 1)
            && (MayPut(creatable, {}, src, dst, NewMarks(t, src, dst)) <==>
                MayPut(creatable, {}, src, dst, rest) && (dst in t.markers || creatable(dst)))
  {
    CopySplits(t, src, dst);
    hide Unmarked;
    hide NewMarks;
  }

  lemma CollectionIsCopied(t: Tree, src: Path, dst: Path, order: seq<Path>, files: set<Path>, marks: set<Path>, t': Tree)
    requires src !in t.files && files == (set f | f in t.files && src < f) && marks == (set m | m in t.markers && src <= m)
    requires Lists(order, files) && t'.files == Written(t.files, src, dst, order)
    requires Marked(t.markers + {dst}, src, dst, marks, t'.markers)
    ensures CopiedBy(t, src, dst, t')
    ensures Safe(t, src, dst) ==> Copied(t, src, dst, t')
  {
    MembersCopied(t, src, dst, order, t');
  }

  /** What a collection's copy writes: the destination's marker, the members, the other markers. */
  lemma CopySplits(t: Tree, src: Path, dst: Path)
    requires src !in t.files
    ensures var rest := Unmarked(t.markers + {dst}, src, dst, set m | m in t.markers && src <= m);
            && (dst in t.markers ==> NewMarks(t, src, dst) == rest)
            && (dst !in t.markers ==> src !in rest && NewMarks(t, src, dst) == rest + {src})
            && |NewMarks(t, src, dst)| == |rest| + (if dst in t.markers then 0 else 1)
            && Image(src, dst, src) == dst
  {
    var rest := Unmarked(t.markers + {dst}, src, dst, set m | m in t.markers && src <= m);
    assert Image(src, dst, src) == dst;
    ImagesDiffer(src, dst, src);
    if dst in t.markers {
      assert NewMarks(t, src, dst) == rest;
    } else {
      assert NewMarks(t, src, dst) == rest + {src};
    }
  }

  lemma ImagesDiffer(src: Path, dst: Path, f: Path)
    requires src <= f
    ensures forall g :: src <= g && Image(src, dst, g) == Image(src, dst, f) ==> g == f
  {
    forall g | src <= g && Image(src, dst, g) == Image(src, dst, f) ensures g == f {
      ImageOfOrigin(src, dst, f, Image(src, dst, f));
      ImageOfOrigin(src, dst, g, Image(src, dst, f));
    }
  }

  lemma UnmarkedMore(there: set<Path>, src: Path, dst: Path, marks: set<Path>, done: set<Path>, m: Path)
    requires done <= marks && m in marks && m !in done && src <= m
    ensures var u, u', all := Unmarked(there, src, dst, done), Unmarked(there, src, dst, done + {m}), Unmarked(there, src, dst, marks);
            && u' <= all && |u| <= |u'| <= |all|
            && (Image(src, dst, m) in there ==> u' == u)
            && (Image(src, dst, m) !in there ==> m !in u && u' == u + {m} && |u'| == |u| + 1)
  {
    var u, u', all := Unmarked(there, src, dst, done), Unmarked(there, src, dst, done + {m}), Unmarked(there, src, dst, marks);
    assert u' == if Image(src, dst, m) in there then u else u + {m};
    SubsetSize(u', all);
  }

  lemma ImageOfOrigin(src: Path, dst: Path, p: Path, q: Path)
    requires src <= p
    ensures dst <= q ==> (Origin(src, dst, q) == p <==> q == Image(src, dst, p))
    ensures dst <= Image(src, dst, p)
  {
    assert p == src + p[|src|..];
    if dst <= q {
      assert q == dst + q[|dst|..];
      assert Origin(src, dst, q)[|src|..] == q[|dst|..];
    }
    assert Image(src, dst, p)[|dst|..] == p[|src|..];
  }

  lemma PrefixesCompare(a: Path, b: Path, c: Path)
    ensures a <= c && b <= c ==> a <= b || b <= a
  {
    if a <= c && b <= c {
      assert a == c[..|a|] && b == c[..|b|];
      if |a| <= |b| {
        assert b[..|a|] == c[..|a|];
      } else {
        assert a[..|b|] == c[..|b|];
      }
    }
  }

  /** A copy does not write over what it reads. */
  ghost predicate Safe(t: Tree, src: Path, dst: Path) { forall f :: f in t.files && src <= f ==> !(dst <= f) }

  lemma ApartIsSafe(t: Tree, src: Path, dst: Path)
    requires Apart(src, dst)
    ensures Safe(t, src, dst)
  {
    forall f | f in t.files && src <= f ensures !(dst <= f) {
      PrefixesCompare(src, dst, f);
    }
  }

  lemma OneFileCopied(t: Tree, src: Path, dst: Path, t': Tree)
    requires src in t.files && t' == t.(files := t.files[dst := t.files[src]])
    ensures Copied(t, src, dst, t')
  {
    forall q | dst <= q ensures Origin(src, dst, q) == src <==> q == dst {
      ImageOfOrigin(src, dst, src, q);
    }
  }

  lemma WrittenMore(files: map<Path, Data>, src: Path, dst: Path, order: seq<Path>, f: Path)
    requires src <= f && f in Written(files, src, dst, order)
    ensures var now := Written(files, src, dst, order);
            Written(files, src, dst, order + [f]) == now[Image(src, dst, f) := now[f]]
  {
    InitOfSnoc(order, f);
  }

  lemma ListsMore(order: seq<Path>, files: set<Path>, f: Path)
    requires Lists(order, files) && f !in files
    ensures Lists(order + [f], files + {f})
  {
    assert f !in order;
  }

  lemma ListsLess(order: seq<Path>, files: set<Path>)
    requires order != [] && Lists(order, files)
    ensures Last(order) in files && Lists(Init(order), files - {Last(order)})
  {
    InitAndLast(order);
    assert Last(order) in order;
    forall f ensures f in Init(order) <==> f in files && f != Last(order) {
      if f in Init(order) {
        assert f in order;
      } else if f in files {
        assert f in order;
      }
    }
  }

  lemma MarkedMore(marks: set<Path>, src: Path, dst: Path, sources: set<Path>, now: set<Path>, m: Path)
    requires Marked(marks, src, dst, sources, now) && src <= m
    ensures Marked(marks, src, dst, sources + {m}, now + {Image(src, dst, m)})
  {
    forall q ensures dst <= q ==> (Origin(src, dst, q) == m <==> q == Image(src, dst, m)) {
      ImageOfOrigin(src, dst, m, q);
    }
    ImageOfOrigin(src, dst, m, dst);
  }

  lemma MembersCopied(t: Tree, src: Path, dst: Path, order: seq<Path>, t': Tree)
    requires src !in t.files && Lists(order, Members(t, src)) && t'.files == Written(t.files, src, dst, order)
    requires Marked(t.markers + {dst}, src, dst, (set m | m in t.markers && src <= m), t'.markers)
    ensures CopiedBy(t, src, dst, t')
    ensures Safe(t, src, dst) ==> Copied(t, src, dst, t')
  {
    forall q | dst <= q ensures Origin(src, dst, q) == src <==> q == dst {
      ImageOfOrigin(src, dst, src, q);
    }
    assert Marked(t.markers, src, dst, Marks(t, src), t'.markers);
    hide Marked;
    hide Members;
    hide Marks;
    if Safe(t, src, dst) {
      SafelyCopied(t, src, dst, t');
    }
  }

  /** Where nothing read is written over, the order does not matter. */
  lemma SafelyCopied(t: Tree, src: Path, dst: Path, t': Tree)
    requires CopiedBy(t, src, dst, t') && Safe(t, src, dst)
    ensures Copied(t, src, dst, t')
  {
    if src in t.files {
      OneFileCopied(t, src, dst, t');
    } else {
      var order :| Lists(order, Members(t, src)) && t'.files == Written(t.files, src, dst, order);
      SafelyWritten(t, src, dst, order, Members(t, src));
    }
  }

  lemma {:induction false} SafelyWritten(t: Tree, src: Path, dst: Path, order: seq<Path>, files: set<Path>)
    requires Lists(order, files) && forall f :: f in files ==> f in t.files && src <= f && !(dst <= f)
    ensures CopiedPart(t, src, dst, files, {}, t.(files := Written(t.files, src, dst, order)))
  {
    if order == [] {
      assert files == {} by {
        forall f ensures f !in files { assert f !in order; }
      }
    } else {
      var f := Last(order);
      ListsLess(order, files);
      SafelyWritten(t, src, dst, Init(order), files - {f});
      assert files == files - {f} + {f};
      hide Lists;
      OneMoreFile(t, src, dst, files - {f}, {}, t.(files := Written(t.files, src, dst, Init(order))), f);
    }
  }

  lemma OneMoreFile(t: Tree, src: Path, dst: Path, done: set<Path>, marks: set<Path>, now: Tree, f: Path)
    requires CopiedPart(t, src, dst, done, marks, now) && f in t.files && src <= f && !(dst <= f)
    ensures f in now.files && CopiedPart(t, src, dst, done + {f}, marks, now.(files := now.files[Image(src, dst, f) := now.files[f]]))
  {
    forall q ensures dst <= q ==> (Origin(src, dst, q) == f <==> q == Image(src, dst, f)) {
      ImageOfOrigin(src, dst, f, q);
    }
    ImageOfOrigin(src, dst, f, dst);
    assert now.files[f] == t.files[f];
  }

  lemma PartIsInside(t: Tree, src: Path, dst: Path, files: set<Path>, marks: set<Path>, t': Tree)
    requires CopiedPart(t, src, dst, files, marks, t')
    ensures SameOutside(t, t', dst)
  {
  }

  // ---- The transfer is exact ----

  /** A full COPY or MOVE between paths neither of which contains the other, each a file or a
      collection but not both, leaves at the destination just what was visible at the source,
      leaves everything else alone, and a MOVE leaves nothing at the source. */
  lemma RelocationIsExact(t: Tree, src: Path, dst: Path, move: bool, t': Tree)
    requires Relocated(t, src, dst, move, t') && Apart(src, dst) && Exists(t, src)
    requires !Hybrid(t, src) && !Hybrid(t, dst)
    ensures SameVisible(t, src, t', dst)
    ensures if move then SameOutsideBoth(t, t', dst, src) && NothingAt(t', src) else SameOutside(t, t', dst)
  {
    var t1 := Cleared(t, src, dst);
    var t2 :| Copied(t1, src, dst, t2) && t' == if move then Removed(t2, src) else t2;
    ClearedIsClear(t, src, dst);
    CopiedOutside(t1, src, dst, t2);
    OutsideTwice(t, t1, t2, dst);
    SourceStays(t, t2, src, dst);
    hide Cleared;
    SourceSame(t, t1, src, dst);
    CopyIsSeen(t1, src, dst, t2);
    SeenAcross(t, t1, src, dst, t2);
    if move {
      MoveEmpties(t, t2, src);
      MoveKeepsCopy(t2, src, dst);
      SeenAfterMove(t, src, t2, dst, t');
      OutsideBoth(t, t2, t', dst, src);
    }
  }

  /** What clearing leaves below the destination: a file about to be overwritten, at most. */
  lemma ClearedIsClear(t: Tree, src: Path, dst: Path)
    requires Exists(t, src) && !Hybrid(t, dst) && Apart(src, dst)
    ensures var t1 := Cleared(t, src, dst);
            && SameOutside(t, t1, dst)
            && (forall f :: f in t1.files && dst <= f ==> f == dst && src in t.files)
            && (forall m :: m in t1.markers ==> !(dst <= m))
  {
    var t1 := Cleared(t, src, dst);
    forall q | dst <= q && (q in t1.files || q in t1.markers) ensures q == dst && q in t1.files && q !in t1.markers && src in t.files {
      PrefixCases(dst, q);
    }
  }

  lemma CopiedOutside(t1: Tree, src: Path, dst: Path, t2: Tree)
    requires Copied(t1, src, dst, t2)
    ensures SameOutside(t1, t2, dst)
  {
    if src in t1.files {
      PartIsInside(t1, src, dst, {src}, {}, t2);
    } else {
      PartIsInside(t1, src, dst, Members(t1, src), Marks(t1, src), t2);
    }
  }

  /** t and t' agree on everything at and below p. */
  ghost predicate SameBelow(t: Tree, t': Tree, p: Path) {
    forall q :: Within(p, q) ==>
                  && (q in t'.files <==> q in t.files) && (q in t.files ==> t'.files[q] == t.files[q])
                  && (q in t'.markers <==> q in t.markers)
  }

  lemma SourceStays(t: Tree, t2: Tree, src: Path, dst: Path)
    requires Apart(src, dst) && SameOutside(t, t2, dst)
    ensures SameBelow(t, t2, src)
  {
    forall q | Within(src, q) ensures !Within(dst, q) {
      PrefixesCompare(src, dst, q);
    }
  }

  lemma SourceSame(t: Tree, t1: Tree, src: Path, dst: Path)
    requires Apart(src, dst) && SameOutside(t, t1, dst)
    ensures SameBelow(t, t1, src)
  {
    SourceStays(t, t1, src, dst);
  }

  lemma DirAtBelow(t: Tree, t': Tree, p: Path, q: Path)
    requires SameBelow(t, t', p) && p <= q
    ensures DirAt(t, q) <==> DirAt(t', q)
  {
    forall r | Within(q, r) ensures Within(p, r) {
      assert r[..|p|] == q[..|p|];
    }
  }

  lemma SeenAcross(t: Tree, t1: Tree, src: Path, dst: Path, t2: Tree)
    requires SameBelow(t, t1, src) && SameVisible(t1, src, t2, dst)
    ensures SameVisible(t, src, t2, dst)
  {
    forall rel: Path ensures DirAt(t, src + rel) <==> DirAt(t1, src + rel) {
      DirAtBelow(t, t1, src, src + rel);
    }
    hide DirAt;
    forall rel: Path ensures src <= src + rel {
    }
  }

  lemma SeenAfterMove(t: Tree, src: Path, t2: Tree, dst: Path, t': Tree)
    requires SameVisible(t, src, t2, dst) && SameBelow(t2, t', dst)
    ensures SameVisible(t, src, t', dst)
  {
    forall rel: Path ensures DirAt(t2, dst + rel) <==> DirAt(t', dst + rel) {
      DirAtBelow(t2, t', dst, dst + rel);
    }
    hide DirAt;
    forall rel: Path ensures dst <= dst + rel {
    }
  }

  lemma MoveEmpties(t: Tree, t2: Tree, src: Path)
    requires SameBelow(t, t2, src) && !Hybrid(t, src)
    ensures NothingAt(Removed(t2, src), src)
  {
    DirAtBelow(t, t2, src, src);
    var t' := Removed(t2, src);
    forall q | src <= q ensures q !in t'.files && q !in t'.markers {
      PrefixCases(src, q);
    }
  }

  lemma MoveKeepsCopy(t2: Tree, src: Path, dst: Path)
    requires Apart(src, dst)
    ensures SameBelow(t2, Removed(t2, src), dst)
  {
    forall q | Within(dst, q) ensures !Within(src, q) {
      PrefixesCompare(src, dst, q);
    }
  }

  lemma BelowIs(p: Path, q: Path)
    requires p <= q
    ensures q == p + q[|p|..]
  {
  }

  /** A collection's ancestors are collections. */
  lemma DirUp(t: Tree, p: Path, q: Path)
    requires DirAt(t, q) && p <= q && q != []
    ensures DirAt(t, p)
  {
    PrefixCases(p, q);
    forall r | Within(q, r) ensures Within(p, r) {
      assert r[..|p|] == q[..|p|];
    }
    if q in t.markers {
      assert p == q || p < q;
    } else if f :| f in t.files && q < f {
      assert Within(q, f) && p < f;
    } else {
      var m :| m in t.markers && q < m;
      assert Within(q, m) && p < m;
    }
  }

  /** Collections carry over where files and markers do. */
  lemma DirCarries(one: Tree, a: Path, two: Tree, b: Path, rel: Path)
    requires a != [] && b != []
    requires forall r: Path :: a + r in one.files ==> b + r in two.files
    requires forall r: Path :: a + r in one.markers ==> DirAt(two, b + r)
    ensures DirAt(one, a + rel) ==> DirAt(two, b + rel)
  {
    if DirAt(one, a + rel) && a + rel !in one.markers {
      if f :| f in one.files && a + rel < f {
        BelowIs(a + rel, f);
        var r := rel + f[|a + rel|..];
        assert f == a + r;
        assert b + rel < b + r by { assert b + r == b + rel + f[|a + rel|..]; }
        assert DirAt(two, b + rel);
      } else {
        var m :| m in one.markers && a + rel < m;
        BelowIs(a + rel, m);
        var r := rel + m[|a + rel|..];
        assert m == a + r;
        assert b + rel <= b + r by { assert b + r == b + rel + m[|a + rel|..]; }
        DirUp(two, b + rel, b + r);
      }
    }
  }

  lemma OriginOfSum(src: Path, dst: Path, rel: Path)
    ensures dst <= dst + rel && Origin(src, dst, dst + rel) == src + rel
    ensures dst + rel == dst <==> rel == []
    ensures src + rel == src <==> rel == []
    ensures src < src + rel <==> rel != []
  {
    if rel != [] {
      assert |dst + rel| > |dst| && |src + rel| > |src|;
    } else {
      assert dst + rel == dst && src + rel == src;
    }
  }

  /** Copied into a clear place, the files and markers of the source are at the destination. */
  lemma CopyHas(t1: Tree, src: Path, dst: Path, t2: Tree, rel: Path)
    requires Copied(t1, src, dst, t2) && Exists(t1, src) && !Hybrid(t1, src) && src != []
    requires (forall f :: f in t1.files && dst <= f ==> f == dst && src in t1.files)
    requires forall m :: m in t1.markers ==> !(dst <= m)
    ensures dst + rel in t2.files <==> src + rel in t1.files
    ensures src + rel in t1.files ==> t2.files[dst + rel] == t1.files[src + rel]
    ensures dst + rel in t2.markers <==> src + rel in t1.markers || (rel == [] && src !in t1.files)
  {
    OriginOfSum(src, dst, rel);
    if src in t1.files {
      if src + rel in t1.files && rel != [] {
        assert DirAt(t1, src);
      }
      if src + rel in t1.markers {
        assert DirAt(t1, src);
      }
    }
  }

  /** So the source is seen at the destination as it was. */
  lemma CopyIsSeen(t1: Tree, src: Path, dst: Path, t2: Tree)
    requires Copied(t1, src, dst, t2) && Exists(t1, src) && !Hybrid(t1, src) && src != [] && dst != []
    requires (forall f :: f in t1.files && dst <= f ==> f == dst && src in t1.files)
    requires forall m :: m in t1.markers ==> !(dst <= m)
    ensures SameVisible(t1, src, t2, dst)
  {
    forall rel: Path
      ensures dst + rel in t2.files <==> src + rel in t1.files
      ensures src + rel in t1.files ==> t2.files[dst + rel] == t1.files[src + rel]
      ensures src + rel in t1.markers ==> DirAt(t2, dst + rel)
      ensures dst + rel in t2.markers ==> DirAt(t1, src + rel)
    {
      CopyHas(t1, src, dst, t2, rel);
      OriginOfSum(src, dst, rel);
    }
    hide DirAt;
    hide Copied;
    forall rel: Path ensures DirAt(t2, dst + rel) <==> DirAt(t1, src + rel) {
      DirCarries(t1, src, t2, dst, rel);
      DirCarries(t2, dst, t1, src, rel);
    }
  }

  /** A full COPY of a collection to a new place below itself copies what it held before. */
  lemma CopyBelowIsExact(t: Tree, src: Path, dst: Path, t': Tree)
    requires src != [] && src < dst && Exists(t, src) && !Hybrid(t, src) && !Exists(t, dst)
    ensures Safe(Cleared(t, src, dst), src, dst)
    ensures Relocated(t, src, dst, false, t') ==> SameVisible(t, src, t', dst) && SameOutside(t, t', dst)
  {
    assert Cleared(t, src, dst) == t;
    forall q | q in t.files || q in t.markers ensures !(dst <= q) {
      PrefixCases(dst, q);
    }
    if Relocated(t, src, dst, false, t') {
      CopyIsSeen(t, src, dst, t');
      CopiedOutside(t, src, dst, t');
    }
  }

  // ---- Where it is not ----

  lemma DirStaysBelow(t: Tree, p: Path)
    requires Hybrid(t, p) && p != []
    ensures DirAt(Removed(t, p), p) && !NothingAt(Removed(t, p), p)
  {
    var t' := Removed(t, p);
    if p in t.markers {
      assert p in t'.markers;
    } else if f :| f in t.files && p < f {
      assert f in t'.files;
    } else {
      var m :| m in t.markers && p < m;
      assert m in t'.markers;
    }
  }

  /** A MOVE empties its source exactly when that is not a file and a collection at once. */
  lemma MoveEmptiesExactly(t: Tree, src: Path, dst: Path, t': Tree)
    requires Relocated(t, src, dst, true, t') && Apart(src, dst) && Exists(t, src)
    ensures NothingAt(t', src) <==> !Hybrid(t, src)
  {
    var t1 := Cleared(t, src, dst);
    var t2 :| Copied(t1, src, dst, t2) && t' == Removed(t2, src);
    assert SameOutside(t, t1, dst);
    CopiedOutside(t1, src, dst, t2);
    OutsideTwice(t, t1, t2, dst);
    SourceStays(t, t2, src, dst);
    DirAtBelow(t, t2, src, src);
    if Hybrid(t, src) {
      assert Hybrid(t2, src);
      DirStaysBelow(t2, src);
    } else {
      MoveEmpties(t, t2, src);
    }
  }

  /** A transferred file is all there is at the destination exactly when that was not a file and
      a collection at once: of those only the file is cleared. */
  lemma FileTransferIsExactly(t: Tree, src: Path, dst: Path, move: bool, t': Tree)
    requires Relocated(t, src, dst, move, t') && Apart(src, dst) && FileAt(t, src) && !DirAt(t, src)
    ensures SameVisible(t, src, t', dst) <==> !Hybrid(t, dst)
  {
    if Hybrid(t, dst) {
      var t1 := Cleared(t, src, dst);
      var t2 :| Copied(t1, src, dst, t2) && t' == if move then Removed(t2, src) else t2;
      DirStaysBelow(t, dst);
      assert t1 == Removed(t, dst);
      assert t1.files.Keys <= t2.files.Keys && t1.markers <= t2.markers;
      assert DirAt(t2, dst);
      if move {
        MoveKeepsCopy(t2, src, dst);
        DirAtBelow(t2, t', dst, dst);
      }
      assert dst + [] == dst && src + [] == src;
    } else {
      RelocationIsExact(t, src, dst, move, t');
    }
  }

  /** A collection above the source of a MOVE stays visible exactly when it has a marker or
      something else below it. */
  lemma MoveKeepsParentExactly(t: Tree, src: Path, dst: Path, t': Tree, q: Path)
    requires Relocated(t, src, dst, true, t') && Apart(src, dst) && Exists(t, src) && !Hybrid(t, src) && !Hybrid(t, dst)
    requires q != [] && q < src && !(q <= dst)
    ensures DirAt(t', q) <==>
            (exists f :: f in t.files && q < f && !(src <= f)) || (exists m :: m in t.markers && q <= m && !(src <= m))
  {
    RelocationIsExact(t, src, dst, true, t');
    hide Relocated;
    forall r | Within(q, r) && !Within(src, r) ensures !Within(dst, r) {
      PrefixesCompare(q, dst, r);
      PrefixesChain(dst, q, src);
    }
    forall r
      ensures Within(q, r) ==> (r in t'.files <==> r in t.files && !(src <= r))
      ensures Within(q, r) ==> (r in t'.markers <==> r in t.markers && !(src <= r))
    {
      assert Within(q, r) && !Within(src, r) ==> !Within(dst, r);
    }
    hide NothingAt;
    hide SameVisible;
    hide SameOutsideBoth;
    if DirAt(t', q) {
      if q in t'.markers {
        assert Within(q, q);
      } else if f :| f in t'.files && q < f {
        assert Within(q, f);
      } else {
        var m :| m in t'.markers && q < m;
        assert Within(q, m);
      }
    }
    if f :| f in t.files && q < f && !(src <= f) {
      assert Within(q, f);
    }
    if m :| m in t.markers && q <= m && !(src <= m) {
      assert Within(q, m);
      PrefixCases(q, m);
    }
  }

  /** Such a destination as the source itself, or a collection above it, loses the source. */
  lemma OverreachDestroysSource(t: Tree, src: Path, dst: Path)
    requires Overreaches(t, src, dst)
    ensures Exists(t, src) && !Exists(Removed(t, dst), src)
  {
    OverreachGone(t, src, dst);
  }
}
