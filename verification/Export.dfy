/** Where exported files are written: portable, and never one over another. */
module Export {
  import opened Prelude
  import opened Portable

  /** A virtual path: the directories and the last segment. */
  datatype VPath = VPath(dirs: seq<string>, leaf: string)

  /** How characters fold to lower case, where they change at all. */
  type Folding = map<char, char>

  ghost predicate FoldOk(fold: Folding) { forall d :: '0' <= d <= '9' ==> d !in fold }

  function Folded(fold: Folding, s: string): string {
    if s == "" then "" else Folded(fold, Init(s)) + [if Last(s) in fold then fold[Last(s)] else Last(s)]
  }

  function Ahead(dirs: seq<string>): string { if dirs == [] then "" else Ahead(Init(dirs)) + Last(dirs) + "/" }

  function Join(t: VPath): string { Ahead(t.dirs) + t.leaf }

  function TargetKey(fold: Folding, t: VPath): string { Folded(fold, Join(t)) }

  /** The path of a match below the exported one. */
  function RelativePath(p: VPath, vp: seq<string>, exactFile: bool): (rel: VPath)
    ensures rel.leaf == p.leaf && (!exactFile && vp <= p.dirs ==> vp + rel.dirs == p.dirs)
    ensures exactFile || !(vp <= p.dirs) ==> rel.dirs == []
  {
    if !exactFile && vp <= p.dirs then VPath(p.dirs[|vp|..], p.leaf) else VPath([], p.leaf)
  }

  // ---- The conflict suffix ----

  function StampChar(c: char): string {
    match c
    case ':' => ""
    case '/' => "-"
    case '\\' => "-"
    case '.' => "-"
    case _ => [c]
  }

  function CleanStamp(s: string): string {
    if s == "" then "" else CleanStamp(Init(s)) + StampChar(Last(s))
  }

  function ConflictSuffix(stamp: string, hash: string): string { "conflict-" + CleanStamp(stamp) + "-" + hash }

  predicate Hex(s: string) { forall i :: 0 <= i < |s| ==> '0' <= s[i] <= '9' || 'a' <= s[i] <= 'f' }

  predicate SuffixOk(suffix: string) { suffix != "" && LegalChars(suffix) && !TrailsOff(suffix) }

  /** A suffix can be written everywhere exactly when its stamp has no illegal character but colons. */
  lemma SuffixOkExactly(stamp: string, hash: string)
    requires hash != "" && Hex(hash)
    ensures SuffixOk(ConflictSuffix(stamp, hash)) <==> forall i :: 0 <= i < |stamp| ==> stamp[i] == ':' || !Illegal(stamp[i])
  {
    var s := ConflictSuffix(stamp, hash);
    StampIsLegalExactly(stamp);
    assert Last(s) == Last(hash);
    var head := "conflict-";
    assert LegalChars(head) && LegalChars("-") && LegalChars(hash);
    hide Illegal;
    LegalConcat(head, CleanStamp(stamp));
    LegalConcat(head + CleanStamp(stamp), "-");
    LegalConcat(head + CleanStamp(stamp) + "-", hash);
  }

  lemma LegalConcat(a: string, b: string)
    ensures LegalChars(a + b) <==> LegalChars(a) && LegalChars(b)
  {
    hide Illegal;
    if LegalChars(a + b) {
      forall i | 0 <= i < |a| ensures !Illegal(a[i]) {
        assert (a + b)[i] == a[i];
      }
      forall i | 0 <= i < |b| ensures !Illegal(b[i]) {
        assert (a + b)[|a| + i] == b[i];
      }
    }
  }

  lemma StampCharIsLegal(c: char)
    ensures LegalChars(StampChar(c)) <==> c == ':' || !Illegal(c)
  {
    if LegalChars(StampChar(c)) && c != ':' && c != '/' && c != '\\' && c != '.' {
      assert !Illegal(StampChar(c)[0]);
    }
  }

  lemma {:induction false} StampIsLegalExactly(s: string)
    ensures LegalChars(CleanStamp(s)) <==> forall i :: 0 <= i < |s| ==> s[i] == ':' || !Illegal(s[i])
  {
    if s != "" {
      StampIsLegalExactly(Init(s));
      StampCharIsLegal(Last(s));
      hide Illegal;
      LegalConcat(CleanStamp(Init(s)), StampChar(Last(s)));
      assert forall i :: 0 <= i < |s| - 1 ==> Init(s)[i] == s[i];
    }
  }

  // ---- Choosing targets ----

  function PortableForm(s: string): string { if PortableName(s) then s else Sanitized(s) }

  function PortableDirs(dirs: seq<string>): seq<string> {
    if dirs == [] then [] else PortableDirs(Init(dirs)) + [PortableForm(Last(dirs))]
  }

  function Portably(t: VPath): VPath { VPath(PortableDirs(t.dirs), PortableForm(t.leaf)) }

  function Decimal(n: nat): string
    decreases n
  {
    var d := [('0' as int + n % 10) as char];
    if n < 10 then d else Decimal(n / 10) + d
  }

  function Suffixed(t: VPath, suffix: string): VPath { t.(leaf := t.leaf + "." + suffix) }

  function Numbered(t: VPath, suffix: string, n: nat): VPath {
    t.(leaf := t.leaf + "." + suffix + "." + Decimal(n))
  }

  /** The first of a name, its suffixed form and its numbered forms that is still free. */
  ghost predicate Chosen(fold: Folding, used: set<string>, plain: VPath, suffix: string, t: VPath) {
    if TargetKey(fold, plain) !in used then t == plain
    else if TargetKey(fold, Suffixed(plain, suffix)) !in used then t == Suffixed(plain, suffix)
    else exists n: nat :: n >= 2 && t == Numbered(plain, suffix, n) && TargetKey(fold, t) !in used
                          && forall m: nat :: 2 <= m < n ==> TargetKey(fold, Numbered(plain, suffix, m)) in used
  }

  ghost function Keys(fold: Folding, targets: seq<VPath>): set<string> { set t | t in targets :: TargetKey(fold, t) }

  /** One file to export: its path and the suffix its record gives. */
  datatype Match = Match(path: VPath, suffix: string)

  function Plain(m: Match, vp: seq<string>, exactFile: bool): VPath { Portably(RelativePath(m.path, vp, exactFile)) }

  /** Each file's target is chosen among the keys its predecessors leave free. */
  ghost predicate Assigned(fold: Folding, vp: seq<string>, exactFile: bool, matches: seq<Match>, targets: seq<VPath>) {
    && |targets| == |matches|
    && (matches != [] ==>
          && Assigned(fold, vp, exactFile, Init(matches), Init(targets))
          && Chosen(fold, Keys(fold, Init(targets)), Plain(Last(matches), vp, exactFile), Last(matches).suffix, Last(targets)))
  }

  method MakePortableSegment(segment: string) returns (out: string)
    ensures out == PortableForm(segment)
  {
    var fault := ValidatePortableName(segment);
    out := segment;
    if fault != Fine {
      out := SanitizePortableSegment(segment);
    }
  }

  /** Sanitises each segment that needs it. */
  method MakePortable(rel: VPath) returns (segs: VPath)
    ensures segs == Portably(rel)
  {
    hide PortableForm;
    var dirs := [];
    for i := 0 to |rel.dirs|
      invariant dirs == PortableDirs(rel.dirs[..i])
    {
      assert Init(rel.dirs[..i + 1]) == rel.dirs[..i];
      var s := MakePortableSegment(rel.dirs[i]);
      dirs := dirs + [s];
    }
    assert rel.dirs[..|rel.dirs|] == rel.dirs;
    var leaf := MakePortableSegment(rel.leaf);
    segs := VPath(dirs, leaf);
  }

  /** Picks a free target. */
  method Choose(fold: Folding, used: set<string>, plain: VPath, suffix: string) returns (t: VPath, key: string)
    requires FoldOk(fold)
    ensures Chosen(fold, used, plain, suffix, t)
    ensures key == TargetKey(fold, t) && key !in used
    ensures t.dirs == plain.dirs
    ensures t.leaf == plain.leaf || t.leaf == plain.leaf + "." + suffix
            || exists n: nat :: n >= 2 && t.leaf == plain.leaf + "." + suffix + "." + Decimal(n)
  {
    t := plain;
    key := TargetKey(fold, t);
    if key in used {
      t := Suffixed(plain, suffix);
      key := TargetKey(fold, t);
      if key in used {
        t, key := ChooseNumber(fold, used, plain, suffix);
        ghost var n: nat :| n >= 2 && t == Numbered(plain, suffix, n)
                            && forall m: nat :: 2 <= m < n ==> TargetKey(fold, Numbered(plain, suffix, m)) in used;
        assert t.leaf == plain.leaf + "." + suffix + "." + Decimal(n);
      }
    }
  }

  /** The numbers begin with 2: it is given out unless it is taken. */
  lemma SecondComesFirst(fold: Folding, used: set<string>, plain: VPath, suffix: string, t: VPath)
    requires Chosen(fold, used, plain, suffix, t) && TargetKey(fold, VPath(plain.dirs, plain.leaf + "." + suffix + ".2")) !in used
    ensures t.dirs == plain.dirs && t.leaf in {plain.leaf, plain.leaf + "." + suffix, plain.leaf + "." + suffix + ".2"}
  {
    assert Decimal(2) == "2";
    var second := Numbered(plain, suffix, 2);
    assert second == VPath(plain.dirs, plain.leaf + "." + suffix + ".2");
    hide TargetKey;
    if TargetKey(fold, plain) in used && TargetKey(fold, Suffixed(plain, suffix)) in used {
      var n: nat :| n >= 2 && t == Numbered(plain, suffix, n) && forall m: nat :: 2 <= m < n ==> TargetKey(fold, Numbered(plain, suffix, m)) in used;
      assert n == 2;
    }
  }

  /** Counts up from 2. The numbers run out of used keys, since no two give the same key. */
  method ChooseNumber(fold: Folding, used: set<string>, plain: VPath, suffix: string) returns (t: VPath, key: string)
    requires FoldOk(fold)
    ensures exists n: nat :: n >= 2 && t == Numbered(plain, suffix, n)
                             && forall m: nat :: 2 <= m < n ==> TargetKey(fold, Numbered(plain, suffix, m)) in used
    ensures key == TargetKey(fold, t) && key !in used
  {
    hide *;
    var n: nat := 2;
    t := Numbered(plain, suffix, n);
    key := TargetKey(fold, t);
    ghost var tried: set<string> := {};
    while key in used
      invariant n >= 2 && t == Numbered(plain, suffix, n) && key == TargetKey(fold, t)
      invariant forall m: nat :: 2 <= m < n ==> TargetKey(fold, Numbered(plain, suffix, m)) in tried
      invariant forall k :: k in tried ==> exists m: nat :: m < n && k == TargetKey(fold, Numbered(plain, suffix, m))
      invariant tried <= used
      decreases used - tried
    {
      NumbersDiffer(fold, plain, suffix, n);
      assert key !in tried && key in used - tried;
      tried := tried + {key};
      n := n + 1;
      t := Numbered(plain, suffix, n);
      key := TargetKey(fold, t);
    }
  }

  lemma NumbersDiffer(fold: Folding, plain: VPath, suffix: string, n: nat)
    requires FoldOk(fold)
    ensures forall m: nat :: m < n ==> TargetKey(fold, Numbered(plain, suffix, m)) != TargetKey(fold, Numbered(plain, suffix, n))
  {
    var head := Folded(fold, Ahead(plain.dirs) + plain.leaf + "." + suffix + ".");
    forall m: nat | m < n
      ensures TargetKey(fold, Numbered(plain, suffix, m)) != TargetKey(fold, Numbered(plain, suffix, n))
    {
      NumberedKey(fold, plain, suffix, m);
      NumberedKey(fold, plain, suffix, n);
      hide *;
      DecimalIsInjective(m, n);
      assert Decimal(m) == (head + Decimal(m))[|head|..];
      assert Decimal(n) == (head + Decimal(n))[|head|..];
    }
  }

  lemma NumberedKey(fold: Folding, plain: VPath, suffix: string, n: nat)
    requires FoldOk(fold)
    ensures TargetKey(fold, Numbered(plain, suffix, n))
            == Folded(fold, Ahead(plain.dirs) + plain.leaf + "." + suffix + ".") + Decimal(n)
  {
    var head := Ahead(plain.dirs) + plain.leaf + "." + suffix + ".";
    assert Join(Numbered(plain, suffix, n)) == head + Decimal(n);
    DecimalDigits(n);
    FoldedDigits(fold, head, Decimal(n));
  }

  lemma {:induction false} FoldedDigits(fold: Folding, head: string, d: string)
    requires FoldOk(fold) && forall i :: 0 <= i < |d| ==> '0' <= d[i] <= '9'
    ensures Folded(fold, head + d) == Folded(fold, head) + d
  {
    if d == "" {
      assert head + d == head;
    } else {
      assert Init(head + d) == head + Init(d) && Last(head + d) == Last(d);
      FoldedDigits(fold, head, Init(d));
      assert Folded(fold, head) + Init(d) + [Last(d)] == Folded(fold, head) + d;
    }
  }

  lemma {:induction false} DecimalDigits(n: nat)
    ensures Decimal(n) != "" && forall i :: 0 <= i < |Decimal(n)| ==> '0' <= Decimal(n)[i] <= '9'
  {
    if n >= 10 {
      DecimalDigits(n / 10);
    }
  }

  function NumberOf(s: string): int { if s == "" then 0 else 10 * NumberOf(Init(s)) + (Last(s) as int - '0' as int) }

  /** The digits are those of the number. */
  lemma {:induction false} DecimalReads(n: nat)
    ensures NumberOf(Decimal(n)) == n && (n > 0 ==> Decimal(n)[0] != '0')
  {
    var d := [('0' as int + n % 10) as char];
    assert Init(d) == "";
    if n >= 10 {
      DecimalReads(n / 10);
      assert Init(Decimal(n)) == Decimal(n / 10) && Decimal(n)[0] == Decimal(n / 10)[0];
    }
  }

  /** Keys are the same exactly for paths that differ in nothing but how characters fold. */
  lemma {:induction false} FoldedExactly(fold: Folding, s: string, t: string)
    ensures Folded(fold, s) == Folded(fold, t) <==>
            |s| == |t| && forall i :: 0 <= i < |s| ==>
                                  (if s[i] in fold then fold[s[i]] else s[i]) == (if t[i] in fold then fold[t[i]] else t[i])
    ensures |Folded(fold, s)| == |s|
  {
    if s != "" && t != "" {
      FoldedExactly(fold, Init(s), Init(t));
      assert s == Init(s) + [Last(s)] && t == Init(t) + [Last(t)];
      assert Init(Folded(fold, s)) == Folded(fold, Init(s)) && Init(Folded(fold, t)) == Folded(fold, Init(t));
    } else if s != "" {
      FoldedExactly(fold, Init(s), t);
    } else if t != "" {
      FoldedExactly(fold, s, Init(t));
      assert |Folded(fold, t)| > 0;
    }
  }

  /** A stamp loses its colons, and keeps what else is no separator. */
  lemma {:induction false} StampIs(s: string)
    requires ':' !in s
    ensures |CleanStamp(s)| == |s|
    ensures forall i :: 0 <= i < |s| ==> CleanStamp(s)[i] == if s[i] == '/' || s[i] == '\\' || s[i] == '.' then '-' else s[i]
  {
    if s != "" {
      assert s == Init(s) + [Last(s)] && Last(s) in s;
      StampIs(Init(s));
    }
  }

  lemma {:induction false} ColonsGo(a: string, b: string)
    ensures CleanStamp(a + ":" + b) == CleanStamp(a) + CleanStamp(b)
  {
    if b == "" {
      assert a + ":" + b == a + ":" && Init(a + ":") == a;
    } else {
      assert Init(a + ":" + b) == a + ":" + Init(b) && Last(a + ":" + b) == Last(b);
      ColonsGo(a, Init(b));
    }
  }

  lemma {:induction false} DecimalIsInjective(m: nat, n: nat)
    ensures Decimal(m) == Decimal(n) ==> m == n
  {
    if Decimal(m) == Decimal(n) {
      assert Last(Decimal(m)) == ('0' as int + m % 10) as char;
      assert Last(Decimal(n)) == ('0' as int + n % 10) as char;
      if m >= 10 {
        DecimalDigits(m / 10);
        assert Init(Decimal(m)) == Decimal(m / 10);
      }
      if n >= 10 {
        DecimalDigits(n / 10);
        assert Init(Decimal(n)) == Decimal(n / 10);
      }
      if m >= 10 && n >= 10 {
        DecimalIsInjective(m / 10, n / 10);
      }
    }
  }

  /** The targets, in the order of the matches. */
  method ExportTargets(fold: Folding, matches: seq<Match>, vp: seq<string>, exactFile: bool)
    returns (targets: seq<VPath>)
    requires FoldOk(fold)
    ensures Assigned(fold, vp, exactFile, matches, targets)
  {
    targets := [];
    var used: set<string> := {};
    assert used == Keys(fold, targets) && Assigned(fold, vp, exactFile, matches[..0], targets);
    hide *;
    for i := 0 to |matches|
      invariant |targets| == i && used == Keys(fold, targets)
      invariant Assigned(fold, vp, exactFile, matches[..i], targets)
    {
      var plain := MakePortable(RelativePath(matches[i].path, vp, exactFile));
      var t, key := Choose(fold, used, plain, matches[i].suffix);
      AssignOneMore(fold, vp, exactFile, matches[..i], targets, matches[i], t);
      TakeOneMore(matches, i);
      targets := targets + [t];
      used := used + {key};
    }
    assert matches[..|matches|] == matches;
  }

  lemma AssignOneMore(fold: Folding, vp: seq<string>, exactFile: bool, matches: seq<Match>, targets: seq<VPath>, m: Match, t: VPath)
    requires Assigned(fold, vp, exactFile, matches, targets)
    requires Chosen(fold, Keys(fold, targets), Portably(RelativePath(m.path, vp, exactFile)), m.suffix, t)
    ensures Assigned(fold, vp, exactFile, matches + [m], targets + [t])
    ensures Keys(fold, targets + [t]) == Keys(fold, targets) + {TargetKey(fold, t)}
  {
    InitOfSnoc(matches, m);
    InitOfSnoc(targets, t);
    hide Chosen;
    KeysSnoc(fold, targets, t);
  }

  lemma KeysSnoc(fold: Folding, targets: seq<VPath>, t: VPath)
    ensures Keys(fold, targets + [t]) == Keys(fold, targets) + {TargetKey(fold, t)}
  {
    hide TargetKey;
    assert t in targets + [t];
  }

  // ---- What the targets are ----

  ghost predicate KeysDiffer(fold: Folding, paths: seq<VPath>) {
    forall i, j :: 0 <= i < j < |paths| ==> TargetKey(fold, paths[i]) != TargetKey(fold, paths[j])
  }

  lemma ChosenIsFree(fold: Folding, used: set<string>, plain: VPath, suffix: string, t: VPath)
    requires Chosen(fold, used, plain, suffix, t)
    ensures TargetKey(fold, t) !in used
  {
  }

  /** No two targets fold to the same path. */
  lemma {:induction false} TargetsAreDistinct(fold: Folding, vp: seq<string>, exactFile: bool, matches: seq<Match>, targets: seq<VPath>)
    requires Assigned(fold, vp, exactFile, matches, targets)
    ensures KeysDiffer(fold, targets)
  {
    if matches != [] {
      TargetsAreDistinct(fold, vp, exactFile, Init(matches), Init(targets));
      ChosenIsFree(fold, Keys(fold, Init(targets)), Plain(Last(matches), vp, exactFile), Last(matches).suffix, Last(targets));
      KeysDifferSnoc(fold, Init(targets), Last(targets));
      InitAndLast(targets);
    }
  }

  lemma KeysDifferSnoc(fold: Folding, before: seq<VPath>, t: VPath)
    requires KeysDiffer(fold, before) && TargetKey(fold, t) !in Keys(fold, before)
    ensures KeysDiffer(fold, before + [t])
  {
    hide TargetKey;
    forall i, j | 0 <= i < j < |before + [t]| ensures TargetKey(fold, (before + [t])[i]) != TargetKey(fold, (before + [t])[j]) {
      assert before[i] in before;
    }
  }

  predicate AllPortable(t: VPath) { (forall s :: s in t.dirs ==> PortableName(s)) && PortableName(t.leaf) }

  lemma {:induction false} DirsArePortable(dirs: seq<string>)
    ensures forall s :: s in PortableDirs(dirs) ==> PortableName(s)
    ensures (forall s :: s in dirs ==> PortableName(s)) ==> PortableDirs(dirs) == dirs
  {
    hide PortableName;
    if dirs != [] {
      assert dirs == Init(dirs) + [Last(dirs)];
      DirsArePortable(Init(dirs));
      SanitizedIsPortable(Last(dirs));
    }
  }

  lemma PortablyIsPortable(t: VPath)
    ensures AllPortable(Portably(t))
    ensures AllPortable(t) ==> Portably(t) == t
  {
    DirsArePortable(t.dirs);
    SanitizedIsPortable(t.leaf);
  }

  /** Every segment of every target is a portable name, and so neither empty, "." nor "..". */
  lemma {:induction false} TargetsArePortable(fold: Folding, vp: seq<string>, exactFile: bool, matches: seq<Match>, targets: seq<VPath>)
    requires Assigned(fold, vp, exactFile, matches, targets) && forall m :: m in matches ==> SuffixOk(m.suffix)
    ensures forall t :: t in targets ==> AllPortable(t) && NoDotSegments(t)
  {
    hide AllPortable;
    hide NoDotSegments;
    hide PortableName;
    if matches != [] {
      hide SuffixOk;
      hide Chosen;
      InitAndLast(targets);
      TargetsArePortable(fold, vp, exactFile, Init(matches), Init(targets));
      var last := Last(matches);
      ChosenIsPortable(fold, Keys(fold, Init(targets)), RelativePath(last.path, vp, exactFile), last.suffix, Last(targets));
      PortableIsNoDot(Last(targets));
    }
  }

  predicate NoDotSegments(t: VPath) { forall s :: s in t.dirs + [t.leaf] ==> s != "" && s != "." && s != ".." }

  lemma PortableIsNoDot(t: VPath)
    requires AllPortable(t)
    ensures NoDotSegments(t)
  {
    DotsAreNotPortable();
    hide PortableName;
  }

  lemma ChosenIsPortable(fold: Folding, used: set<string>, rel: VPath, suffix: string, t: VPath)
    requires Chosen(fold, used, Portably(rel), suffix, t) && SuffixOk(suffix)
    ensures AllPortable(t)
  {
    var plain := Portably(rel);
    PortablyIsPortable(rel);
    DottedIsPortable(plain.leaf, suffix);
    hide PortableName;
    hide Portably;
    hide TargetKey;
    hide Keys;
    hide Decimal;
    forall n: nat ensures AllPortable(Numbered(plain, suffix, n)) {
      DecimalDigits(n);
      assert LegalChars(Decimal(n)) && !TrailsOff(Decimal(n));
      DottedIsPortable(plain.leaf + "." + suffix, Decimal(n));
    }
  }

  lemma DotsAreNotPortable()
    ensures !PortableName("") && !PortableName(".") && !PortableName("..")
  {
    assert TrailsOff(".") && TrailsOff("..");
  }

  function Rels(matches: seq<Match>, vp: seq<string>, exactFile: bool): (rels: seq<VPath>)
    ensures |rels| == |matches|
  {
    if matches == [] then [] else Rels(Init(matches), vp, exactFile) + [RelativePath(Last(matches).path, vp, exactFile)]
  }

  /** Names that are portable and differ after folding are exported as they are. */
  lemma {:induction false} PortableNamesAreKept(fold: Folding, vp: seq<string>, exactFile: bool, matches: seq<Match>, targets: seq<VPath>)
    requires Assigned(fold, vp, exactFile, matches, targets)
    requires forall t :: t in Rels(matches, vp, exactFile) ==> AllPortable(t)
    requires KeysDiffer(fold, Rels(matches, vp, exactFile))
    ensures targets == Rels(matches, vp, exactFile)
  {
    if matches != [] {
      var before, rel := Rels(Init(matches), vp, exactFile), RelativePath(Last(matches).path, vp, exactFile);
      KeyIsNew(fold, before, rel);
      hide KeysDiffer;
      hide AllPortable;
      hide RelativePath;
      hide TargetKey;
      hide Keys;
      assert rel in before + [rel] && forall t :: t in before ==> t in before + [rel];
      PortableNamesAreKept(fold, vp, exactFile, Init(matches), Init(targets));
      hide Rels;
      KeptOne(fold, Keys(fold, before), rel, Last(matches).suffix, Last(targets));
      InitAndLast(targets);
    }
  }

  lemma KeyIsNew(fold: Folding, before: seq<VPath>, rel: VPath)
    requires KeysDiffer(fold, before + [rel])
    ensures KeysDiffer(fold, before) && TargetKey(fold, rel) !in Keys(fold, before)
  {
    hide TargetKey;
    var all := before + [rel];
    forall i, j | 0 <= i < j < |before| ensures TargetKey(fold, before[i]) != TargetKey(fold, before[j]) {
      assert all[i] == before[i] && all[j] == before[j];
    }
    forall t | t in before ensures TargetKey(fold, t) != TargetKey(fold, rel) {
      var i :| 0 <= i < |before| && before[i] == t;
      assert all[i] == t && all[|before|] == rel;
    }
  }

  lemma KeptOne(fold: Folding, used: set<string>, rel: VPath, suffix: string, t: VPath)
    requires AllPortable(rel) && TargetKey(fold, rel) !in used && Chosen(fold, used, Portably(rel), suffix, t)
    ensures t == rel
  {
    PortablyIsPortable(rel);
  }
}
