/** The writes and removes of a Compact, which of them fail, and what that leaves. */
module FileOps {
  import opened Prelude
  import opened Manifests
  import opened Loading
  import opened Cache

  /** Writing a conflict copy, dropping the loser it replaces, removing a redundant file. */
  datatype FileOp = Write(c: Planned) | Drop(c: Planned) | Remove(s: Source)

  function Effect(d: Disk, o: FileOp): Disk {
    match o
    case Write(c) => d[Canonical(c.path) := Saved(c.file)]
    case Drop(c) => d - {c.source}
    case Remove(s) => d - {s}
  }

  /** The disk after these operations, of which the n-th fails if `faults(n)`. */
  function After(d: Disk, ops: seq<FileOp>, faults: nat -> bool): Disk {
    if ops == [] then d
    else if faults(|ops| - 1) then After(d, Init(ops), faults)
    else Effect(After(d, Init(ops), faults), Last(ops))
  }

  function Failures(n: nat, faults: nat -> bool): nat {
    if n == 0 then 0 else Failures(n - 1, faults) + if faults(n - 1) then 1 else 0
  }

  /** The first n operations go through. */
  ghost predicate AllGo(n: nat, faults: nat -> bool) { forall k :: 0 <= k < n ==> !faults(k) }

  /** How many files went away. */
  function Removals(ops: seq<FileOp>, faults: nat -> bool): nat {
    if ops == [] then 0 else Removals(Init(ops), faults) + if Last(ops).Write? || faults(|ops| - 1) then 0 else 1
  }

  ghost predicate Went(ops: seq<FileOp>, faults: nat -> bool, o: FileOp) {
    exists n :: 0 <= n < |ops| && ops[n] == o && !faults(n)
  }

  ghost predicate Failed(ops: seq<FileOp>, faults: nat -> bool, o: FileOp) {
    exists n :: 0 <= n < |ops| && ops[n] == o && faults(n)
  }

  /** The conflict paths that were written. */
  function WrittenPaths(ops: seq<FileOp>, faults: nat -> bool): set<Path> {
    if ops == [] then {}
    else WrittenPaths(Init(ops), faults) + if Last(ops).Write? && !faults(|ops| - 1) then {Last(ops).c.path} else {}
  }

  /** Each conflict is written once and each redundant file removed once; a loser is dropped just
      where its conflict copy was written. */
  ghost predicate CarriesOut(cs: set<Planned>, rs: set<Source>, ops: seq<FileOp>, faults: nat -> bool) {
    && (forall m, n :: 0 <= m < n < |ops| ==> ops[m] != ops[n])
    && (forall c :: Write(c) in ops <==> c in cs)
    && (forall c :: Drop(c) in ops <==> c in cs && Went(ops, faults, Write(c)))
    && (forall s :: Remove(s) in ops <==> s in rs)
  }

  /** One conflict more: written, and if that went through, dropped. */
  function Tried(ops: seq<FileOp>, c: Planned, wrote: bool): (more: seq<FileOp>)
    ensures |more| == |ops| + if wrote then 2 else 1
  {
    if wrote then ops + [Write(c)] + [Drop(c)] else ops + [Write(c)]
  }

  lemma WentMore(ops: seq<FileOp>, faults: nat -> bool, x: FileOp, o: FileOp)
    ensures Went(ops + [x], faults, o) <==> Went(ops, faults, o) || (o == x && !faults(|ops|))
  {
    var more := ops + [x];
    assert more[|ops|] == x;
    if Went(ops, faults, o) {
      var n :| 0 <= n < |ops| && ops[n] == o && !faults(n);
      assert more[n] == o;
    }
  }

  lemma AfterMore(d: Disk, ops: seq<FileOp>, faults: nat -> bool, x: FileOp)
    ensures After(d, ops + [x], faults) == if faults(|ops|) then After(d, ops, faults) else Effect(After(d, ops, faults), x)
    ensures Removals(ops + [x], faults) == Removals(ops, faults) + if x.Write? || faults(|ops|) then 0 else 1
    ensures WrittenPaths(ops + [x], faults) == WrittenPaths(ops, faults) + if x.Write? && !faults(|ops|) then {x.c.path} else {}
  {
    InitOfSnoc(ops, x);
  }

  lemma WriteMore(cs: set<Planned>, rs: set<Source>, ops: seq<FileOp>, faults: nat -> bool, c: Planned)
    requires CarriesOut(cs, rs, ops, faults) && c !in cs
    ensures faults(|ops|) ==> CarriesOut(cs + {c}, rs, ops + [Write(c)], faults)
    ensures !faults(|ops|) ==> CarriesOut(cs + {c}, rs, ops + [Write(c)] + [Drop(c)], faults)
  {
    assert Write(c) !in ops && Drop(c) !in ops;
    var more := ops + [Write(c)];
    forall o ensures Went(more, faults, o) <==> Went(ops, faults, o) || (o == Write(c) && !faults(|ops|)) {
      WentMore(ops, faults, Write(c), o);
    }
    var most := more + [Drop(c)];
    forall o ensures Went(most, faults, o) <==> Went(more, faults, o) || (o == Drop(c) && !faults(|more|)) {
      WentMore(more, faults, Drop(c), o);
    }
    assert !Went(ops, faults, Write(c)) by {
      assert forall n :: 0 <= n < |ops| ==> ops[n] in ops;
    }
    hide Went;
  }

  lemma RemoveMore(cs: set<Planned>, rs: set<Source>, ops: seq<FileOp>, faults: nat -> bool, s: Source)
    requires CarriesOut(cs, rs, ops, faults) && s !in rs
    ensures CarriesOut(cs, rs + {s}, ops + [Remove(s)], faults)
  {
    assert Remove(s) !in ops;
    var more := ops + [Remove(s)];
    forall c ensures Went(more, faults, Write(c)) <==> Went(ops, faults, Write(c)) {
      WentMore(ops, faults, Remove(s), Write(c));
    }
    hide Went;
  }

  // ---- What is left ----

  lemma {:induction false} NoFailures(n: nat, faults: nat -> bool)
    ensures Failures(n, faults) == 0 <==> forall i :: 0 <= i < n ==> !faults(i)
  {
    if n > 0 {
      NoFailures(n - 1, faults);
    }
  }

  /** What takes this file away. */
  predicate Takes(o: FileOp, s: Source) { (o.Drop? && o.c.source == s) || (o.Remove? && o.s == s) }

  /** A file that nothing writes is there exactly when it was and all that would take it failed. */
  lemma {:induction false} StaysExactly(d: Disk, ops: seq<FileOp>, faults: nat -> bool, s: Source)
    requires forall o :: o in ops && o.Write? ==> Canonical(o.c.path) != s
    ensures s in After(d, ops, faults) <==> s in d && forall n :: 0 <= n < |ops| && Takes(ops[n], s) ==> faults(n)
    ensures s in d && s in After(d, ops, faults) ==> After(d, ops, faults)[s] == d[s]
  {
    if ops != [] {
      InitAndLast(ops);
      assert forall o :: o in Init(ops) ==> o in ops;
      assert Last(ops) in ops;
      StaysExactly(d, Init(ops), faults, s);
    }
  }

  /** A file that nothing takes away is there exactly when it was or was written. */
  lemma {:induction false} AppearsExactly(d: Disk, ops: seq<FileOp>, faults: nat -> bool, s: Source)
    requires forall o :: o in ops ==> !Takes(o, s)
    ensures s in After(d, ops, faults) <==> s in d || exists n :: 0 <= n < |ops| && ops[n].Write? && Canonical(ops[n].c.path) == s && !faults(n)
  {
    if ops != [] {
      InitAndLast(ops);
      assert forall o :: o in Init(ops) ==> o in ops;
      assert Last(ops) in ops;
      AppearsExactly(d, Init(ops), faults, s);
    }
  }

  /** So a redundant file stays just where its removal failed; a loser just where writing its
      conflict copy or dropping it failed; and a conflict path is there if it was written. */
  lemma LeftExactly(d: Disk, cs: set<Planned>, rs: set<Source>, ops: seq<FileOp>, faults: nat -> bool)
    requires CarriesOut(cs, rs, ops, faults)
    requires forall c, e :: c in cs && e in cs ==> Canonical(e.path) != c.source && (c.source == e.source ==> c == e)
    requires forall c :: c in cs ==> c.source in d && c.source !in rs && Canonical(c.path) !in d && Canonical(c.path) !in rs
    requires rs <= d.Keys
    ensures forall s :: s in rs ==> (s in After(d, ops, faults) <==> Failed(ops, faults, Remove(s)))
    ensures forall c :: c in cs ==>
                          (c.source in After(d, ops, faults) <==> Failed(ops, faults, Write(c)) || Failed(ops, faults, Drop(c)))
    ensures forall c :: c in cs ==> (Canonical(c.path) in After(d, ops, faults) <==> c.path in WrittenPaths(ops, faults))
  {
    forall s | s in rs ensures s in After(d, ops, faults) <==> Failed(ops, faults, Remove(s)) {
      RemovedExactly(d, cs, rs, ops, faults, s);
    }
    forall c | c in cs
      ensures c.source in After(d, ops, faults) <==> Failed(ops, faults, Write(c)) || Failed(ops, faults, Drop(c))
      ensures Canonical(c.path) in After(d, ops, faults) <==> c.path in WrittenPaths(ops, faults)
    {
      DroppedExactly(d, cs, rs, ops, faults, c);
      CopyIsThere(d, cs, rs, ops, faults, c);
    }
  }

  lemma OpsAre(cs: set<Planned>, rs: set<Source>, ops: seq<FileOp>, faults: nat -> bool)
    requires CarriesOut(cs, rs, ops, faults)
    ensures forall o :: o in ops && o.Write? ==> o.c in cs
    ensures forall o :: o in ops && o.Drop? ==> o.c in cs && Went(ops, faults, Write(o.c))
    ensures forall o :: o in ops && o.Remove? ==> o.s in rs
  {
    assert forall o :: o in ops && o.Write? ==> o == Write(o.c);
    assert forall o :: o in ops && o.Drop? ==> o == Drop(o.c);
    assert forall o :: o in ops && o.Remove? ==> o == Remove(o.s);
  }

  lemma RemovedExactly(d: Disk, cs: set<Planned>, rs: set<Source>, ops: seq<FileOp>, faults: nat -> bool, s: Source)
    requires CarriesOut(cs, rs, ops, faults) && s in rs && s in d
    requires forall c :: c in cs ==> c.source != s && Canonical(c.path) != s
    ensures s in After(d, ops, faults) <==> Failed(ops, faults, Remove(s))
  {
    OpsAre(cs, rs, ops, faults);
    StaysExactly(d, ops, faults, s);
    assert Remove(s) in ops;
    var n :| 0 <= n < |ops| && ops[n] == Remove(s);
    forall m | 0 <= m < |ops| && Takes(ops[m], s) ensures m == n {
      assert ops[m] in ops;
    }
  }

  lemma DroppedExactly(d: Disk, cs: set<Planned>, rs: set<Source>, ops: seq<FileOp>, faults: nat -> bool, c: Planned)
    requires CarriesOut(cs, rs, ops, faults) && c in cs && c.source in d && c.source !in rs
    requires forall e :: e in cs ==> Canonical(e.path) != c.source && (c.source == e.source ==> c == e)
    ensures c.source in After(d, ops, faults) <==> Failed(ops, faults, Write(c)) || Failed(ops, faults, Drop(c))
  {
    OpsAre(cs, rs, ops, faults);
    StaysExactly(d, ops, faults, c.source);
    forall m | 0 <= m < |ops| ensures Takes(ops[m], c.source) <==> ops[m] == Drop(c) {
      assert ops[m] in ops;
    }
    WroteOnce(cs, rs, ops, faults, c);
    hide After;
    hide CarriesOut;
    hide Takes;
  }

  /** The write of a conflict copy went through or failed, and the drop was tried if it did. */
  lemma WroteOnce(cs: set<Planned>, rs: set<Source>, ops: seq<FileOp>, faults: nat -> bool, c: Planned)
    requires CarriesOut(cs, rs, ops, faults) && c in cs
    ensures Went(ops, faults, Write(c)) <==> !Failed(ops, faults, Write(c))
    ensures Went(ops, faults, Write(c)) <==> exists n :: 0 <= n < |ops| && ops[n] == Drop(c)
  {
    assert Write(c) in ops;
    var w :| 0 <= w < |ops| && ops[w] == Write(c);
    assert forall m :: 0 <= m < |ops| && ops[m] == Write(c) ==> m == w;
    if Drop(c) in ops {
      var n :| 0 <= n < |ops| && ops[n] == Drop(c);
    }
  }

  lemma {:induction false} WrittenAre(ops: seq<FileOp>, faults: nat -> bool, p: Path)
    ensures p in WrittenPaths(ops, faults) <==> exists n :: 0 <= n < |ops| && ops[n].Write? && ops[n].c.path == p && !faults(n)
  {
    if ops != [] {
      InitAndLast(ops);
      WrittenAre(Init(ops), faults, p);
    }
  }

  lemma CopyIsThere(d: Disk, cs: set<Planned>, rs: set<Source>, ops: seq<FileOp>, faults: nat -> bool, c: Planned)
    requires CarriesOut(cs, rs, ops, faults) && c in cs && Canonical(c.path) !in d && Canonical(c.path) !in rs
    requires forall e :: e in cs ==> Canonical(c.path) != e.source
    ensures Canonical(c.path) in After(d, ops, faults) <==> c.path in WrittenPaths(ops, faults)
  {
    forall o | o in ops ensures !Takes(o, Canonical(c.path)) {
      if o.Drop? {
        assert o == Drop(o.c);
      } else if o.Remove? {
        assert o == Remove(o.s);
      }
    }
    AppearsExactly(d, ops, faults, Canonical(c.path));
    WrittenAre(ops, faults, c.path);
  }
}
