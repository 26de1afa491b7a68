/** The deep copies between the cached index and its callers: records hold their chunk list and
    clock maps by reference, and no reference is ever shared across the boundary. */
module Clones {
  import opened Manifests

  /** A clock or age map, shared by whoever holds a reference to it. */
  class Counters {
    var entries: map<Device, int>

    constructor (entries: map<Device, int>)
      ensures this.entries == entries
    {
      this.entries := entries;
    }
  }

  datatype Record = Record(size: int, generation: int, chunks: array<ChunkRef>, clock: Counters?, age: Counters?)

  /** What a record says, whatever it shares. */
  datatype Value = Value(size: int, generation: int, chunks: seq<ChunkRef>, clock: map<Device, int>, age: map<Device, int>)

  type Files = map<string, Record>

  ghost function Part(c: Counters?): set<object> { if c == null then {} else {c} }

  ghost function Parts(r: Record): set<object> { {r.chunks} + Part(r.clock) + Part(r.age) }

  ghost function AllParts(files: Files): set<object> { set k, o | k in files && o in Parts(files[k]) :: o }

  ghost function Entries(c: Counters?): map<Device, int>
    reads c
  {
    if c == null then map[] else c.entries
  }

  ghost function ValueOf(r: Record): Value
    reads Parts(r)
  {
    Value(r.size, r.generation, r.chunks[..], Entries(r.clock), Entries(r.age))
  }

  /** The files say just this. */
  ghost predicate Say(files: Files, view: map<string, Value>)
    reads AllParts(files)
  {
    files.Keys == view.Keys && forall k :: k in files ==> ValueOf(files[k]) == view[k]
  }

  /** An empty map is copied as none. */
  method CloneCounters(c: Counters?) returns (out: Counters?)
    ensures out == null <==> Entries(c) == map[]
    ensures fresh(Part(out)) && Entries(out) == Entries(c)
  {
    if c == null || c.entries == map[] {
      return null;
    }
    out := new Counters(c.entries);
  }

  /** The copy is new, and so apart from anything there was. */
  method CloneFileRecord(rec: Record, ghost there: set<object>) returns (out: Record)
    ensures fresh(Parts(out)) && Parts(out) !! there && ValueOf(out) == old(ValueOf(rec))
  {
    var chunks := new ChunkRef[rec.chunks.Length](i requires 0 <= i < rec.chunks.Length reads rec.chunks => rec.chunks[i]);
    var clock := CloneCounters(rec.clock);
    var age := CloneCounters(rec.age);
    assert chunks[..] == rec.chunks[..];
    out := rec.(chunks := chunks, clock := clock, age := age);
  }

  method CloneFiles(files: Files, ghost view: map<string, Value>, ghost there: set<object>) returns (out: Files)
    requires Say(files, view)
    ensures fresh(AllParts(out)) && AllParts(out) !! there && Say(out, view)
  {
    out := map[];
    ghost var made: set<object> := {};
    assert AllParts(out) == {};
    hide AllParts;
    hide Parts;
    hide ValueOf;
    SayKeys(files, view);
    hide Say;
    var todo := files.Keys;
    while todo != {}
      invariant todo <= files.Keys && out.Keys == files.Keys - todo && Say(files, view)
      invariant AllParts(out) <= made && fresh(made) && made !! there
      invariant forall k :: k in out ==> Parts(out[k]) <= made && ValueOf(out[k]) == view[k]
    {
      var k :| k in todo;
      SayKeys(files, view);
      var rec := CloneFileRecord(files[k], there);
      PartsAfter(out, k, rec);
      made := made + Parts(rec);
      out := out[k := rec];
      todo := todo - {k};
    }
    SaidAll(out, view);
  }

  lemma SayKeys(files: Files, view: map<string, Value>)
    requires Say(files, view)
    ensures files.Keys == view.Keys && forall k :: k in files ==> ValueOf(files[k]) == view[k]
  {
  }

  lemma SaidAll(files: Files, view: map<string, Value>)
    requires files.Keys == view.Keys && forall k :: k in files ==> ValueOf(files[k]) == view[k]
    ensures Say(files, view)
  {
  }

  class Cached {
    var files: Files
    /** All that the files are made of. */
    ghost var repr: set<object>

    /** The cached index says this. */
    ghost predicate Shows(view: map<string, Value>)
      reads this, repr
    {
      AllParts(files) == repr && this !in repr && Say(files, view)
    }

    constructor ()
      ensures Shows(map[]) && repr == {}
    {
      files, repr := map[], {};
    }

    /** Hands out a copy the caller may change as it likes. */
    method LoadIndex(ghost view: map<string, Value>) returns (snapshot: Files)
      requires Shows(view)
      ensures fresh(AllParts(snapshot)) && Say(snapshot, view) && Shows(view)
    {
      snapshot := CloneFiles(files, view, repr);
    }

    /** Takes in a copy of one committed record. */
    method Commit(path: string, rec: Record, ghost view: map<string, Value>, ghost there: set<object>)
      requires Shows(view)
      modifies this
      ensures Shows(view[path := old(ValueOf(rec))])
      ensures repr * there <= old(repr)
    {
      hide Say;
      hide AllParts;
      hide ValueOf;
      hide Parts;
      ghost var v := ValueOf(rec);
      var stored := CloneFileRecord(rec, there);
      assert this !in Parts(stored) && Say(files, view);
      PartsAfter(files, path, stored);
      SayAfter(files, view, path, stored);
      files := files[path := stored];
      repr := AllParts(files);
    }

    /** Takes in a copy of a whole index. */
    method Replace(idx: Files, ghost view: map<string, Value>, ghost there: set<object>)
      requires Say(idx, view)
      modifies this
      ensures Shows(view) && repr !! there
    {
      hide Say;
      hide AllParts;
      hide Parts;
      var copy := CloneFiles(idx, view, there);
      assert this !in AllParts(copy);
      files, repr := copy, AllParts(copy);
    }
  }

  lemma SayAfter(files: Files, view: map<string, Value>, path: string, rec: Record)
    requires Say(files, view)
    ensures Say(files[path := rec], view[path := ValueOf(rec)])
  {
  }

  /** Any change whatever to what a snapshot is made of. */
  method Scramble(snapshot: Files)
    modifies AllParts(snapshot)
  {
    modify AllParts(snapshot);
  }

  /** Whatever a caller does to a snapshot, the cache still shows what it showed. */
  method SnapshotIsSeparate(c: Cached, ghost view: map<string, Value>) returns (snapshot: Files)
    requires c.Shows(view)
    ensures c.Shows(view) && fresh(AllParts(snapshot))
  {
    hide AllParts;
    hide Parts;
    snapshot := c.LoadIndex(view);
    Scramble(snapshot);
  }

  /** And whatever it does afterwards to a record it had committed ... */
  method CommittedIsSeparate(c: Cached, path: string, rec: Record, ghost view: map<string, Value>)
    requires c.Shows(view) && c !in Parts(rec) && Parts(rec) !! c.repr
    modifies c, Parts(rec)
    ensures c.Shows(view[path := old(ValueOf(rec))])
  {
    hide AllParts;
    hide Parts;
    c.Commit(path, rec, view, Parts(rec));
    ghost var now := view[path := old(ValueOf(rec))];
    assert c.Shows(now);
    ScrambleRecord(rec);
  }

  method ScrambleRecord(rec: Record)
    modifies Parts(rec)
  {
    modify Parts(rec);
  }

  /** ... or to an index it had saved. */
  method SavedIsSeparate(c: Cached, idx: Files, ghost view: map<string, Value>)
    requires Say(idx, view) && c !in AllParts(idx)
    modifies c, AllParts(idx)
    ensures c.Shows(view)
  {
    hide AllParts;
    hide Parts;
    c.Replace(idx, view, AllParts(idx));
    Scramble(idx);
  }

  lemma PartsAfter(files: Files, path: string, rec: Record)
    ensures AllParts(files[path := rec]) <= AllParts(files) + Parts(rec)
  {
    hide Parts;
    var after := files[path := rec];
    forall o | o in AllParts(after) ensures o in AllParts(files) + Parts(rec) {
      var k :| k in after && o in Parts(after[k]);
      assert k != path ==> k in files && after[k] == files[k];
    }
  }
}
