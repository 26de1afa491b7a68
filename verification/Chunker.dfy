/** Content-defined chunking: a streaming loop over read buffers, the fold it computes, and the
    windowed rule that fixes every cut. */
module Chunker {
  import opened Prelude
  import opened Gear

  datatype Params = Params(minSize: int, avgSize: int, maxSize: int)

  const CAP := 128 * 1024 * 1024

  predicate Valid(p: Params) {
    0 < p.minSize <= p.avgSize <= p.maxSize <= CAP
  }

  // ---- The fold ----

  /** Completed chunks, the chunk being built, and its hash. */
  datatype Fold = Fold(done: seq<seq<byte>>, chunk: seq<byte>, h: word)

  const START := Fold([], [], 0)

  predicate Cuts(p: Params, mask: nat, n: nat, h: word) {
    n >= p.minSize && (BitAnd(h, mask) == 0 || n >= p.maxSize)
  }

  function Push(p: Params, table: Table, mask: nat, f: Fold, b: byte): Fold {
    var h := Roll(f.h, table[b]);
    var chunk := f.chunk + [b];
    if Cuts(p, mask, |chunk|, h) then Fold(f.done + [chunk], [], 0) else Fold(f.done, chunk, h)
  }

  function Run(p: Params, table: Table, mask: nat, f: Fold, input: seq<byte>): Fold {
    if input == [] then f else Push(p, table, mask, Run(p, table, mask, f, Init(input)), Last(input))
  }

  function Finish(f: Fold): seq<seq<byte>> { f.done + if f.chunk == [] then [] else [f.chunk] }

  function Chunks(p: Params, table: Table, mask: nat, input: seq<byte>): seq<seq<byte>> {
    Finish(Run(p, table, mask, START, input))
  }

  function Flatten(chunks: seq<seq<byte>>): seq<byte> {
    if chunks == [] then [] else Flatten(Init(chunks)) + Last(chunks)
  }

  // ---- What the fold keeps ----

  predicate CutAt(p: Params, table: Table, mask: nat, s: seq<byte>, n: nat)
    requires n <= |s|
  {
    Cuts(p, mask, n, Hash(table, s[..n]))
  }

  /** Every completed chunk is cut where its hash first says, the open one nowhere. */
  ghost predicate FoldOk(p: Params, table: Table, mask: nat, f: Fold) {
    && f.h == Hash(table, f.chunk)
    && (forall n :: 1 <= n <= |f.chunk| ==> !CutAt(p, table, mask, f.chunk, n))
    && forall c :: c in f.done ==> Complete(p, table, mask, c)
  }

  /** A chunk ends at its first cut. */
  ghost predicate Complete(p: Params, table: Table, mask: nat, c: seq<byte>) {
    && c != [] && CutAt(p, table, mask, c, |c|)
    && forall n :: 1 <= n < |c| ==> !CutAt(p, table, mask, c, n)
  }

  lemma CutAtExtends(p: Params, table: Table, mask: nat, s: seq<byte>, b: byte)
    ensures forall n :: 1 <= n <= |s| ==> (CutAt(p, table, mask, s + [b], n) <==> CutAt(p, table, mask, s, n))
    ensures Hash(table, s + [b]) == Roll(Hash(table, s), table[b])
    ensures CutAt(p, table, mask, s + [b], |s| + 1) <==> Cuts(p, mask, |s| + 1, Roll(Hash(table, s), table[b]))
  {
    var t := s + [b];
    assert Init(t) == s && t[..|t|] == t;
    forall n | 1 <= n <= |s| ensures t[..n] == s[..n] {
    }
  }

  lemma PushKeeps(p: Params, table: Table, mask: nat, f: Fold, b: byte)
    requires FoldOk(p, table, mask, f)
    ensures FoldOk(p, table, mask, Push(p, table, mask, f, b))
  {
    CutAtExtends(p, table, mask, f.chunk, b);
    hide CutAt;
    hide Cuts;
    hide Roll;
    var g := Push(p, table, mask, f, b);
    var chunk := f.chunk + [b];
    if CutAt(p, table, mask, chunk, |chunk|) {
      assert Complete(p, table, mask, chunk);
      assert g.chunk == [] && g.h == Hash(table, []);
    }
  }

  lemma PushAppends(p: Params, table: Table, mask: nat, f: Fold, b: byte)
    ensures Flatten(Finish(Push(p, table, mask, f, b))) == Flatten(Finish(f)) + [b]
  {
    var chunk := f.chunk + [b];
    FlattenSnoc(f.done, chunk);
    FlattenSnoc(f.done, f.chunk);
    assert f.done + [] == f.done && f.done + [chunk] + [] == f.done + [chunk];
  }

  lemma FlattenSnoc(chunks: seq<seq<byte>>, c: seq<byte>)
    ensures Flatten(chunks + [c]) == Flatten(chunks) + c
  {
    assert Init(chunks + [c]) == chunks;
  }

  lemma {:induction false} RunKeeps(p: Params, table: Table, mask: nat, f: Fold, input: seq<byte>)
    requires FoldOk(p, table, mask, f)
    ensures FoldOk(p, table, mask, Run(p, table, mask, f, input))
    ensures Flatten(Finish(Run(p, table, mask, f, input))) == Flatten(Finish(f)) + input
  {
    if input != [] {
      RunKeeps(p, table, mask, f, Init(input));
      PushKeeps(p, table, mask, Run(p, table, mask, f, Init(input)), Last(input));
      PushAppends(p, table, mask, Run(p, table, mask, f, Init(input)), Last(input));
      InitAndLast(input);
      PlusAssociates(Flatten(Finish(f)), Init(input), [Last(input)]);
      hide Push;
      hide FoldOk;
      hide Finish;
      hide Flatten;
    }
  }

  /** The chunks concatenate to the input; every one but the last has between minSize and maxSize
      bytes, and the last is not empty nor longer than maxSize. */
  lemma ChunksPartition(p: Params, table: Table, mask: nat, input: seq<byte>)
    requires Valid(p)
    ensures var cs := Chunks(p, table, mask, input);
            && Flatten(cs) == input
            && (forall i :: 0 <= i < |cs| ==> 0 < |cs[i]| <= p.maxSize)
            && (forall i :: 0 <= i < |cs| - 1 ==> |cs[i]| >= p.minSize)
  {
    RunKeeps(p, table, mask, START, input);
    var f := Run(p, table, mask, START, input);
    OpenIsShort(p, table, mask, f);
    forall i | 0 <= i < |f.done| ensures p.minSize <= |f.done[i]| <= p.maxSize {
      assert Complete(p, table, mask, f.done[i]);
      CompleteIsBounded(p, table, mask, f.done[i]);
    }
  }

  lemma CutsAtMax(p: Params, table: Table, mask: nat, s: seq<byte>)
    requires Valid(p) && |s| >= p.maxSize
    ensures CutAt(p, table, mask, s, p.maxSize)
  {
  }

  lemma CompleteIsBounded(p: Params, table: Table, mask: nat, c: seq<byte>)
    requires Valid(p) && Complete(p, table, mask, c)
    ensures p.minSize <= |c| <= p.maxSize
  {
    if |c| > p.maxSize {
      CutsAtMax(p, table, mask, c);
    }
  }

  lemma OpenIsShort(p: Params, table: Table, mask: nat, f: Fold)
    requires Valid(p) && FoldOk(p, table, mask, f)
    ensures |f.chunk| < p.maxSize
  {
    if |f.chunk| >= p.maxSize {
      CutsAtMax(p, table, mask, f.chunk);
    }
  }

  // ---- Independence of what came before a cut ----

  lemma {:induction false} RunSplits(p: Params, table: Table, mask: nat, f: Fold, x: seq<byte>, y: seq<byte>)
    ensures Run(p, table, mask, f, x + y) == Run(p, table, mask, Run(p, table, mask, f, x), y)
  {
    if y == [] {
      assert x + y == x;
    } else {
      assert Init(x + y) == x + Init(y);
      RunSplits(p, table, mask, f, x, Init(y));
    }
  }

  lemma {:induction false} DoneOnlyGrows(p: Params, table: Table, mask: nat, done: seq<seq<byte>>, f: Fold, y: seq<byte>)
    ensures Run(p, table, mask, f.(done := done + f.done), y)
            == var g := Run(p, table, mask, f, y); g.(done := done + g.done)
  {
    if y != [] {
      DoneOnlyGrows(p, table, mask, done, f, Init(y));
      var g := Run(p, table, mask, f, Init(y));
      var c := g.chunk + [Last(y)];
      assert done + (g.done + [c]) == done + g.done + [c];
    }
  }

  /** x ends where the chunker cuts. */
  predicate EndsAtCut(p: Params, table: Table, mask: nat, x: seq<byte>) {
    Run(p, table, mask, START, x).chunk == []
  }

  /** After a cut nothing before it matters: the chunks of the rest are its own. */
  lemma ChunksAfterCut(p: Params, table: Table, mask: nat, x: seq<byte>, y: seq<byte>)
    requires EndsAtCut(p, table, mask, x)
    ensures Chunks(p, table, mask, x + y) == Chunks(p, table, mask, x) + Chunks(p, table, mask, y)
  {
    var f := Run(p, table, mask, START, x);
    RunKeeps(p, table, mask, START, x);
    RunSplits(p, table, mask, START, x, y);
    DoneOnlyGrows(p, table, mask, f.done, START, y);
    var g := Run(p, table, mask, START, y);
    assert START.(done := f.done + START.done) == f by { assert f.done + [] == f.done; }
    assert Finish(f) == f.done;
    assert f.done + g.done + (if g.chunk == [] then [] else [g.chunk]) == f.done + Finish(g);
  }

  /** Inputs that share a suffix and both cut at some point of it share every later chunk. */
  lemma SharedSuffixSharesChunks(p: Params, table: Table, mask: nat, a: seq<byte>, b: seq<byte>, head: seq<byte>, tail: seq<byte>)
    requires EndsAtCut(p, table, mask, a + head) && EndsAtCut(p, table, mask, b + head)
    ensures var ca, cb := Chunks(p, table, mask, a + head), Chunks(p, table, mask, b + head);
            && Chunks(p, table, mask, a + head + tail) == ca + Chunks(p, table, mask, tail)
            && Chunks(p, table, mask, b + head + tail) == cb + Chunks(p, table, mask, tail)
  {
    ChunksAfterCut(p, table, mask, a + head, tail);
    ChunksAfterCut(p, table, mask, b + head, tail);
  }

  // ---- The windowed rule ----

  /** Whether to cut after a chunk prefix, by its length and its last k bytes. */
  predicate CutsHere(p: Params, table: Table, k: nat, s: seq<byte>) {
    |s| >= p.minSize && (Weighted(table, Window(s, k)) % Pow2(k) == 0 || |s| >= p.maxSize)
  }

  lemma RollingIsWindowed(p: Params, table: Table, k: nat, s: seq<byte>)
    requires k <= 64
    ensures Cuts(p, Pow2(k) - 1, |s|, Hash(table, s)) <==> CutsHere(p, table, k, s)
  {
    MaskIsRemainder(Hash(table, s), k);
    LowBitsAreLocal(table, s, k);
  }

  /** The least n >= m at which the windowed rule cuts s, or none. */
  function FirstCut(p: Params, table: Table, k: nat, s: seq<byte>, m: nat): (n: Option<nat>)
    requires m >= 1
    ensures n.Some? ==> m <= n.value <= |s| && CutsHere(p, table, k, s[..n.value])
    ensures forall i :: m <= i <= |s| && (n.Some? ==> i < n.value) ==> !CutsHere(p, table, k, s[..i])
    decreases |s| - m
  {
    if m > |s| then None
    else if CutsHere(p, table, k, s[..m]) then Some(m)
    else FirstCut(p, table, k, s, m + 1)
  }

  /** Chunking by the windowed rule alone: take the shortest prefix it cuts, then go on. */
  function WindowedChunks(p: Params, table: Table, k: nat, s: seq<byte>): seq<seq<byte>>
    decreases |s|
  {
    if s == [] then [] else
    var n := FirstCut(p, table, k, s, 1);
    if n.None? then [s] else [s[..n.value]] + WindowedChunks(p, table, k, s[n.value..])
  }

  /** The rolling fold computes the windowed chunking. */
  lemma {:induction false} FoldIsWindowed(p: Params, table: Table, k: nat, s: seq<byte>)
    requires k <= 64
    ensures Chunks(p, table, Pow2(k) - 1, s) == WindowedChunks(p, table, k, s)
    decreases |s|
  {
    var mask := Pow2(k) - 1;
    if s != [] {
      var n := FirstCut(p, table, k, s, 1);
      if n.None? {
        RunWithoutCut(p, table, k, s);
      } else {
        var x, y := s[..n.value], s[n.value..];
        assert s == x + y;
        assert forall i :: 1 <= i < |x| ==> x[..i] == s[..i];
        FirstChunk(p, table, k, x);
        ChunksAfterCut(p, table, mask, x, y);
        FoldIsWindowed(p, table, k, y);
      }
    }
  }

  lemma {:induction false} RunWithoutCut(p: Params, table: Table, k: nat, s: seq<byte>)
    requires k <= 64 && forall i :: 1 <= i <= |s| ==> !CutsHere(p, table, k, s[..i])
    ensures Run(p, table, Pow2(k) - 1, START, s) == Fold([], s, Hash(table, s))
  {
    if s != [] {
      hide *;
      var front := s[..|s| - 1];
      assert front == Init(s) by { InitIs(s); }
      forall i | 1 <= i <= |front| ensures !CutsHere(p, table, k, front[..i]) {
        assert front[..i] == s[..i];
      }
      assert s[..|s|] == s;
      RunWithoutCut(p, table, k, front);
      RollingIsWindowed(p, table, k, s);
      LastByteStays(p, table, Pow2(k) - 1, s);
    }
  }

  lemma InitIs(s: seq<byte>)
    requires s != []
    ensures Init(s) == s[..|s| - 1]
  {
  }

  lemma LastByteStays(p: Params, table: Table, mask: nat, s: seq<byte>)
    requires s != [] && !Cuts(p, mask, |s|, Hash(table, s))
    requires Run(p, table, mask, START, Init(s)) == Fold([], Init(s), Hash(table, Init(s)))
    ensures Run(p, table, mask, START, s) == Fold([], s, Hash(table, s))
  {
    LastByte(p, table, mask, s);
    InitAndLast(s);
    hide *;
  }

  /** What the last byte does, unfolded. */
  lemma LastByte(p: Params, table: Table, mask: nat, s: seq<byte>)
    requires s != [] && Run(p, table, mask, START, Init(s)) == Fold([], Init(s), Hash(table, Init(s)))
    ensures Run(p, table, mask, START, s) ==
            if Cuts(p, mask, |s|, Hash(table, s)) then Fold([Init(s) + [Last(s)]], [], 0) else Fold([], Init(s) + [Last(s)], Hash(table, s))
  {
    hide Cuts;
    hide Roll;
    assert Hash(table, s) == Roll(Hash(table, Init(s)), table[Last(s)]);
    hide Hash;
    PlusNone([Init(s) + [Last(s)]]);
  }

  lemma FirstChunk(p: Params, table: Table, k: nat, x: seq<byte>)
    requires k <= 64 && x != [] && CutsHere(p, table, k, x)
    requires forall i :: 1 <= i < |x| ==> !CutsHere(p, table, k, x[..i])
    ensures EndsAtCut(p, table, Pow2(k) - 1, x) && Chunks(p, table, Pow2(k) - 1, x) == [x]
  {
    hide *;
    var front := x[..|x| - 1];
    assert front == Init(x) by { InitIs(x); }
    forall i | 1 <= i <= |front| ensures !CutsHere(p, table, k, front[..i]) {
      assert front[..i] == x[..i];
    }
    RunWithoutCut(p, table, k, front);
    RollingIsWindowed(p, table, k, x);
    LastByteCuts(p, table, Pow2(k) - 1, x);
  }

  lemma LastByteCuts(p: Params, table: Table, mask: nat, x: seq<byte>)
    requires x != [] && Cuts(p, mask, |x|, Hash(table, x))
    requires Run(p, table, mask, START, Init(x)) == Fold([], Init(x), Hash(table, Init(x)))
    ensures EndsAtCut(p, table, mask, x) && Chunks(p, table, mask, x) == [x]
  {
    LastByte(p, table, mask, x);
    InitAndLast(x);
    hide Run;
    hide Cuts;
    PlusNone([x]);
  }

  // ---- The streaming loop ----

  datatype Ending = More | Eof | Failed

  /** What one read yields: some bytes, and possibly the end of the input or a failure. */
  datatype Read = Read(data: seq<byte>, ending: Ending)

  const BUFFER := 256 * 1024

  /** The reader fits its bytes to the buffer, and ends at last. */
  ghost predicate ScriptOk(script: seq<Read>) {
    && script != [] && Last(script).ending != More
    && (forall i :: 0 <= i < |script| ==> |script[i].data| <= BUFFER)
    && forall i :: 0 <= i < |script| - 1 ==> script[i].ending == More
  }

  function Input(script: seq<Read>): seq<byte> {
    if script == [] then [] else Input(Init(script)) + Last(script).data
  }

  datatype Outcome = Done | BadParams | Rejected | ReadFailed

  /** What the callback is due: every chunk, but not the open one if the input broke off. */
  ghost function Due(p: Params, table: Table, mask: nat, script: seq<Read>): seq<seq<byte>>
    requires script != []
  {
    if Last(script).ending == Eof then Chunks(p, table, mask, Input(script))
    else Run(p, table, mask, START, Input(script)).done
  }

  ghost predicate AllAccepted(accepts: nat -> bool, n: nat) { forall i :: 0 <= i < n ==> accepts(i) }

  /** The arrays handed out, each of its own, hold these chunks. */
  ghost predicate Hold(arrays: seq<array<byte>>, others: set<array<byte>>, chunks: seq<seq<byte>>)
    reads arrays
  {
    && |arrays| == |chunks|
    && (forall i :: 0 <= i < |arrays| ==> arrays[i] !in others && arrays[i][..] == chunks[i])
    && forall i, j :: 0 <= i < j < |arrays| ==> arrays[i] != arrays[j]
  }

  method NewCopy(a: array<byte>, n: nat) returns (c: array<byte>)
    requires n <= a.Length
    ensures fresh(c) && c[..] == a[..n]
  {
    c := new byte[n](i requires 0 <= i < n reads a => a[i]);
  }

  /** The loop's variables hold fold f: the open chunk in the buffer, the completed ones handed out. */
  ghost predicate Holds(p: Params, table: Table, mask: nat, f: Fold, chunk: array<byte>, len: nat, h: word,
                        delivered: seq<array<byte>>, tmp: array<byte>)
    reads chunk, delivered
  {
    && chunk != tmp && len <= chunk.Length == p.maxSize && chunk[..len] == f.chunk && h == f.h
    && Hold(delivered, {chunk, tmp}, f.done) && FoldOk(p, table, mask, f)
  }

  /** One byte: into the hash and the buffer, and the chunk to the callback if it cuts here. */
  method TakeByte(p: Params, table: Table, mask: nat, ghost f: Fold, chunk: array<byte>, len0: nat, h0: word,
                  delivered0: seq<array<byte>>, ghost tmp: array<byte>, b: byte, accepts: nat -> bool)
    returns (ok: bool, len: nat, h: word, delivered: seq<array<byte>>)
    requires Valid(p) && Holds(p, table, mask, f, chunk, len0, h0, delivered0, tmp) && AllAccepted(accepts, |f.done|)
    modifies chunk
    ensures var g := Push(p, table, mask, f, b);
            if ok then Holds(p, table, mask, g, chunk, len, h, delivered, tmp) && AllAccepted(accepts, |g.done|)
            else Hold(delivered, {}, g.done) && StoppedAt(accepts, g.done)
    ensures forall d :: d in delivered ==> d in delivered0 || fresh(d)
  {
    OpenIsShort(p, table, mask, f);
    PushKeeps(p, table, mask, f, b);
    PushIs(p, table, mask, f, b);
    hide FoldOk;
    hide Push;
    hide Roll;
    hide BitAnd;
    delivered := delivered0;
    h := Roll(h0, table[b]);
    chunk[len0] := b;
    len := len0 + 1;
    assert chunk[..len] == f.chunk + [b];
    assert Hold(delivered, {chunk, tmp}, f.done);
    ok := true;
    if len >= p.minSize && (BitAnd(h, mask) == 0 || len >= p.maxSize) {
      var copy := NewCopy(chunk, len);
      delivered := delivered + [copy];
      assert Hold(delivered, {chunk, tmp}, f.done + [f.chunk + [b]]);
      ok := accepts(|delivered| - 1);
      len := 0;
      h := 0;
    }
  }

  /** One read into the buffer. */
  method Fill(tmp: array<byte>, data: seq<byte>)
    requires |data| <= tmp.Length
    modifies tmp
    ensures tmp[..|data|] == data
  {
    forall j | 0 <= j < |data| {
      tmp[j] := data[j];
    }
  }

  /** The inner loop: every byte of one read. It stops early if the callback refuses a chunk. */
  method TakeBuffer(p: Params, table: Table, mask: nat, ghost f: Fold, chunk: array<byte>, len0: nat, h0: word,
                    delivered0: seq<array<byte>>, tmp: array<byte>, n: nat, accepts: nat -> bool)
    returns (ok: bool, len: nat, h: word, delivered: seq<array<byte>>, ghost g: Fold, ghost taken: nat)
    requires Valid(p) && n <= tmp.Length && Holds(p, table, mask, f, chunk, len0, h0, delivered0, tmp)
    requires AllAccepted(accepts, |f.done|) && chunk != tmp
    modifies chunk
    ensures taken <= n && g == Run(p, table, mask, f, tmp[..taken])
    ensures if ok then taken == n && Holds(p, table, mask, g, chunk, len, h, delivered, tmp) && AllAccepted(accepts, |g.done|)
            else Hold(delivered, {}, g.done) && StoppedAt(accepts, g.done)
    ensures forall d :: d in delivered ==> d in delivered0 || fresh(d)
  {
    ok, len, h, delivered, g, taken := true, len0, h0, delivered0, f, 0;
    assert tmp[..0] == [] && g == Run(p, table, mask, f, tmp[..0]);
    hide *;
    var j := 0;
    while j < n
      invariant 0 <= j == taken <= n && ok && g == Run(p, table, mask, f, tmp[..j])
      invariant Holds(p, table, mask, g, chunk, len, h, delivered, tmp) && AllAccepted(accepts, |g.done|)
      invariant forall d :: d in delivered ==> d in delivered0 || fresh(d)
    {
      RunOneMore(p, table, mask, f, tmp[..n], j);
      assert tmp[..n][..j] == tmp[..j] && tmp[..n][..j + 1] == tmp[..j + 1];
      ok, len, h, delivered := TakeByte(p, table, mask, g, chunk, len, h, delivered, tmp, tmp[j], accepts);
      g := Push(p, table, mask, g, tmp[j]);
      j := j + 1;
      taken := j;
      if !ok {
        return;
      }
    }
  }

  /** The callback refused the last of these, and no earlier one. */
  ghost predicate StoppedAt(accepts: nat -> bool, given: seq<seq<byte>>) {
    given != [] && !accepts(|given| - 1) && AllAccepted(accepts, |given| - 1)
  }

  /** The outer loop: reads until the input ends or fails, or the callback refuses a chunk. */
  method ReadAll(script: seq<Read>, p: Params, table: Table, mask: nat, chunk: array<byte>, tmp: array<byte>, accepts: nat -> bool)
    returns (outcome: Outcome, len: nat, h: word, delivered: seq<array<byte>>, ghost f: Fold)
    requires ScriptOk(script) && Valid(p) && chunk.Length == p.maxSize && tmp.Length == BUFFER && chunk != tmp
    modifies chunk, tmp
    ensures outcome == Done ==>
              && Last(script).ending == Eof && f == Run(p, table, mask, START, Input(script))
              && Holds(p, table, mask, f, chunk, len, h, delivered, tmp) && AllAccepted(accepts, |f.done|)
    ensures outcome != Done ==> GivenWhen(outcome, f.done, p, table, mask, script, accepts) && Hold(delivered, {}, f.done)
    ensures forall d :: d in delivered ==> fresh(d)
  {
    outcome, len, h, delivered, f := Done, 0, 0, [], START;
    var i := 0;
    assert f == Run(p, table, mask, START, Input(script[..i])) && AllAccepted(accepts, |f.done|);
    assert Holds(p, table, mask, f, chunk, len, h, delivered, tmp);
    hide Run;
    hide Holds;
    hide Hold;
    hide Input;
    hide AllAccepted;
    hide GivenWhen;
    hide Valid;
    while true
      invariant 0 <= i < |script|
      invariant f == Run(p, table, mask, START, Input(script[..i])) && AllAccepted(accepts, |f.done|)
      invariant Holds(p, table, mask, f, chunk, len, h, delivered, tmp)
      invariant forall d :: d in delivered ==> fresh(d)
      decreases |script| - i
    {
      var ok;
      ok, len, h, delivered, f := TakeRead(script, i, p, table, mask, f, chunk, len, h, delivered, tmp, accepts);
      if !ok {
        outcome := Rejected;
        return;
      }
      if script[i].ending == Eof {
        break;
      }
      if script[i].ending == Failed {
        assert script[..i + 1] == script;
        HoldsApart(p, table, mask, f, chunk, len, h, delivered, tmp);
        GivenAtFailure(f, p, table, mask, script, accepts);
        outcome := ReadFailed;
        return;
      }
      i := i + 1;
    }
    assert script[..i + 1] == script;
  }

  /** One read, into the buffer and byte by byte. */
  method TakeRead(script: seq<Read>, i: nat, p: Params, table: Table, mask: nat, ghost f: Fold, chunk: array<byte>,
                  len0: nat, h0: word, delivered0: seq<array<byte>>, tmp: array<byte>, accepts: nat -> bool)
    returns (ok: bool, len: nat, h: word, delivered: seq<array<byte>>, ghost g: Fold)
    requires ScriptOk(script) && i < |script| && Valid(p) && tmp.Length == BUFFER && chunk != tmp
    requires f == Run(p, table, mask, START, Input(script[..i])) && AllAccepted(accepts, |f.done|)
    requires Holds(p, table, mask, f, chunk, len0, h0, delivered0, tmp)
    modifies chunk, tmp
    ensures ok ==>
              && g == Run(p, table, mask, START, Input(script[..i + 1])) && AllAccepted(accepts, |g.done|)
              && Holds(p, table, mask, g, chunk, len, h, delivered, tmp)
    ensures !ok ==> GivenWhen(Rejected, g.done, p, table, mask, script, accepts) && Hold(delivered, {}, g.done)
    ensures forall d :: d in delivered ==> d in delivered0 || fresh(d)
  {
    var data := script[i].data;
    assert |data| <= BUFFER;
    HoldsApart(p, table, mask, f, chunk, len0, h0, delivered0, tmp);
    Fill(tmp, data);
    hide *;
    ghost var taken;
    ok, len, h, delivered, g, taken := TakeBuffer(p, table, mask, f, chunk, len0, h0, delivered0, tmp, |data|, accepts);
    RunSplits(p, table, mask, START, Input(script[..i]), data[..taken]);
    assert tmp[..taken] == data[..taken];
    if !ok {
      DueStartsWith(p, table, mask, script, i, taken);
      GivenSoFar(g.done, p, table, mask, script, accepts);
      return;
    }
    InputGrows(script, i);
    assert data[..taken] == data;
  }

  /** Hands every chunk of the input to the callback, which accepts its i-th chunk if
      `accepts(i)`, and stops at the first failure. `given` is what was handed over. */
  method ForEachChunk(script: seq<Read>, p: Params, table: Table, accepts: nat -> bool)
    returns (outcome: Outcome, delivered: seq<array<byte>>, ghost given: seq<seq<byte>>, ghost k: nat)
    requires ScriptOk(script)
    ensures forall d :: d in delivered ==> fresh(d)
    ensures Hold(delivered, {}, given)
    ensures outcome == BadParams <==> !Valid(p)
    ensures outcome == BadParams ==> given == []
    ensures Valid(p) ==> k <= 27 && LeastPower(p.avgSize, k)
    ensures Valid(p) ==> GivenWhen(outcome, given, p, table, Pow2(k) - 1, script, accepts)
  {
    delivered, given, k := [], [], 0;
    if !Valid(p) {
      return BadParams, delivered, given, k;
    }
    var mask;
    mask, k := MaskOf(p);
    hide *;
    outcome, delivered, given := CutAll(script, p, table, mask, accepts);
  }

  /** Reads and cuts the whole input, then hands over the chunk left open. */
  method CutAll(script: seq<Read>, p: Params, table: Table, mask: nat, accepts: nat -> bool)
    returns (outcome: Outcome, delivered: seq<array<byte>>, ghost given: seq<seq<byte>>)
    requires ScriptOk(script) && Valid(p)
    ensures forall d :: d in delivered ==> fresh(d)
    ensures Hold(delivered, {}, given)
    ensures outcome != BadParams && GivenWhen(outcome, given, p, table, mask, script, accepts)
  {
    var chunk := new byte[p.maxSize];
    var tmp := new byte[BUFFER];
    var len, h;
    ghost var f;
    assert script != [];
    hide *;
    outcome, len, h, delivered, f := ReadAll(script, p, table, mask, chunk, tmp, accepts);
    given := f.done;
    if outcome == Done {
      var ok;
      ok, delivered := Flush(p, table, mask, f, chunk, len, h, delivered, tmp, accepts);
      given := Finish(f);
      outcome := if ok then Done else Rejected;
      GivenAtEnd(outcome, f, p, table, mask, script, accepts);
    } else {
      GivenIsNotBad(outcome, given, p, table, mask, script, accepts);
    }
  }

  /** How a run over valid parameters ends: everything due was given and accepted, or the chunks
      up to and including the first one refused. */
  ghost predicate GivenWhen(outcome: Outcome, given: seq<seq<byte>>, p: Params, table: Table, mask: nat,
                            script: seq<Read>, accepts: nat -> bool)
    requires script != []
  {
    match outcome
    case Done => Last(script).ending == Eof && given == Due(p, table, mask, script) && AllAccepted(accepts, |given|)
    case ReadFailed => Last(script).ending == Failed && given == Due(p, table, mask, script) && AllAccepted(accepts, |given|)
    case Rejected => given <= Due(p, table, mask, script) && StoppedAt(accepts, given)
    case BadParams => false
  }

  lemma GivenSoFar(given: seq<seq<byte>>, p: Params, table: Table, mask: nat, script: seq<Read>, accepts: nat -> bool)
    requires script != [] && given <= Due(p, table, mask, script) && StoppedAt(accepts, given)
    ensures GivenWhen(Rejected, given, p, table, mask, script, accepts)
  {
  }

  lemma GivenAtFailure(f: Fold, p: Params, table: Table, mask: nat, script: seq<Read>, accepts: nat -> bool)
    requires script != [] && Last(script).ending == Failed && AllAccepted(accepts, |f.done|)
    requires f == Run(p, table, mask, START, Input(script))
    ensures GivenWhen(ReadFailed, f.done, p, table, mask, script, accepts)
  {
  }

  lemma GivenIsNotBad(outcome: Outcome, given: seq<seq<byte>>, p: Params, table: Table, mask: nat, script: seq<Read>, accepts: nat -> bool)
    requires script != [] && GivenWhen(outcome, given, p, table, mask, script, accepts)
    ensures outcome != BadParams
  {
  }

  lemma GivenAtEnd(outcome: Outcome, f: Fold, p: Params, table: Table, mask: nat, script: seq<Read>, accepts: nat -> bool)
    requires script != [] && Last(script).ending == Eof && f == Run(p, table, mask, START, Input(script))
    requires if outcome == Done then AllAccepted(accepts, |Finish(f)|) else outcome == Rejected && StoppedAt(accepts, Finish(f))
    ensures GivenWhen(outcome, Finish(f), p, table, mask, script, accepts)
  {
  }

  /** The open chunk, if any, is the last. */
  method Flush(p: Params, table: Table, mask: nat, ghost f: Fold, chunk: array<byte>, len: nat, h: word,
               delivered0: seq<array<byte>>, ghost tmp: array<byte>, accepts: nat -> bool)
    returns (ok: bool, delivered: seq<array<byte>>)
    requires Holds(p, table, mask, f, chunk, len, h, delivered0, tmp) && AllAccepted(accepts, |f.done|)
    ensures Hold(delivered, {}, Finish(f))
    ensures if ok then AllAccepted(accepts, |Finish(f)|) else StoppedAt(accepts, Finish(f))
    ensures forall d :: d in delivered ==> d in delivered0 || fresh(d)
  {
    ok, delivered := true, delivered0;
    hide FoldOk;
    assert f.done + [] == f.done;
    if len > 0 {
      var copy := NewCopy(chunk, len);
      delivered := delivered + [copy];
      ok := accepts(|delivered| - 1);
    }
  }

  lemma HoldsApart(p: Params, table: Table, mask: nat, f: Fold, chunk: array<byte>, len: nat, h: word,
                   delivered: seq<array<byte>>, tmp: array<byte>)
    requires Holds(p, table, mask, f, chunk, len, h, delivered, tmp)
    ensures chunk != tmp && tmp !in delivered && Hold(delivered, {}, f.done)
  {
  }

  /** 2^k is the least power of two no smaller than n. */
  ghost predicate LeastPower(n: int, k: nat) { Pow2(k) >= n && (k == 0 || Pow2(k - 1) < n) }

  method MaskOf(p: Params) returns (mask: nat, ghost k: nat)
    requires Valid(p)
    ensures mask == Pow2(k) - 1 && k <= 27 && LeastPower(p.avgSize, k)
  {
    var size;
    size, k := NextPowerOfTwo(p.avgSize);
    MaskFits(p, k);
    mask := size - 1;
  }

  lemma MaskFits(p: Params, k: nat)
    requires Valid(p) && LeastPower(p.avgSize, k)
    ensures k <= 27
  {
    if k > 27 {
      Pow2Grows(27, k - 1);
      assert Pow2(27) == CAP by { assert Pow2(9) == 512; Pow2Splits(9, 9); Pow2Splits(18, 9); }
    }
  }

  lemma PushIs(p: Params, table: Table, mask: nat, f: Fold, b: byte)
    ensures var h, chunk := Roll(f.h, table[b]), f.chunk + [b];
            Push(p, table, mask, f, b) ==
            if |chunk| >= p.minSize && (BitAnd(h, mask) == 0 || |chunk| >= p.maxSize) then Fold(f.done + [chunk], [], 0)
            else Fold(f.done, chunk, h)
  {
  }

  lemma InputGrows(script: seq<Read>, i: nat)
    requires i < |script|
    ensures Input(script[..i + 1]) == Input(script[..i]) + script[i].data
  {
    assert Init(script[..i + 1]) == script[..i];
  }

  lemma RunOneMore(p: Params, table: Table, mask: nat, f: Fold, data: seq<byte>, j: nat)
    requires j < |data|
    ensures Run(p, table, mask, f, data[..j + 1]) == Push(p, table, mask, Run(p, table, mask, f, data[..j]), data[j])
  {
    assert Init(data[..j + 1]) == data[..j];
  }

  /** The chunks of a part of the input come first among those due. */
  lemma DueStartsWith(p: Params, table: Table, mask: nat, script: seq<Read>, i: nat, j: nat)
    requires i < |script| && j <= |script[i].data|
    ensures Run(p, table, mask, START, Input(script[..i]) + script[i].data[..j]).done <= Due(p, table, mask, script)
  {
    var x, y := Input(script[..i]) + script[i].data[..j], script[i].data[j..] + Input(script[i + 1..]);
    assert Input(script) == x + y by {
      assert script == script[..i + 1] + script[i + 1..];
      InputJoins(script[..i + 1], script[i + 1..]);
      InputGrows(script, i);
      assert script[i].data == script[i].data[..j] + script[i].data[j..];
    }
    RunSplits(p, table, mask, START, x, y);
    DonePrefix(p, table, mask, Run(p, table, mask, START, x), y);
  }

  lemma {:induction false} InputJoins(one: seq<Read>, two: seq<Read>)
    ensures Input(one + two) == Input(one) + Input(two)
  {
    if two == [] {
      assert one + two == one;
    } else {
      assert Init(one + two) == one + Init(two) && Last(one + two) == Last(two);
      InputJoins(one, Init(two));
      var a, b, c := Input(one), Input(Init(two)), Last(two).data;
      assert (a + b) + c == a + (b + c);
    }
  }

  lemma {:induction false} DonePrefix(p: Params, table: Table, mask: nat, f: Fold, y: seq<byte>)
    ensures f.done <= Run(p, table, mask, f, y).done
  {
    if y != [] {
      DonePrefix(p, table, mask, f, Init(y));
    }
  }

  lemma LeastPowerIsUnique(n: int, i: nat, j: nat)
    requires LeastPower(n, i) && LeastPower(n, j)
    ensures i == j
  {
    if i < j {
      Pow2Grows(i, j - 1);
    } else if j < i {
      Pow2Grows(j, i - 1);
    }
  }

  /** How a run ends and what it hands over depend on the bytes and on how the input ends alone. */
  lemma GivenIsOfInput(outcome: Outcome, given: seq<seq<byte>>, outcome': Outcome, given': seq<seq<byte>>,
                       p: Params, table: Table, mask: nat, one: seq<Read>, two: seq<Read>, accepts: nat -> bool)
    requires ScriptOk(one) && ScriptOk(two) && Input(one) == Input(two) && Last(one).ending == Last(two).ending
    requires GivenWhen(outcome, given, p, table, mask, one, accepts) && GivenWhen(outcome', given', p, table, mask, two, accepts)
    ensures outcome == outcome' && given == given'
  {
    hide Run;
    hide Chunks;
    var due := Due(p, table, mask, one);
    assert Due(p, table, mask, two) == due;
    if outcome == Rejected && outcome' == Rejected {
      assert |given| == |given'|;
      assert given == due[..|given|] && given' == due[..|given'|];
    }
  }

  /** So two runs over the same bytes, however these are split into reads, end alike and hand over
      the same chunks. */
  method ReadsDoNotMatter(one: seq<Read>, two: seq<Read>, p: Params, table: Table, accepts: nat -> bool)
    returns (outcome: Outcome, delivered: seq<array<byte>>, outcome': Outcome, delivered': seq<array<byte>>)
    requires ScriptOk(one) && ScriptOk(two) && Input(one) == Input(two) && Last(one).ending == Last(two).ending
    ensures outcome == outcome' && |delivered| == |delivered'|
    ensures forall i :: 0 <= i < |delivered| ==> delivered[i][..] == delivered'[i][..]
  {
    ghost var given, k, given', k';
    outcome, delivered, given, k := ForEachChunk(one, p, table, accepts);
    outcome', delivered', given', k' := ForEachChunk(two, p, table, accepts);
    hide GivenWhen;
    hide LeastPower;
    if Valid(p) {
      LeastPowerIsUnique(p.avgSize, k, k');
      GivenIsOfInput(outcome, given, outcome', given', p, table, Pow2(k) - 1, one, two, accepts);
    }
  }
}
