/** The integrity tag of a vault configuration and the freshness anchor each device keeps of it. */
module ConfigAnchor {
  import opened Prelude

  type Key = int
  type Fields = string

  /** A tag in a configuration file: none, the keyed hash of what it covers, or any other bytes.
      The hash is ideal: it is equal only for equal keys and equal contents. */
  datatype Tag = NoTag | Mac(key: Key, fields: Fields, epoch: int) | Bytes(raw: string)

  datatype Config = Config(fields: Fields, epoch: int, tag: Tag)

  function ComputeTag(master: Key, c: Config): Tag { Mac(master, c.fields, c.epoch) }

  predicate Verifies(master: Key, c: Config) { c.tag != NoTag && c.tag == ComputeTag(master, c) }

  datatype Anchor = Anchor(epoch: int, hasTag: bool, tag: Tag)

  const ZERO := Anchor(0, false, NoTag)

  /** The anchor file; one that does not parse counts as missing. */
  datatype AnchorFile = Missing | Garbage | Stored(anchor: Anchor)

  function Loaded(f: AnchorFile): Option<Anchor> { if f.Stored? then Some(f.anchor) else None }

  datatype Verdict = Accepted | Tampered | RolledBack | Diverged

  // ---- What opening and recording do when the anchor can be reached ----

  function Raised(cur: Anchor, epoch: int, hasTag: bool, tag: Tag): Anchor {
    Anchor(Max(cur.epoch, epoch),
           cur.hasTag || hasTag,
           if tag != NoTag && (epoch > cur.epoch || (epoch == cur.epoch && cur.tag == NoTag)) then tag else cur.tag)
  }

  function AfterRecord(f: AnchorFile, epoch: int, hasTag: bool, tag: Tag): AnchorFile {
    Stored(Raised(if Loaded(f).Some? then f.anchor else ZERO, epoch, hasTag, tag))
  }

  function Freshness(f: AnchorFile, c: Config, acceptRollback: bool): Verdict {
    if Loaded(f) == None then Accepted
    else if c.epoch < f.anchor.epoch then if acceptRollback then Accepted else RolledBack
    else if c.epoch == f.anchor.epoch && f.anchor.tag != NoTag && c.tag != f.anchor.tag then Diverged
    else Accepted
  }

  function Judge(master: Key, f: AnchorFile, c: Config, acceptRollback: bool): Verdict {
    if c.tag != NoTag then if Verifies(master, c) then Freshness(f, c, acceptRollback) else Tampered
    else if Loaded(f).Some? && f.anchor.hasTag then Tampered
    else Accepted
  }

  function AfterOpen(master: Key, f: AnchorFile, c: Config, acceptRollback: bool): AnchorFile {
    if Judge(master, f, c, acceptRollback) != Accepted || c.tag == NoTag then f
    else AfterRecord(if Loaded(f).Some? && c.epoch < f.anchor.epoch then Missing else f, c.epoch, true, c.tag)
  }

  function Retagged(master: Key, c: Config, fields: Fields): Config {
    Config(fields, c.epoch + 1, Mac(master, fields, c.epoch + 1))
  }

  // ---- And when some of its steps fail ----

  /** Which steps on the anchor file go through. */
  datatype Io = Io(located: bool, readable: bool, removable: bool, writable: bool)

  const WORKING := Io(true, true, true, true)

  predicate Reachable(f: AnchorFile, io: Io) { io.located && (io.readable || f == Missing) }

  /** An unreadable anchor is written over. */
  function RecordedFile(f: AnchorFile, epoch: int, hasTag: bool, tag: Tag, io: Io): AnchorFile {
    if io.located && io.writable then AfterRecord(if io.readable then f else Missing, epoch, hasTag, tag) else f
  }

  function ClearedFile(f: AnchorFile, io: Io): AnchorFile { if io.located && io.removable then Missing else f }

  /** An anchor out of reach never blocks an open. */
  function VerdictWith(master: Key, f: AnchorFile, c: Config, acceptRollback: bool, io: Io): Verdict {
    if Reachable(f, io) then Judge(master, f, c, acceptRollback)
    else if c.tag != NoTag && !Verifies(master, c) then Tampered
    else Accepted
  }

  predicate IsRollback(f: AnchorFile, c: Config) { f.Stored? && c.epoch < f.anchor.epoch }

  function FileAfterOpen(master: Key, f: AnchorFile, c: Config, acceptRollback: bool, io: Io): AnchorFile {
    if !Reachable(f, io) || c.tag == NoTag || Judge(master, f, c, acceptRollback) != Accepted then f
    else RecordedFile(if IsRollback(f, c) then ClearedFile(f, io) else f, c.epoch, true, c.tag, io)
  }

  /** The anchor says that a tag is required. */
  predicate TagRequired(f: AnchorFile) { f.Stored? && f.anchor.hasTag }

  /** The old anchor could be removed and the new one not written. */
  predicate LosesAnchor(io: Io) { io.located && io.readable && io.removable && !io.writable }

  // ---- The device ----

  class Device {
    const master: Key
    var file: AnchorFile
    /** The configuration this device has open, and the one in the vault. */
    var config: Config
    var published: Config
    var note: bool

    constructor (master: Key, published: Config)
      ensures this.master == master && this.published == published && config == published && file == Missing && !note
    {
      this.master, this.published, config, file, note := master, published, published, Missing, false;
    }

    method LoadAnchor(io: Io) returns (ok: bool, existed: bool, anchor: Anchor)
      ensures ok == (io.located && (io.readable || file == Missing))
      ensures existed == (ok && file.Stored?) && anchor == if existed then file.anchor else ZERO
    {
      ok := io.located && (io.readable || file == Missing);
      existed := ok && file.Stored?;
      anchor := if existed then file.anchor else ZERO;
    }

    /** Best-effort: what cannot be written is noted. An unreadable anchor is written over. */
    method RecordAnchor(epoch: int, hasTag: bool, tag: Tag, io: Io) returns (noted: bool)
      modifies this`file
      ensures file == RecordedFile(old(file), epoch, hasTag, tag, io)
      ensures noted <==> !io.located || (!io.writable && !(io.readable && old(file) == AfterRecord(old(file), epoch, hasTag, tag)))
      ensures io == WORKING ==> !noted && file == AfterRecord(old(file), epoch, hasTag, tag)
      ensures !io.located ==> noted
    {
      if !io.located {
        return true;
      }
      var ok, existed, cur := LoadAnchor(io);
      var next := cur;
      if epoch > next.epoch {
        next := next.(epoch := epoch);
        if tag != NoTag {
          next := next.(tag := tag);
        }
      } else if epoch == next.epoch && next.tag == NoTag && tag != NoTag {
        next := next.(tag := tag);
      }
      if hasTag {
        next := next.(hasTag := true);
      }
      if existed && next == cur {
        return false;
      }
      if !io.writable {
        return true;
      }
      file := Stored(next);
      noted := false;
    }

    method ClearAnchor(io: Io) returns (noted: bool)
      modifies this`file
      ensures file == ClearedFile(old(file), io)
      ensures noted == !(io.located && (io.removable || old(file) == Missing))
    {
      if !io.located {
        return true;
      }
      if !io.removable && file != Missing {
        return true;
      }
      file := Missing;
      noted := false;
    }

    /** The freshness gate for a configuration whose tag has verified. */
    method CheckFreshness(acceptRollback: bool, io: Io) returns (verdict: Verdict)
      requires Verifies(master, config)
      modifies this`file, this`note
      ensures io == WORKING ==>
                verdict == Judge(master, old(file), config, acceptRollback)
                && file == AfterOpen(master, old(file), config, acceptRollback) && note == old(note)
      ensures !io.located || (!io.readable && old(file) != Missing) ==> verdict == Accepted && file == old(file) && note
      ensures verdict != Accepted ==> file == old(file)
      ensures verdict == VerdictWith(master, old(file), config, acceptRollback, io)
      ensures file == FileAfterOpen(master, old(file), config, acceptRollback, io)
      ensures TagRequired(old(file)) ==>
                (TagRequired(file) <==> !(acceptRollback && IsRollback(old(file), config) && LosesAnchor(io)))
    {
      var ok, existed, anchor := LoadAnchor(io);
      if !ok {
        note := true;
        return Accepted;
      }
      if existed {
        if config.epoch < anchor.epoch {
          if acceptRollback {
            var noted := ClearAnchor(io);
            if noted {
              note := true;
            }
          } else {
            return RolledBack;
          }
        } else if config.epoch == anchor.epoch && anchor.tag != NoTag && config.tag != anchor.tag {
          return Diverged;
        }
      }
      var noted := RecordAnchor(config.epoch, true, config.tag, io);
      if noted {
        note := true;
      }
      verdict := Accepted;
    }

    /** The gate of every open, for the configuration the vault now serves. */
    method Open(acceptRollback: bool, io: Io) returns (verdict: Verdict)
      modifies this
      ensures config == published == old(published)
      ensures io == WORKING ==>
                verdict == Judge(master, old(file), published, acceptRollback)
                && file == AfterOpen(master, old(file), published, acceptRollback) && !note
      ensures verdict != Accepted ==> file == old(file)
      ensures published.tag != NoTag && !Verifies(master, published) ==> verdict == Tampered
      ensures verdict == VerdictWith(master, old(file), published, acceptRollback, io)
      ensures file == FileAfterOpen(master, old(file), published, acceptRollback, io)
      ensures TagRequired(old(file)) ==>
                (TagRequired(file) <==>
                 !(Verifies(master, published) && acceptRollback && IsRollback(old(file), published) && LosesAnchor(io)))
    {
      config, note := published, false;
      if config.tag != NoTag {
        if config.tag != ComputeTag(master, config) {
          return Tampered;
        }
        verdict := CheckFreshness(acceptRollback, io);
        return;
      }
      var ok, existed, anchor := LoadAnchor(io);
      if !ok {
        note := true;
        return Accepted;
      }
      if existed && anchor.hasTag {
        return Tampered;
      }
      verdict := Accepted;
    }

    /** The ratchet: tags an untagged configuration, published before it is anchored. A crash may
        fall between the two. */
    method EnsureConfigMAC(failWrite: bool, crash: bool, io: Io) returns (wrote: bool)
      modifies this
      ensures wrote <==> config.tag != old(config).tag || published != old(published) || config != old(config)
      ensures old(config).tag != NoTag || failWrite ==>
                !wrote && config == old(config) && published == old(published) && file == old(file)
      ensures wrote ==>
                && published.fields == old(config).fields && published.epoch == old(config).epoch + 1
                && published.tag == Mac(master, published.fields, published.epoch)
      ensures old(config).tag == NoTag && !failWrite ==>
                && published == config == Retagged(master, old(config), old(config).fields) && Verifies(master, config)
                && (crash ==> file == old(file))
                && (!crash ==> file == RecordedFile(old(file), config.epoch, true, config.tag, io))
    {
      if config.tag != NoTag {
        return false;
      }
      var next := config.(epoch := config.epoch + 1);
      next := next.(tag := ComputeTag(master, next));
      if failWrite {
        return false;
      }
      published := next;
      config := next;
      wrote := true;
      if crash {
        return;
      }
      var noted := RecordAnchor(next.epoch, true, next.tag, io);
      if noted {
        note := true;
      }
    }

    /** Any other change to the configuration goes the same way. */
    method RewriteConfig(fields: Fields, failWrite: bool, crash: bool, io: Io) returns (wrote: bool)
      modifies this
      ensures wrote == !failWrite
      ensures failWrite ==> config == old(config) && published == old(published) && file == old(file)
      ensures wrote ==>
                && published.fields == fields && published.epoch == old(config).epoch + 1
                && published.tag == Mac(master, published.fields, published.epoch)
      ensures wrote ==>
                && published == config == Retagged(master, old(config), fields) && Verifies(master, config)
                && (crash ==> file == old(file))
                && (!crash ==> file == RecordedFile(old(file), config.epoch, true, config.tag, io))
    {
      if failWrite {
        return false;
      }
      var next := config.(fields := fields, epoch := config.epoch + 1);
      next := next.(tag := ComputeTag(master, next));
      published := next;
      config := next;
      wrote := true;
      if crash {
        return;
      }
      var noted := RecordAnchor(next.epoch, true, next.tag, io);
      if noted {
        note := true;
      }
    }
  }

  // ---- Runs of one device ----

  /** What happens to a device: it is served a configuration, whoever chose it; having opened
      one, it may ratchet it or rewrite it, or crash after publishing that; a rollback it accepts
      may crash after the old anchor is cleared. Any step on the anchor may fail. */
  datatype Event =
    | Serve(c: Config, acceptRollback: bool, io: Io)
    | Rewrite(fields: Fields, crash: bool, io: Io)
    | CrashInRollback(c: Config, io: Io)

  /** The anchor, the configuration open if any, and those trusted so far. */
  datatype State = State(file: AnchorFile, open: Option<Config>, trusted: seq<Config>)

  const FIRST := State(Missing, None, [])

  ghost predicate Step(master: Key, s: State, e: Event, s': State) {
    match e
    case Serve(c, acceptRollback, io) =>
      if VerdictWith(master, s.file, c, acceptRollback, io) == Accepted
      then s' == State(FileAfterOpen(master, s.file, c, acceptRollback, io), Some(c), s.trusted + [c])
      else s' == s.(open := None)
    case Rewrite(fields, crash, io) =>
      && s.open.Some?
      && var next := Retagged(master, s.open.value, fields);
      s' == if crash then State(s.file, None, s.trusted)
            else State(RecordedFile(s.file, next.epoch, true, next.tag, io), Some(next), s.trusted + [next])
    case CrashInRollback(c, io) =>
      && Verifies(master, c) && IsRollback(s.file, c) && Reachable(s.file, io)
      && s' == State(ClearedFile(s.file, io), None, s.trusted)
  }

  /** A rewrite that completes leaves the configuration with its new fields open, at the next epoch
      and tagged; and that configuration opens again, here and on every device that has the key and
      an anchor no newer. */
  lemma RewriteIsOpen(master: Key, s: State, fields: Fields, io: Io, s': State, f: AnchorFile)
    requires Step(master, s, Rewrite(fields, false, io), s')
    requires f.Stored? ==> f.anchor.epoch <= s.open.value.epoch
    ensures s'.open.Some? && s'.open.value.fields == fields && s'.open.value.epoch == s.open.value.epoch + 1
    ensures s'.open.value.tag == Mac(master, fields, s.open.value.epoch + 1) && s'.trusted == s.trusted + [s'.open.value]
    ensures Judge(master, f, s'.open.value, false) == Accepted
    ensures forall other :: other != master ==> Judge(other, f, s'.open.value, false) == Tampered
  {
  }

  ghost predicate IsRun(master: Key, run: seq<State>, events: seq<Event>) {
    && |run| == |events| + 1 && run[0] == FIRST
    && forall i :: 0 <= i < |events| ==> Step(master, run[i], events[i], run[i + 1])
  }

  predicate Waives(e: Event) { (e.Serve? && e.acceptRollback) || e.CrashInRollback? }

  /** Tagged configurations come with non-negative epochs. */
  predicate EpochOk(e: Event) { e.Serve? && e.c.tag != NoTag ==> e.c.epoch >= 0 }

  /** No rollback is accepted, and the anchor can be reached and written. */
  ghost predicate Ordinary(events: seq<Event>) { forall e :: e in events ==> !Waives(e) && EpochOk(e) && e.io == WORKING }

  /** The newest tagged configuration is what the anchor holds, and nothing untagged follows one. */
  ghost predicate Inv(master: Key, s: State) {
    && (forall i :: 0 <= i < |s.trusted| && s.trusted[i].tag != NoTag ==>
          Verifies(master, s.trusted[i]) && s.trusted[i].epoch >= 0)
    && (forall i, j :: 0 <= i < j < |s.trusted| && s.trusted[i].tag != NoTag ==> Follows(s.trusted[i], s.trusted[j]))
    && (s.trusted != [] && Last(s.trusted).tag != NoTag ==>
          s.file == Stored(Anchor(Last(s.trusted).epoch, true, Last(s.trusted).tag)))
    && (s.trusted == [] || Last(s.trusted).tag == NoTag ==> s.file == Missing)
    && (s.open.Some? ==> s.trusted != [] && Last(s.trusted) == s.open.value)
  }

  predicate Follows(a: Config, b: Config) {
    b.tag != NoTag && a.epoch <= b.epoch && (a.epoch == b.epoch ==> a == b)
  }

  lemma StepKeeps(master: Key, s: State, e: Event, s': State)
    requires Inv(master, s) && Step(master, s, e, s') && !Waives(e) && EpochOk(e) && e.io == WORKING
    requires e.Rewrite? && s.open.Some? ==> s.open.value.epoch >= -1
    ensures Inv(master, s')
  {
    if s'.trusted != s.trusted {
      var c := Last(s'.trusted);
      assert s'.trusted == s.trusted + [c];
      if s.trusted != [] && Last(s.trusted).tag != NoTag {
        assert Follows(Last(s.trusted), c);
      }
      forall i | 0 <= i < |s.trusted| && s.trusted[i].tag != NoTag ensures Follows(s.trusted[i], c) {
        if i < |s.trusted| - 1 {
          assert Follows(s.trusted[i], Last(s.trusted));
        }
      }
    }
  }

  ghost predicate UntaggedOk(events: seq<Event>) { forall e :: e in events && e.Serve? ==> e.c.epoch >= -1 }

  lemma {:induction false} OpenEpochOk(master: Key, run: seq<State>, events: seq<Event>)
    requires IsRun(master, run, events) && UntaggedOk(events)
    ensures forall c :: c in Last(run).trusted ==> c.epoch >= -1
    ensures Last(run).open.Some? ==> Last(run).open.value in Last(run).trusted
  {
    if events != [] {
      var front := Init(run);
      assert events == Init(events) + [Last(events)];
      OpenEpochOk(master, front, Init(events));
      assert Step(master, Last(front), Last(events), Last(run));
    }
  }

  /** Freshness over every run without an accepted rollback, with crashes in the ratchet or a
      rewrite allowed: the tagged configurations a device trusts have non-decreasing epochs, equal
      epochs mean the same configuration, all verify, and after one of them no untagged one is
      trusted. */
  lemma {:induction false} FreshnessOverRuns(master: Key, run: seq<State>, events: seq<Event>)
    requires IsRun(master, run, events) && Ordinary(events) && UntaggedOk(events)
    ensures Inv(master, Last(run))
    ensures var t := Last(run).trusted;
            forall i, j :: 0 <= i < j < |t| && t[i].tag != NoTag ==> Follows(t[i], t[j])
  {
    if events != [] {
      var front := Init(run);
      assert events == Init(events) + [Last(events)];
      FreshnessOverRuns(master, front, Init(events));
      OpenEpochOk(master, front, Init(events));
      assert Step(master, Last(front), Last(events), Last(run));
      StepKeeps(master, Last(front), Last(events), Last(run));
    }
  }

  // ---- Rollbacks and crashes ----

  /** Accepting a rollback turns that one refusal into an open and no other; the anchor then holds
      the older configuration, with its tag still required (for epochs from zero up). */
  lemma AcceptRollbackWaivesOnlyRollback(master: Key, f: AnchorFile, c: Config)
    ensures Judge(master, f, c, true) == if Judge(master, f, c, false) == RolledBack then Accepted else Judge(master, f, c, false)
    ensures Judge(master, f, c, false) != RolledBack ==> AfterOpen(master, f, c, true) == AfterOpen(master, f, c, false)
    ensures Judge(master, f, c, false) == RolledBack ==>
              var g := AfterOpen(master, f, c, true);
              && g.Stored? && g.anchor.hasTag && g.anchor.epoch == Max(c.epoch, 0)
              && (c.epoch >= 0 ==> g.anchor.tag == c.tag)
              && forall d: Config, accept :: d.tag == NoTag ==> Judge(master, g, d, accept) == Tampered
  {
  }

  /** A tag requirement, once anchored, survives every open but one that accepts a rollback, removes
      the old anchor, and then fails to write the new one. */
  lemma HasTagStays(master: Key, f: AnchorFile, c: Config, acceptRollback: bool, io: Io)
    requires TagRequired(f)
    ensures TagRequired(FileAfterOpen(master, f, c, acceptRollback, io)) <==>
            !(Verifies(master, c) && acceptRollback && IsRollback(f, c) && LosesAnchor(io))
    ensures TagRequired(AfterOpen(master, f, c, acceptRollback)) && FileAfterOpen(master, f, c, acceptRollback, WORKING) == AfterOpen(master, f, c, acceptRollback)
  {
  }

  /** An untagged configuration is refused exactly where a tag is required and the anchor is reached. */
  lemma UntaggedRefusedExactly(master: Key, f: AnchorFile, c: Config, acceptRollback: bool, io: Io)
    requires c.tag == NoTag
    ensures VerdictWith(master, f, c, acceptRollback, io) != Accepted <==> TagRequired(f) && io.located && io.readable
  {
  }

  /** The requirement is anchored by an open of a tagged configuration, or a rewrite, whose write of
      the anchor goes through. */
  predicate Latches(master: Key, f: AnchorFile, e: Event) {
    match e
    case Serve(c, acceptRollback, io) =>
      c.tag != NoTag && Reachable(f, io) && Judge(master, f, c, acceptRollback) == Accepted && io.writable
    case Rewrite(fields, crash, io) => !crash && io.located && io.writable
    case CrashInRollback(c, io) => false
  }

  /** It is lost by an accepted rollback that stops between removing the old anchor and writing the
      new one, in a crash or because the write fails. */
  predicate Forgets(master: Key, f: AnchorFile, e: Event) {
    match e
    case Serve(c, acceptRollback, io) => Verifies(master, c) && acceptRollback && IsRollback(f, c) && LosesAnchor(io)
    case Rewrite(fields, crash, io) => false
    case CrashInRollback(c, io) => io.removable
  }

  lemma TagRequiredStep(master: Key, s: State, e: Event, s': State)
    requires Step(master, s, e, s')
    ensures TagRequired(s'.file) <==> Latches(master, s.file, e) || (TagRequired(s.file) && !Forgets(master, s.file, e))
  {
  }

  ghost predicate LatchedSince(master: Key, run: seq<State>, events: seq<Event>, i: nat, n: nat)
    requires |run| == |events| + 1 && n <= |events|
  {
    i < n && Latches(master, run[i].file, events[i]) && forall j :: i < j < n ==> !Forgets(master, run[j].file, events[j])
  }

  /** Over every run, with rollbacks, crashes and any failure of the anchor: a tag is required
      exactly when it was anchored and neither of those two events has happened since. */
  lemma {:induction false} TagRequiredExactly(master: Key, run: seq<State>, events: seq<Event>, n: nat)
    requires IsRun(master, run, events) && n < |run|
    ensures TagRequired(run[n].file) <==> exists i :: LatchedSince(master, run, events, i, n)
  {
    if n > 0 {
      TagRequiredExactly(master, run, events, n - 1);
      TagRequiredStep(master, run[n - 1], events[n - 1], run[n]);
      hide Step;
      hide Latches;
      hide Forgets;
      hide TagRequired;
      if Latches(master, run[n - 1].file, events[n - 1]) {
        assert LatchedSince(master, run, events, n - 1, n);
      } else if TagRequired(run[n].file) {
        var i :| LatchedSince(master, run, events, i, n - 1);
        assert LatchedSince(master, run, events, i, n);
      }
      if i :| LatchedSince(master, run, events, i, n) {
        assert i == n - 1 || LatchedSince(master, run, events, i, n - 1);
      }
    }
  }

  /** The epoch mark falls where an accepted rollback clears it, and where a rewrite writes over an
      anchor it could not read. */
  predicate Lowers(master: Key, s: State, e: Event)
    requires s.file.Stored?
  {
    match e
    case Serve(c, acceptRollback, io) =>
      && Verifies(master, c) && acceptRollback && IsRollback(s.file, c) && Reachable(s.file, io) && io.removable
      && (io.writable ==> Max(c.epoch, 0) < s.file.anchor.epoch)
    case Rewrite(fields, crash, io) =>
      && !crash && io.located && io.writable && !io.readable
      && s.open.Some? && Max(s.open.value.epoch + 1, 0) < s.file.anchor.epoch
    case CrashInRollback(c, io) => io.removable
  }

  /** Every other event keeps the mark or raises it. */
  lemma MarkStaysExactly(master: Key, s: State, e: Event, s': State)
    requires Step(master, s, e, s') && s.file.Stored?
    ensures s'.file.Stored? && s'.file.anchor.epoch >= s.file.anchor.epoch <==> !Lowers(master, s, e)
  {
    hide ComputeTag;
  }

  /** Each of the two does happen: the device then trusts an untagged configuration again. */
  lemma CrashInRollbackForgetsTag(master: Key, c: Config, d: Config)
    requires Verifies(master, c) && Verifies(master, d) && 0 <= c.epoch < d.epoch
    ensures var bare := Config(c.fields, c.epoch, NoTag);
            var anchored := State(Stored(Anchor(d.epoch, true, d.tag)), Some(d), [d]);
            var crashed := State(Missing, None, [d]);
            var after := State(Missing, Some(bare), [d, bare]);
            && Step(master, FIRST, Serve(d, false, WORKING), anchored)
            && Step(master, anchored, CrashInRollback(c, WORKING), crashed)
            && Step(master, crashed, Serve(bare, false, WORKING), after)
            && Step(master, anchored, Serve(bare, false, WORKING), anchored.(open := None))
  {
    assert [d] + [Config(c.fields, c.epoch, NoTag)] == [d, Config(c.fields, c.epoch, NoTag)];
  }

  /** On a full disk a file can be removed and none written. */
  lemma FullDiskForgetsTag(master: Key, c: Config, d: Config)
    requires Verifies(master, c) && Verifies(master, d) && 0 <= c.epoch < d.epoch
    ensures var bare := Config(c.fields, c.epoch, NoTag);
            var anchored := State(Stored(Anchor(d.epoch, true, d.tag)), Some(d), [d]);
            var served := State(Missing, Some(c), [d, c]);
            var after := State(Missing, Some(bare), [d, c, bare]);
            && Step(master, FIRST, Serve(d, false, WORKING), anchored)
            && Step(master, anchored, Serve(c, true, Io(true, true, true, false)), served)
            && Step(master, served, Serve(bare, false, WORKING), after)
  {
    var bare := Config(c.fields, c.epoch, NoTag);
    assert [d] + [c] == [d, c] && [d, c] + [bare] == [d, c, bare];
  }

  /** A tag covers all of a configuration: with other fields or another epoch it is refused. */
  lemma ChangedIsTampered(master: Key, f: AnchorFile, c: Config, d: Config, accept: bool)
    requires Verifies(master, c) && d.tag == c.tag
    ensures Judge(master, f, d, accept) == Tampered <==> d.fields != c.fields || d.epoch != c.epoch
  {
  }

  /** Of two configurations published at one epoch a device that has accepted one refuses the other,
      whether or not rollbacks are accepted. */
  lemma DivergenceIsRefused(master: Key, f: AnchorFile, c: Config, d: Config, accept: bool, again: bool)
    requires Verifies(master, c) && Verifies(master, d) && c.epoch == d.epoch && c.fields != d.fields
    requires Judge(master, f, c, accept) == Accepted && c.epoch >= 0
    ensures Judge(master, AfterOpen(master, f, c, accept), d, again) == Diverged
  {
  }

  /** A configuration a device has accepted opens there again exactly when its epoch was at or
      above the anchored one, or is not negative: a first sight of a negative epoch anchors zero,
      which refuses it from then on, but where a rollback is accepted each time. */
  lemma ReopensExactly(master: Key, f: AnchorFile, c: Config, accept: bool)
    requires c.tag != NoTag && Judge(master, f, c, accept) == Accepted
    ensures Judge(master, AfterOpen(master, f, c, accept), c, false) == Accepted <==>
            c.epoch >= 0 || (Loaded(f).Some? && f.anchor.epoch <= c.epoch)
    ensures Judge(master, AfterOpen(master, f, c, accept), c, true) == Accepted
  {
  }

  /** A crash between publishing a new configuration and anchoring it costs nothing: the next
      open accepts it, without a rollback refusal, and leaves the anchor the crash prevented. */
  lemma CrashAfterPublishRecovers(master: Key, f: AnchorFile, c: Config, fields: Fields)
    requires f == Missing || f == Garbage || (f.Stored? && f.anchor.epoch <= c.epoch)
    ensures var next := Retagged(master, c, fields);
            && Judge(master, f, next, false) == Accepted
            && AfterOpen(master, f, next, false) == AfterRecord(f, next.epoch, true, next.tag)
  {
  }
}
