/** A reference account of one key, written over nothing but the times of its counted
    failures: which logs the limiter can produce, and what streak and how many consecutive
    locks a log stands for. AuthRuns proves that the running limiter refines it. */
module AuthLadder {
  import opened Prelude
  import opened AuthLimit

  /** The streak of consecutive failures, and how many locks in a row it has earned. */
  datatype Ladder = Ladder(streak: int, locks: nat)

  /** Where the ladder stands right after the last failure of the log. */
  function After(p: Policy, t: int, log: seq<int>): (l: Ladder)
    requires t > 0
    ensures 0 <= l.streak <= t
    ensures log != [] ==> l.streak > 0
    ensures l.streak == t ==> l.locks > 0
    decreases |log|, 0
  {
    if log == [] then Ladder(0, 0) else
    var b := Before(p, t, Init(log), Last(log));
    Ladder(b.streak + 1, if b.streak + 1 >= t then b.locks + 1 else b.locks)
  }

  /** Where it stands at a later unlocked time: a stale streak is forgotten altogether, an
      expired lock leaves room for one more attempt. */
  function Before(p: Policy, t: int, log: seq<int>, now: int): (l: Ladder)
    requires t > 0
    ensures 0 <= l.streak < t
    decreases |log|, 1
  {
    if log == [] || now - Last(log) >= p.window then Ladder(0, 0) else
    var a := After(p, t, log);
    if a.streak >= t then a.(streak := t - 1) else a
  }

  /** The length of the n-th consecutive lock, as the limiter computes it. */
  function LockLen(p: Policy, n: nat): (len: int)
    requires Normal(p)
    ensures n == 0 ==> len == 0
    ensures n > 0 ==> p.lockStart <= len <= p.lockMax
  {
    if n == 0 then 0 else NextLockLen(p, LockLen(p, n - 1))
  }

  /** Doubling step by step with a cap at every step is doubling n times and capping once. */
  lemma {:induction false} LockLenClosedForm(p: Policy, n: nat)
    requires Normal(p)
    ensures LockLen(p, n + 1) == Min(p.lockStart * Pow2(n), p.lockMax)
  {
    if n > 0 {
      LockLenClosedForm(p, n - 1);
      assert p.lockStart * Pow2(n) == 2 * (p.lockStart * Pow2(n - 1));
    }
  }

  /** No failure is counted before the previous one, nor while a lock is running. */
  ghost predicate LogOk(p: Policy, t: int, log: seq<int>)
    requires Normal(p) && t > 0
    decreases |log|
  {
    log == [] || (LogOk(p, t, Init(log)) && Admissible(p, t, Init(log), Last(log)))
  }

  ghost predicate Admissible(p: Policy, t: int, log: seq<int>, now: int)
    requires Normal(p) && t > 0
  {
    log == [] ||
    (var a := After(p, t, log);
     now >= Last(log) + if a.streak >= t then LockLen(p, a.locks) else 0)
  }

  // ---- Rate ----

  /** Any t + 1 counted failures span at least LockStart. */
  ghost predicate Spaced(p: Policy, t: int, log: seq<int>)
    requires t > 0
  {
    forall i :: 0 <= i && i + t < |log| ==> log[i + t] >= log[i] + p.lockStart
  }

  /** Failures no longer in the streak are at least LockStart old when the next may be counted. */
  lemma {:induction false} ForgottenFailuresAreOld(p: Policy, t: int, log: seq<int>, now: int)
    requires Normal(p) && t > 0 && (p.lockStart <= p.window || t == 1)
    requires LogOk(p, t, log) && Admissible(p, t, log, now)
    ensures forall i :: 0 <= i < |log| - Before(p, t, log, now).streak ==> now >= log[i] + p.lockStart
    decreases |log|
  {
    if log != [] {
      ForgottenFailuresAreOld(p, t, Init(log), Last(log));
      LogIsSorted(p, t, log);
    }
  }

  lemma {:induction false} LogIsSorted(p: Policy, t: int, log: seq<int>)
    requires Normal(p) && t > 0 && LogOk(p, t, log)
    ensures forall i :: 0 <= i < |log| ==> log[i] <= Last(log)
    ensures forall i, j :: 0 <= i <= j < |log| ==> log[i] <= log[j]
    decreases |log|
  {
    if log != [] {
      LogIsSorted(p, t, Init(log));
    }
  }

  lemma {:induction false} LogIsSpaced(p: Policy, t: int, log: seq<int>)
    requires Normal(p) && t > 0 && LogOk(p, t, log)
    requires p.lockStart <= p.window || t == 1
    ensures Spaced(p, t, log)
    decreases |log|
  {
    if log != [] {
      LogIsSpaced(p, t, Init(log));
      ForgottenFailuresAreOld(p, t, Init(log), Last(log));
      forall i | 0 <= i && i + t < |log| ensures log[i + t] >= log[i] + p.lockStart {
        if i + t < |log| - 1 {
          assert Init(log)[i + t] >= Init(log)[i] + p.lockStart;
        }
      }
    }
  }

  lemma SpanAt(p: Policy, t: int, log: seq<int>, i: nat)
    requires t > 0 && Spaced(p, t, log) && i + t < |log|
    ensures log[i + t] >= log[i] + p.lockStart
  {
  }

  /** How many entries of the log fall in the half-open interval [from, to). */
  function CountIn(log: seq<int>, from: int, to: int): (n: nat)
    ensures n <= |log|
  {
    if log == [] then 0 else (if from <= Last(log) < to then 1 else 0) + CountIn(Init(log), from, to)
  }

  lemma {:induction false} CountPlacesEarliest(log: seq<int>, from: int, to: int)
    requires forall i, j :: 0 <= i <= j < |log| ==> log[i] <= log[j]
    ensures CountIn(log, from, to) > 0 ==>
              exists j :: CountIn(log, from, to) - 1 <= j < |log| && log[j] < to
                          && from <= log[j - (CountIn(log, from, to) - 1)]
  {
    if log != [] {
      var n := CountIn(Init(log), from, to);
      CountPlacesEarliest(Init(log), from, to);
      if from <= Last(log) < to {
        var j := |log| - 1;
        if n > 0 {
          var i :| n - 1 <= i < |Init(log)| && Init(log)[i] < to && from <= Init(log)[i - (n - 1)];
          assert log[i - (n - 1)] <= log[j - n];
        }
        assert CountIn(log, from, to) - 1 <= j < |log| && log[j] < to
            && from <= log[j - (CountIn(log, from, to) - 1)];
      } else if n > 0 {
        var i :| n - 1 <= i < |Init(log)| && Init(log)[i] < to && from <= Init(log)[i - (n - 1)];
        assert CountIn(log, from, to) == n && log[i - (n - 1)] == Init(log)[i - (n - 1)] && log[i] == Init(log)[i];
      }
    }
  }

  /** A half-open interval of length LockStart holds at most t counted failures. */
  lemma RateBound(p: Policy, t: int, log: seq<int>, from: int)
    requires Normal(p) && t > 0 && LogOk(p, t, log)
    requires p.lockStart <= p.window || t == 1
    ensures CountIn(log, from, from + p.lockStart) <= t
  {
    LogIsSpaced(p, t, log);
    LogIsSorted(p, t, log);
    hide *;
    SpacedMeansFew(p, t, log, from);
  }

  lemma SpacedMeansFew(p: Policy, t: int, log: seq<int>, from: int)
    requires t > 0 && Spaced(p, t, log) && forall i, j :: 0 <= i <= j < |log| ==> log[i] <= log[j]
    ensures CountIn(log, from, from + p.lockStart) <= t
  {
    hide Spaced;
    hide CountIn;
    var n := CountIn(log, from, from + p.lockStart);
    if n > t {
      CountPlacesEarliest(log, from, from + p.lockStart);
      var j :| n - 1 <= j < |log| && log[j] < from + p.lockStart && from <= log[j - (n - 1)];
      assert log[j - (n - 1)] <= log[j - t];
      SpanAt(p, t, log, j - t);
      assert false;
    }
  }

  // ---- The ladder ----

  /** Every failure comes less than Window after the one before. */
  ghost predicate Dense(p: Policy, log: seq<int>) {
    forall i :: 0 < i < |log| ==> log[i] - log[i - 1] < p.window
  }

  /** With every failure less than Window after the one before, failure number t + n - 1
      is the one that earns the n-th consecutive lock, and none before failure t does. */
  lemma {:induction false} LadderOfDenseLog(p: Policy, t: int, log: seq<int>)
    requires Normal(p) && t > 0
    requires Dense(p, log)
    ensures |log| < t ==> After(p, t, log) == Ladder(|log|, 0)
    ensures |log| >= t ==> After(p, t, log) == Ladder(t, |log| - t + 1)
    decreases |log|
  {
    if log != [] {
      LadderOfDenseLog(p, t, Init(log));
    }
  }

  // ---- When the rate bound fails ----

  function Repeat(x: int, n: nat): (s: seq<int>)
    ensures |s| == n && forall i :: 0 <= i < n ==> s[i] == x
  {
    if n == 0 then [] else Repeat(x, n - 1) + [x]
  }

  /** t - 1 failures at time 0, then, the streak having gone stale, t more at time Window. */
  function Burst(p: Policy, t: int): seq<int>
    requires t >= 2
  {
    Repeat(0, t - 1) + Repeat(p.window, t)
  }

  lemma {:induction false} BurstPrefix(p: Policy, t: int, n: nat)
    requires Normal(p) && t >= 2 && n <= t
    ensures LogOk(p, t, Repeat(0, t - 1) + Repeat(p.window, n))
    ensures After(p, t, Repeat(0, t - 1) + Repeat(p.window, n)).streak == if n == 0 then t - 1 else n
  {
    var log := Repeat(0, t - 1) + Repeat(p.window, n);
    if n == 0 {
      assert log == Repeat(0, t - 1);
      QuietPrefix(p, t, t - 1);
    } else {
      BurstPrefix(p, t, n - 1);
      assert Init(log) == Repeat(0, t - 1) + Repeat(p.window, n - 1);
      assert Last(log) == p.window;
      assert Last(Init(log)) == if n == 1 then 0 else p.window;
    }
  }

  lemma {:induction false} QuietPrefix(p: Policy, t: int, n: nat)
    requires Normal(p) && n < t
    ensures LogOk(p, t, Repeat(0, n)) && After(p, t, Repeat(0, n)).streak == n
  {
    if n > 0 {
      QuietPrefix(p, t, n - 1);
      assert Init(Repeat(0, n)) == Repeat(0, n - 1);
    }
  }

  lemma {:induction false} CountAll(log: seq<int>, from: int, to: int)
    requires forall i :: 0 <= i < |log| ==> from <= log[i] < to
    ensures CountIn(log, from, to) == |log|
  {
    if log != [] {
      CountAll(Init(log), from, to);
    }
  }

  /** A policy whose LockStart exceeds its Window lets more than t failures into one
      LockStart interval, unless t is 1. */
  lemma RateBoundFails(p: Policy, t: int)
    requires Normal(p) && t >= 2 && p.lockStart > p.window
    ensures LogOk(p, t, Burst(p, t)) && CountIn(Burst(p, t), 0, p.lockStart) > t
  {
    BurstPrefix(p, t, t);
    CountAll(Burst(p, t), 0, p.lockStart);
  }
}
