/** The in-memory sliding-window limiter, and the limiter with full memory it must agree with. */
module SlidingWindow {

  /** One `(timestamp, count)` pair of the per-key request log. */
  datatype Entry = Entry(ts: real, count: int)

  /** The `(is_allowed, remaining, reset_time)` triple a backend answers with. */
  datatype Verdict = Verdict(allowed: bool, remaining: int, reset: int)

  /** Python's `int()` on a float: truncation toward zero. */
  function Trunc(x: real): int {
    if x >= 0.0 then x.Floor else -((-x).Floor)
  }

  function Max(a: int, b: int): int {
    if a >= b then a else b
  }

  function Prune(log: seq<Entry>, start: real): (kept: seq<Entry>)
    ensures |kept| <= |log|
  {
    if log == [] then [] else
      var kept := Prune(log[..|log| - 1], start);
      var e := log[|log| - 1];
      if e.ts > start then kept + [e] else kept
  }

  function Total(log: seq<Entry>): int {
    if log == [] then 0 else Total(log[..|log| - 1]) + log[|log| - 1].count
  }

  function Judge(current: int, limit: int, window: int, now: real): Verdict {
    var allowed := current < limit;
    Verdict(allowed, if allowed then Max(0, limit - current - 1) else 0, Trunc(now + window as real))
  }

  datatype Decision = Decision(log: seq<Entry>, verdict: Verdict)

  /** One call: the log it leaves behind and the answer it gives. */
  function Decide(log: seq<Entry>, limit: int, window: int, now: real): Decision {
    var kept := Prune(log, now - window as real);
    var v := Judge(Total(kept), limit, window, now);
    Decision(if v.allowed then kept + [Entry(now, 1)] else kept, v)
  }

  class InMemoryRateLimiter {
    var requests: map<string, seq<Entry>>

    constructor ()
      ensures requests == map[]
    {
      requests := map[];
    }

    /** A missing key reads as an empty log. */
    function Log(key: string): seq<Entry>
      reads this
    {
      if key in requests then requests[key] else []
    }

    method IsAllowed(key: string, limit: int, window: int, now: real) returns (v: Verdict)
      modifies this
      ensures Decision(Log(key), v) == Decide(old(Log(key)), limit, window, now)
      ensures forall k :: k != key ==> Log(k) == old(Log(k))
    {
      var windowStart := now - window as real;
      var kept := Prune(Log(key), windowStart);
      requests := requests[key := kept];
      var currentCount := Total(kept);
      var allowed := currentCount < limit;
      var remaining := if allowed then Max(0, limit - currentCount - 1) else 0;
      if allowed {
        requests := requests[key := kept + [Entry(now, 1)]];
      }
      v := Verdict(allowed, remaining, Trunc(now + window as real));
    }

    method Reset(key: string)
      modifies this
      ensures requests == old(requests) - {key}
    {
      if key in requests {
        requests := requests - {key};
      }
    }
  }

  // ----- Whole runs of one key -----

  predicate Monotone(times: seq<real>) {
    forall i, j :: 0 <= i < j < |times| ==> times[i] <= times[j]
  }

  predicate NoneAfter(times: seq<real>, now: real) {
    forall i :: 0 <= i < |times| ==> times[i] <= now
  }

  datatype Trace = Trace(log: seq<Entry>, verdicts: seq<Verdict>)

  function Run(limit: int, window: int, calls: seq<real>): (t: Trace)
    ensures |t.verdicts| == |calls|
  {
    if calls == [] then Trace([], []) else
      var t := Run(limit, window, calls[..|calls| - 1]);
      var d := Decide(t.log, limit, window, calls[|calls| - 1]);
      Trace(d.log, t.verdicts + [d.verdict])
  }

  lemma RunAppend(limit: int, window: int, calls: seq<real>, now: real)
    ensures var t := Run(limit, window, calls);
            var d := Decide(t.log, limit, window, now);
            Run(limit, window, calls + [now]) == Trace(d.log, t.verdicts + [d.verdict])
  {
    assert (calls + [now])[..|calls|] == calls;
  }

  /** The calls that were let through. */
  function Admitted(calls: seq<real>, verdicts: seq<Verdict>): seq<real>
    requires |calls| == |verdicts|
  {
    if calls == [] then [] else
      var n := |calls| - 1;
      Admitted(calls[..n], verdicts[..n]) + if verdicts[n].allowed then [calls[n]] else []
  }

  /** How many of `times` lie in the half-open interval (t - window, t]. */
  function InWindow(times: seq<real>, t: real, window: int): nat {
    if times == [] then 0 else
      var n := |times| - 1;
      InWindow(times[..n], t, window) + if t - window as real < times[n] <= t then 1 else 0
  }

  /** The history after one more call of the limiter that forgets nothing. */
  function Remember(h: seq<real>, limit: int, window: int, now: real): seq<real> {
    if InWindow(h, now, window) < limit then h + [now] else h
  }

  /** The reference: a limiter that keeps every admission for ever and counts the window afresh. */
  function FullHistory(limit: int, window: int, calls: seq<real>): seq<real> {
    if calls == [] then [] else
      var n := |calls| - 1;
      Remember(FullHistory(limit, window, calls[..n]), limit, window, calls[n])
  }

  function AsEntries(times: seq<real>): (log: seq<Entry>)
    ensures |log| == |times|
    ensures forall i :: 0 <= i < |times| ==> log[i] == Entry(times[i], 1)
  {
    seq(|times|, i requires 0 <= i < |times| => Entry(times[i], 1))
  }

  lemma {:induction false} PruneAgain(log: seq<Entry>, early: real, late: real)
    requires early <= late
    ensures Prune(Prune(log, early), late) == Prune(log, late)
  {
    if log != [] {
      PruneAgain(log[..|log| - 1], early, late);
    }
  }

  lemma {:induction false} PruneAppend(log: seq<Entry>, e: Entry, start: real)
    ensures Prune(log + [e], start) == Prune(log, start) + if e.ts > start then [e] else []
    ensures Total(log + [e]) == Total(log) + e.count
  {
    assert (log + [e])[..|log|] == log;
  }

  lemma {:induction false} WindowIsPrunedTotal(times: seq<real>, now: real, window: int)
    requires NoneAfter(times, now)
    ensures InWindow(times, now, window) == Total(Prune(AsEntries(times), now - window as real))
  {
    if times != [] {
      var n := |times| - 1;
      WindowIsPrunedTotal(times[..n], now, window);
      assert AsEntries(times)[..n] == AsEntries(times[..n]);
      PruneAppend(Prune(AsEntries(times[..n]), now - window as real), Entry(times[n], 1), now - window as real);
    }
  }

  lemma RememberIsPast(h: seq<real>, limit: int, window: int, now: real, bound: real)
    requires NoneAfter(h, bound) && now <= bound
    ensures NoneAfter(Remember(h, limit, window, now), bound)
  {}

  lemma {:induction false} HistoryIsPast(limit: int, window: int, calls: seq<real>, bound: real)
    requires NoneAfter(calls, bound)
    ensures NoneAfter(FullHistory(limit, window, calls), bound)
  {
    if calls != [] {
      var n := |calls| - 1;
      HistoryIsPast(limit, window, calls[..n], bound);
      RememberIsPast(FullHistory(limit, window, calls[..n]), limit, window, calls[n], bound);
    }
  }

  /** From `horizon` on, the two logs look the same. */
  ghost predicate SameSince(a: seq<Entry>, b: seq<Entry>, horizon: real) {
    forall start :: start >= horizon ==> Prune(a, start) == Prune(b, start)
  }

  lemma SameSinceAfterPrune(a: seq<Entry>, b: seq<Entry>, horizon: real, extra: seq<Entry>)
    requires Prune(a, horizon) == Prune(b, horizon) && |extra| <= 1
    ensures SameSince(Prune(a, horizon) + extra, b + extra, horizon)
  {
    forall start | start >= horizon
      ensures Prune(Prune(a, horizon) + extra, start) == Prune(b + extra, start)
    {
      PruneAgain(b, horizon, start);
      if extra == [] {
        assert Prune(a, horizon) + extra == Prune(a, horizon) && b + extra == b;
      } else {
        assert extra == [extra[0]];
        PruneAppend(Prune(a, horizon), extra[0], start);
        PruneAppend(b, extra[0], start);
      }
    }
  }

  lemma AsEntriesAppend(a: seq<real>, b: seq<real>)
    ensures AsEntries(a + b) == AsEntries(a) + AsEntries(b)
  {}

  lemma DecideJudgesAlike(log: seq<Entry>, h: seq<real>, limit: int, window: int, now: real)
    requires NoneAfter(h, now)
    requires Prune(log, now - window as real) == Prune(AsEntries(h), now - window as real)
    ensures Decide(log, limit, window, now).verdict == Judge(InWindow(h, now, window), limit, window, now)
  {
    WindowIsPrunedTotal(h, now, window);
  }

  lemma DecideLeaves(log: seq<Entry>, limit: int, window: int, now: real)
    ensures var d := Decide(log, limit, window, now);
            d.log == Prune(log, now - window as real) + if d.verdict.allowed then [Entry(now, 1)] else []
  {}

  lemma RememberAppends(h: seq<real>, limit: int, window: int, now: real)
    ensures AsEntries(Remember(h, limit, window, now)) ==
              AsEntries(h) + if InWindow(h, now, window) < limit then [Entry(now, 1)] else []
  {
    AsEntriesAppend(h, [now]);
  }

  lemma DecideKeepsAlike(log: seq<Entry>, h: seq<real>, limit: int, window: int, now: real)
    requires Decide(log, limit, window, now).verdict == Judge(InWindow(h, now, window), limit, window, now)
    requires Prune(log, now - window as real) == Prune(AsEntries(h), now - window as real)
    ensures SameSince(Decide(log, limit, window, now).log, AsEntries(Remember(h, limit, window, now)),
                      now - window as real)
  {
    var extra := if InWindow(h, now, window) < limit then [Entry(now, 1)] else [];
    DecideLeaves(log, limit, window, now);
    RememberAppends(h, limit, window, now);
    SameSinceAfterPrune(log, AsEntries(h), now - window as real, extra);
  }

  /** One step of the simulation: a log that agrees with the history decides as the history does, and still agrees. */
  lemma DecideAgrees(log: seq<Entry>, h: seq<real>, limit: int, window: int, now: real)
    requires NoneAfter(h, now) && SameSince(log, AsEntries(h), now - window as real)
    ensures Decide(log, limit, window, now).verdict == Judge(InWindow(h, now, window), limit, window, now)
    ensures SameSince(Decide(log, limit, window, now).log, AsEntries(Remember(h, limit, window, now)),
                      now - window as real)
  {
    DecideJudgesAlike(log, h, limit, window, now);
    DecideKeepsAlike(log, h, limit, window, now);
  }

  /** What the pruned log remembers is exactly what any later call can still see of the full history. */
  lemma {:induction false} PruningLosesNothing(limit: int, window: int, calls: seq<real>, next: real)
    requires Monotone(calls) && NoneAfter(calls, next)
    ensures Admitted(calls, Run(limit, window, calls).verdicts) == FullHistory(limit, window, calls)
    ensures SameSince(Run(limit, window, calls).log, AsEntries(FullHistory(limit, window, calls)),
                      next - window as real)
  {
    if calls != [] {
      var n := |calls| - 1;
      PruningLosesNothing(limit, window, calls[..n], calls[n]);
      HistoryIsPast(limit, window, calls[..n], calls[n]);
      DecideAgrees(Run(limit, window, calls[..n]).log, FullHistory(limit, window, calls[..n]), limit, window, calls[n]);
      assert Run(limit, window, calls).verdicts[..n] == Run(limit, window, calls[..n]).verdicts;
    }
  }

  lemma {:induction false} LaterWindowSeesLess(times: seq<real>, now: real, t: real, window: int)
    requires now <= t && NoneAfter(times, now)
    ensures InWindow(times, t, window) <= InWindow(times, now, window)
  {
    if times != [] {
      LaterWindowSeesLess(times[..|times| - 1], now, t, window);
    }
  }

  lemma {:induction false} HistoryRespectsLimit(limit: int, window: int, calls: seq<real>, t: real)
    requires Monotone(calls)
    ensures InWindow(FullHistory(limit, window, calls), t, window) <= Max(limit, 0)
  {
    if calls != [] {
      var n := |calls| - 1;
      var now, h := calls[n], FullHistory(limit, window, calls[..n]);
      HistoryRespectsLimit(limit, window, calls[..n], t);
      HistoryIsPast(limit, window, calls[..n], now);
      if InWindow(h, now, window) < limit {
        assert (h + [now])[..|h|] == h;
        if now <= t {
          LaterWindowSeesLess(h, now, t, window);
        }
      }
    }
  }

  /** Window safety: no interval (t - window, t], for any real t, holds more than `limit` admitted requests. */
  lemma WindowSafety(limit: int, window: int, calls: seq<real>, t: real)
    requires Monotone(calls)
    ensures InWindow(Admitted(calls, Run(limit, window, calls).verdicts), t, window) <= Max(limit, 0)
  {
    PruningLosesNothing(limit, window, calls, if calls == [] then 0.0 else calls[|calls| - 1]);
    HistoryRespectsLimit(limit, window, calls, t);
  }

  lemma NextVerdict(limit: int, window: int, before: seq<real>, now: real)
    requires Monotone(before) && NoneAfter(before, now)
    ensures Decide(Run(limit, window, before).log, limit, window, now).verdict ==
              Judge(InWindow(FullHistory(limit, window, before), now, window), limit, window, now)
  {
    PruningLosesNothing(limit, window, before, now);
    HistoryIsPast(limit, window, before, now);
    DecideJudgesAlike(Run(limit, window, before).log, FullHistory(limit, window, before), limit, window, now);
  }

  lemma {:induction false} VerdictsSoFar(limit: int, window: int, calls: seq<real>, k: nat)
    requires k <= |calls|
    ensures Run(limit, window, calls[..k]).verdicts == Run(limit, window, calls).verdicts[..k]
  {
    var n := |calls| - 1;
    if k <= n {
      VerdictsSoFar(limit, window, calls[..n], k);
      assert calls[..n][..k] == calls[..k];
      assert Run(limit, window, calls).verdicts[..n] == Run(limit, window, calls[..n]).verdicts;
    } else {
      assert calls[..k] == calls;
    }
  }

  lemma NewestVerdict(limit: int, window: int, calls: seq<real>)
    requires calls != []
    ensures var n := |calls| - 1;
            Run(limit, window, calls).verdicts[n] ==
              Decide(Run(limit, window, calls[..n]).log, limit, window, calls[n]).verdict
  {}

  lemma VerdictIsDecided(limit: int, window: int, calls: seq<real>, i: nat)
    requires i < |calls|
    ensures Run(limit, window, calls).verdicts[i] ==
              Decide(Run(limit, window, calls[..i]).log, limit, window, calls[i]).verdict
  {
    var upTo, all := calls[..i + 1], Run(limit, window, calls).verdicts;
    assert upTo[..i] == calls[..i] && upTo[i] == calls[i];
    VerdictsSoFar(limit, window, calls, i + 1);
    NewestVerdict(limit, window, upTo);
    assert all[..i + 1][i] == all[i];
  }

  /** Every answer of every run, in words: `used` are the calls let through in the window that ends now. The call passes
      exactly while fewer than the limit are used, is told how many more may follow it, none if it is refused, and when
      its window is over, cut to a whole second. */
  lemma VerdictsAreExact(limit: int, window: int, calls: seq<real>, i: nat)
    requires Monotone(calls) && i < |calls|
    ensures var verdicts := Run(limit, window, calls).verdicts;
            var v, used := verdicts[i], InWindow(Admitted(calls[..i], verdicts[..i]), calls[i], window);
            && (v.allowed <==> used < limit)
            && v.remaining == (if v.allowed then limit - used - 1 else 0)
            && (0.0 <= calls[i] + window as real ==>
                  v.reset as real <= calls[i] + window as real < v.reset as real + 1.0)
            && (calls[i] + window as real < 0.0 ==>
                  v.reset as real - 1.0 < calls[i] + window as real <= v.reset as real)
  {
    VerdictIsDecided(limit, window, calls, i);
    NextVerdict(limit, window, calls[..i], calls[i]);
    PruningLosesNothing(limit, window, calls[..i], calls[i]);
    VerdictsSoFar(limit, window, calls, i);
  }
}
