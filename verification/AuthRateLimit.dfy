/** The auth endpoints' own limiter: bare timestamps in a nested map, a fixed window of 60 seconds. */
module AuthRateLimit {
  import opened Common
  import opened SlidingWindow

  const WINDOW := 60

  function Recent(times: seq<real>, cutoff: real): seq<real> {
    if times == [] then [] else
      var n := |times| - 1;
      Recent(times[..n], cutoff) + if times[n] > cutoff then [times[n]] else []
  }

  /** One call on one (address, endpoint) pair: the timestamps kept and whether the call passes. */
  function Check(times: seq<real>, maxPerMinute: int, now: real): (seq<real>, bool) {
    var kept := Recent(times, now - WINDOW as real);
    if |kept| >= maxPerMinute then (kept, false) else (kept + [now], true)
  }

  type Storage = map<string, map<string, seq<real>>>

  /** A missing address or endpoint reads as an empty list. */
  function Times(storage: Storage, ip: string, endpoint: string): seq<real> {
    if ip in storage && endpoint in storage[ip] then storage[ip][endpoint] else []
  }

  ghost predicate OnlyChanged(before: Storage, after: Storage, ip: string, endpoint: string) {
    forall i, e :: i != ip || e != endpoint ==> Times(after, i, e) == Times(before, i, e)
  }

  class RateLimitStorage {
    var storage: Storage

    constructor ()
      ensures storage == map[]
    {
      storage := map[];
    }

    method InitializeSlot(ip: string, endpoint: string)
      modifies this
      ensures ip in storage && endpoint in storage[ip]
      ensures forall i, e :: Times(storage, i, e) == old(Times(storage, i, e))
    {
      if ip !in storage {
        storage := storage[ip := map[]];
      }
      if endpoint !in storage[ip] {
        storage := storage[ip := storage[ip][endpoint := []]];
      }
    }

    method CheckRateLimit(clientHost: Option<string>, endpoint: string, maxPerMinute: int := 5, now: real)
      returns (ok: bool)
      modifies this
      ensures var ip := if clientHost.Some? then clientHost.value else "unknown";
              && (Times(storage, ip, endpoint), ok) == Check(old(Times(storage, ip, endpoint)), maxPerMinute, now)
              && OnlyChanged(old(storage), storage, ip, endpoint)
    {
      var ip := if clientHost.Some? then clientHost.value else "unknown";
      InitializeSlot(ip, endpoint);
      var kept := Recent(storage[ip][endpoint], now - WINDOW as real);
      storage := storage[ip := storage[ip][endpoint := kept]];
      ok := |kept| < maxPerMinute;
      if ok {
        storage := storage[ip := storage[ip][endpoint := kept + [now]]];
      }
    }
  }

  function RunChecks(maxPerMinute: int, calls: seq<real>): (r: (seq<real>, seq<bool>))
    ensures |r.1| == |calls|
  {
    if calls == [] then ([], []) else
      var n := |calls| - 1;
      var (times, oks) := RunChecks(maxPerMinute, calls[..n]);
      var (times', ok) := Check(times, maxPerMinute, calls[n]);
      (times', oks + [ok])
  }

  lemma {:induction false} RecentIsPrune(times: seq<real>, cutoff: real)
    ensures AsEntries(Recent(times, cutoff)) == Prune(AsEntries(times), cutoff)
  {
    if times != [] {
      var n := |times| - 1;
      RecentIsPrune(times[..n], cutoff);
      assert AsEntries(times)[..n] == AsEntries(times[..n]);
    }
  }

  lemma {:induction false} OnesTotal(times: seq<real>)
    ensures Total(AsEntries(times)) == |times|
  {
    if times != [] {
      var n := |times| - 1;
      OnesTotal(times[..n]);
      assert AsEntries(times)[..n] == AsEntries(times[..n]);
    }
  }

  lemma CheckIsDecide(times: seq<real>, maxPerMinute: int, now: real)
    ensures AsEntries(Check(times, maxPerMinute, now).0) == Decide(AsEntries(times), maxPerMinute, WINDOW, now).log
    ensures Check(times, maxPerMinute, now).1 == Decide(AsEntries(times), maxPerMinute, WINDOW, now).verdict.allowed
  {
    var kept := Recent(times, now - WINDOW as real);
    RecentIsPrune(times, now - WINDOW as real);
    OnesTotal(kept);
    AsEntriesAppend(kept, [now]);
    assert AsEntries([now]) == [Entry(now, 1)];
  }

  /** The auth limiter is the shared limiter with window 60, call for call. */
  lemma {:induction false} AuthSimulatesShared(maxPerMinute: int, calls: seq<real>)
    ensures AsEntries(RunChecks(maxPerMinute, calls).0) == Run(maxPerMinute, WINDOW, calls).log
    ensures forall i :: 0 <= i < |calls| ==>
              RunChecks(maxPerMinute, calls).1[i] == Run(maxPerMinute, WINDOW, calls).verdicts[i].allowed
  {
    if calls != [] {
      var n := |calls| - 1;
      AuthSimulatesShared(maxPerMinute, calls[..n]);
      CheckIsDecide(RunChecks(maxPerMinute, calls[..n]).0, maxPerMinute, calls[n]);
    }
  }

  function Passed(calls: seq<real>, oks: seq<bool>): seq<real>
    requires |calls| == |oks|
  {
    if calls == [] then [] else
      var n := |calls| - 1;
      Passed(calls[..n], oks[..n]) + if oks[n] then [calls[n]] else []
  }

  lemma {:induction false} PassedIsAdmitted(calls: seq<real>, oks: seq<bool>, verdicts: seq<Verdict>)
    requires |calls| == |oks| == |verdicts|
    requires forall i :: 0 <= i < |calls| ==> oks[i] == verdicts[i].allowed
    ensures Passed(calls, oks) == Admitted(calls, verdicts)
  {
    if calls != [] {
      var n := |calls| - 1;
      PassedIsAdmitted(calls[..n], oks[..n], verdicts[..n]);
    }
  }

  /** At most `maxPerMinute` calls to one endpoint pass in any 60 seconds, from one address. */
  lemma AuthWindowSafety(maxPerMinute: int, calls: seq<real>, t: real)
    requires Monotone(calls)
    ensures InWindow(Passed(calls, RunChecks(maxPerMinute, calls).1), t, WINDOW) <= Max(maxPerMinute, 0)
  {
    AuthSimulatesShared(maxPerMinute, calls);
    PassedIsAdmitted(calls, RunChecks(maxPerMinute, calls).1, Run(maxPerMinute, WINDOW, calls).verdicts);
    WindowSafety(maxPerMinute, WINDOW, calls, t);
  }
}
