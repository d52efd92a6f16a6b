/** The middleware that puts a minute tier and an optional hour tier over one backend. */
module RateLimitMiddleware {
  import opened Common
  import opened SlidingWindow

  const MINUTE := 60
  const HOUR := 3600

  datatype Limits = Limits(perMinute: int, perHour: Option<int>) {
    /** A limit of zero is falsy in the source, so it switches the hour tier off. */
    predicate HourTier() {
      perHour.Some? && perHour.value != 0
    }
  }

  /** The successive clock readings of one request. */
  datatype Visit = Visit(first: real, second: real, third: real)

  datatype Outcome =
    | Served(remaining: int, reset: int)
    | RefusedByMinute(retryAfter: int)
    | RefusedByHour(retryAfter: int)

  /** The two logs of one client. */
  datatype Tiers = Tiers(minute: seq<Entry>, hour: seq<Entry>)

  datatype Handled = Handled(tiers: Tiers, outcome: Outcome)

  function Handle(limits: Limits, t: Tiers, v: Visit): Handled {
    var m := Decide(t.minute, limits.perMinute, MINUTE, v.first);
    if !m.verdict.allowed then
      Handled(Tiers(m.log, t.hour), RefusedByMinute(m.verdict.reset - Trunc(v.second)))
    else if !limits.HourTier() then
      Handled(Tiers(m.log, t.hour), Served(m.verdict.remaining, m.verdict.reset))
    else
      var h := Decide(t.hour, limits.perHour.value, HOUR, v.second);
      Handled(Tiers(m.log, h.log),
              if !h.verdict.allowed then RefusedByHour(h.verdict.reset - Trunc(v.third))
              else Served(Min(m.verdict.remaining, h.verdict.remaining), Max(m.verdict.reset, h.verdict.reset)))
  }

  function Min(a: int, b: int): int {
    if a <= b then a else b
  }

  function MinuteKey(key: string): string { key + ":minute" }

  function HourKey(key: string): string { key + ":hour" }

  lemma TierKeysDiffer(key: string, k: string)
    ensures MinuteKey(key) != HourKey(k)
    ensures MinuteKey(key) == MinuteKey(k) ==> key == k
    ensures HourKey(key) == HourKey(k) ==> key == k
  {
    assert MinuteKey(key)[|key| + 6] == 'e' && HourKey(k)[|k| + 4] == 'r';
    assert MinuteKey(key)[..|key|] == key && MinuteKey(k)[..|k|] == k;
    assert HourKey(key)[..|key|] == key && HourKey(k)[..|k|] == k;
  }

  /** No tier key of one client is a tier key of another client, or of the other tier. */
  lemma TierKeysNeverCollide()
    ensures forall a, b :: MinuteKey(a) != HourKey(b)
    ensures forall a, b :: MinuteKey(a) == MinuteKey(b) ==> a == b
    ensures forall a, b :: HourKey(a) == HourKey(b) ==> a == b
  {
    forall a, b
      ensures MinuteKey(a) != HourKey(b) && (MinuteKey(a) == MinuteKey(b) ==> a == b)
      ensures HourKey(a) == HourKey(b) ==> a == b
    {
      TierKeysDiffer(a, b);
    }
  }

  class RateLimiterMiddleware {
    const limits: Limits
    const excludedPaths: seq<string>
    const backend: InMemoryRateLimiter

    constructor (limits: Limits, excludedPaths: seq<string>)
      ensures this.limits == limits && fresh(backend) && backend.requests == map[]
      ensures excludedPaths != [] ==> this.excludedPaths == excludedPaths
      ensures excludedPaths == [] ==> this.excludedPaths == ["/health", "/metrics", "/docs", "/openapi.json"]
    {
      this.limits := limits;
      this.excludedPaths :=
        if excludedPaths != [] then excludedPaths else ["/health", "/metrics", "/docs", "/openapi.json"];
      backend := new InMemoryRateLimiter();
    }

    function Client(key: string): Tiers
      reads backend
    {
      Tiers(backend.Log(MinuteKey(key)), backend.Log(HourKey(key)))
    }

    /** `None` stands for a request on an excluded path, which passes unmetered. */
    method Dispatch(path: string, key: string, v: Visit) returns (o: Option<Outcome>)
      modifies backend
      ensures path in excludedPaths ==> o == None && backend.requests == old(backend.requests)
      ensures path !in excludedPaths ==>
                o.Some? && Handled(Client(key), o.value) == Handle(limits, old(Client(key)), v)
      ensures limits.perHour in {None, Some(0)} ==>
                Client(key).hour == old(Client(key)).hour && (o.Some? ==> !o.value.RefusedByHour?)
      ensures forall k :: k != key ==> Client(k) == old(Client(k))
    {
      if path in excludedPaths {
        return None;
      }
      TierKeysNeverCollide();
      var m := backend.IsAllowed(MinuteKey(key), limits.perMinute, MINUTE, v.first);
      if !m.allowed {
        return Some(RefusedByMinute(m.reset - Trunc(v.second)));
      }
      var remaining, reset := m.remaining, m.reset;
      if limits.HourTier() {
        var h := backend.IsAllowed(HourKey(key), limits.perHour.value, HOUR, v.second);
        if !h.allowed {
          return Some(RefusedByHour(h.reset - Trunc(v.third)));
        }
        remaining := Min(remaining, h.remaining);
        reset := Max(reset, h.reset);
      }
      o := Some(Served(remaining, reset));
    }
  }

  // ----- Whole runs of one client -----

  datatype Replayed = Replayed(tiers: Tiers, outcomes: seq<Outcome>)

  function Replay(limits: Limits, from: Tiers, visits: seq<Visit>): (t: Replayed)
    ensures |t.outcomes| == |visits|
  {
    if visits == [] then Replayed(from, []) else
      var n := |visits| - 1;
      var t := Replay(limits, from, visits[..n]);
      var h := Handle(limits, t.tiers, visits[n]);
      Replayed(h.tiers, t.outcomes + [h.outcome])
  }

  const EMPTY := Tiers([], [])

  predicate Ones(log: seq<Entry>) {
    forall i :: 0 <= i < |log| ==> log[i].count == 1
  }

  lemma {:induction false} PruneShrinks(log: seq<Entry>, start: real)
    requires Ones(log)
    ensures Ones(Prune(log, start)) && 0 <= Total(Prune(log, start)) <= Total(log)
  {
    if log != [] {
      var n := |log| - 1;
      PruneShrinks(log[..n], start);
      PruneAppend(Prune(log[..n], start), log[n], start);
    }
  }

  lemma TotalAppend(log: seq<Entry>, e: Entry)
    ensures Total(log + [e]) == Total(log) + e.count
  {
    assert (log + [e])[..|log|] == log;
  }

  lemma AppendOne(log: seq<Entry>, now: real)
    requires Ones(log)
    ensures Ones(log + [Entry(now, 1)]) && Total(log + [Entry(now, 1)]) == Total(log) + 1
  {
    TotalAppend(log, Entry(now, 1));
  }

  /** One call never adds more than one. */
  lemma DecideAddsOne(log: seq<Entry>, limit: int, window: int, now: real)
    requires Ones(log)
    ensures Ones(Decide(log, limit, window, now).log) && Total(Decide(log, limit, window, now).log) <= Total(log) + 1
  {
    var kept := Prune(log, now - window as real);
    PruneShrinks(log, now - window as real);
    if Total(kept) < limit {
      AppendOne(kept, now);
      assert Decide(log, limit, window, now).log == kept + [Entry(now, 1)];
    } else {
      assert Decide(log, limit, window, now).log == kept;
    }
  }

  lemma PrunedTotal(log: seq<Entry>, start: real)
    requires Ones(log)
    ensures Total(Prune(log, start)) <= Total(log)
  {
    PruneShrinks(log, start);
  }

  lemma AllowedWhenFewer(log: seq<Entry>, limit: int, window: int, now: real)
    ensures Decide(log, limit, window, now).verdict.allowed <==> Total(Prune(log, now - window as real)) < limit
  {}

  /** A call passes when one more fits. */
  lemma DecideAdmitsWhatFits(log: seq<Entry>, limit: int, window: int, now: real)
    requires Ones(log) && Total(log) < limit
    ensures Decide(log, limit, window, now).verdict.allowed
  {
    PrunedTotal(log, now - window as real);
    AllowedWhenFewer(log, limit, window, now);
  }

  /** What is in the log and what is reported to remain make up the limit. */
  lemma DecideReportsTheRest(log: seq<Entry>, limit: int, window: int, now: real)
    requires Decide(log, limit, window, now).verdict.allowed
    ensures Total(Decide(log, limit, window, now).log) + Decide(log, limit, window, now).verdict.remaining == limit
  {
    var kept := Prune(log, now - window as real);
    TotalAppend(kept, Entry(now, 1));
    assert Decide(log, limit, window, now).log == kept + [Entry(now, 1)];
  }

  /** All of that for one tier. */
  lemma TierStep(log: seq<Entry>, limit: int, window: int, now: real)
    requires Ones(log)
    ensures var d := Decide(log, limit, window, now);
            && Ones(d.log) && Total(d.log) <= Total(log) + 1
            && (Total(log) < limit ==> d.verdict.allowed)
            && (d.verdict.allowed ==> Total(d.log) + d.verdict.remaining == limit)
  {
    DecideAddsOne(log, limit, window, now);
    if Total(log) < limit {
      DecideAdmitsWhatFits(log, limit, window, now);
    }
    if Decide(log, limit, window, now).verdict.allowed {
      DecideReportsTheRest(log, limit, window, now);
    }
  }

  ghost predicate OnesTiers(t: Tiers) {
    Ones(t.minute) && Ones(t.hour)
  }

  /** At least `room` more requests are sure to pass both tiers. */
  ghost predicate HasRoom(limits: Limits, t: Tiers, room: int) {
    Total(t.minute) + room <= limits.perMinute && (limits.HourTier() ==> Total(t.hour) + room <= limits.perHour.value)
  }

  lemma HandleKeepsRoom(limits: Limits, t: Tiers, v: Visit, room: int)
    requires OnesTiers(t)
    ensures OnesTiers(Handle(limits, t, v).tiers)
    ensures Handle(limits, t, v).outcome.Served? ==>
              HasRoom(limits, Handle(limits, t, v).tiers, Handle(limits, t, v).outcome.remaining)
    ensures HasRoom(limits, t, room) && room > 0 ==>
              Handle(limits, t, v).outcome.Served? && HasRoom(limits, Handle(limits, t, v).tiers, room - 1)
  {
    TierStep(t.minute, limits.perMinute, MINUTE, v.first);
    if limits.HourTier() {
      TierStep(t.hour, limits.perHour.value, HOUR, v.second);
    }
  }

  lemma {:induction false} ReplayOnes(limits: Limits, visits: seq<Visit>)
    ensures OnesTiers(Replay(limits, EMPTY, visits).tiers)
  {
    if visits != [] {
      var n := |visits| - 1;
      ReplayOnes(limits, visits[..n]);
      HandleKeepsRoom(limits, Replay(limits, EMPTY, visits[..n]).tiers, visits[n], 0);
    }
  }

  lemma {:induction false} RoomIsSpentSlowly(limits: Limits, t: Tiers, later: seq<Visit>, room: int)
    requires OnesTiers(t) && HasRoom(limits, t, room) && |later| <= room
    ensures forall i :: 0 <= i < |later| ==> Replay(limits, t, later).outcomes[i].Served?
    ensures OnesTiers(Replay(limits, t, later).tiers)
    ensures HasRoom(limits, Replay(limits, t, later).tiers, room - |later|)
  {
    if later != [] {
      var n := |later| - 1;
      RoomIsSpentSlowly(limits, t, later[..n], room);
      HandleKeepsRoom(limits, Replay(limits, t, later[..n]).tiers, later[n], room - n);
    }
  }

  /** X-RateLimit-Remaining is a promise: the next `remaining` requests pass both tiers, whenever they come. */
  lemma RemainingIsAPromise(limits: Limits, before: seq<Visit>, v: Visit, later: seq<Visit>)
    requires var o := Handle(limits, Replay(limits, EMPTY, before).tiers, v).outcome;
             o.Served? && |later| <= o.remaining
    ensures var after := Handle(limits, Replay(limits, EMPTY, before).tiers, v).tiers;
            forall i :: 0 <= i < |later| ==> Replay(limits, after, later).outcomes[i].Served?
  {
    var t := Replay(limits, EMPTY, before).tiers;
    ReplayOnes(limits, before);
    HandleKeepsRoom(limits, t, v, 0);
    RoomIsSpentSlowly(limits, Handle(limits, t, v).tiers, later, Handle(limits, t, v).outcome.remaining);
  }

  /** Everything in both logs is inside the windows that end at these readings. */
  ghost predicate AllInside(limits: Limits, t: Tiers, first: real, second: real) {
    && Prune(t.minute, first - MINUTE as real) == t.minute
    && (limits.HourTier() ==> Prune(t.hour, second - HOUR as real) == t.hour)
  }

  lemma TierAtOnce(log: seq<Entry>, limit: int, window: int, now: real)
    requires Prune(log, now - window as real) == log && window >= 1
    ensures var d := Decide(log, limit, window, now);
            && (d.verdict.allowed <==> Total(log) < limit) && Prune(d.log, now - window as real) == d.log
            && Total(d.log) == Total(log) + if d.verdict.allowed then 1 else 0
  {
    PruneAppend(log, Entry(now, 1), now - window as real);
  }

  lemma TierReports(log: seq<Entry>, limit: int, window: int, now: real)
    requires window >= 1 && Decide(log, limit, window, now).verdict.allowed
    ensures var d := Decide(log, limit, window, now);
            && Prune(d.log, now - window as real) == d.log && d.verdict.remaining >= 0
            && Total(d.log) + d.verdict.remaining == limit
  {
    PruneAgain(log, now - window as real, now - window as real);
    PruneAppend(Prune(log, now - window as real), Entry(now, 1), now - window as real);
    DecideReportsTheRest(log, limit, window, now);
  }

  /** A visit at readings that leave everything inside is served exactly if there is room for one, which it takes. */
  lemma SpendAtOnce(limits: Limits, t: Tiers, v: Visit, room: int)
    requires AllInside(limits, t, v.first, v.second)
    ensures Handle(limits, t, v).outcome.Served? <==> HasRoom(limits, t, 1)
    ensures Handle(limits, t, v).outcome.Served? ==>
              && AllInside(limits, Handle(limits, t, v).tiers, v.first, v.second)
              && (HasRoom(limits, Handle(limits, t, v).tiers, room) <==> HasRoom(limits, t, room + 1))
  {
    TierAtOnce(t.minute, limits.perMinute, MINUTE, v.first);
    if limits.HourTier() {
      TierAtOnce(t.hour, limits.perHour.value, HOUR, v.second);
    }
  }

  /** All these visits come at the same readings. */
  predicate AtOnce(visits: seq<Visit>, first: real, second: real) {
    forall i :: 0 <= i < |visits| ==> visits[i].first == first && visits[i].second == second
  }

  lemma {:induction false} SpendAllAtOnce(
    limits: Limits, t: Tiers, first: real, second: real, later: seq<Visit>, room: nat)
    requires AllInside(limits, t, first, second) && AtOnce(later, first, second) && |later| <= room
    requires HasRoom(limits, t, room) && !HasRoom(limits, t, room + 1)
    ensures var after := Replay(limits, t, later).tiers;
            && AllInside(limits, after, first, second)
            && HasRoom(limits, after, room - |later|) && !HasRoom(limits, after, room - |later| + 1)
  {
    if later != [] {
      var n := |later| - 1;
      SpendAllAtOnce(limits, t, first, second, later[..n], room);
      var before := Replay(limits, t, later[..n]).tiers;
      assert HasRoom(limits, before, 1);
      SpendAtOnce(limits, before, later[n], room - |later|);
      SpendAtOnce(limits, before, later[n], room - |later| + 1);
    }
  }

  lemma HandleReports(limits: Limits, t: Tiers, v: Visit)
    requires Handle(limits, t, v).outcome.Served?
    ensures var m, h := Decide(t.minute, limits.perMinute, MINUTE, v.first), Handle(limits, t, v);
            && m.verdict.allowed && h.tiers.minute == m.log
            && if !limits.HourTier() then h.outcome.remaining == m.verdict.remaining
               else
                 var d := Decide(t.hour, limits.perHour.value, HOUR, v.second);
                 && d.verdict.allowed && h.tiers.hour == d.log
                 && h.outcome.remaining == Min(m.verdict.remaining, d.verdict.remaining)
  {}

  /** What is reported to remain is what both logs leave, and not one more. */
  lemma RemainingIsTheRest(limits: Limits, t: Tiers, v: Visit)
    requires Handle(limits, t, v).outcome.Served?
    ensures var h := Handle(limits, t, v);
            && AllInside(limits, h.tiers, v.first, v.second) && h.outcome.remaining >= 0
            && HasRoom(limits, h.tiers, h.outcome.remaining) && !HasRoom(limits, h.tiers, h.outcome.remaining + 1)
  {
    HandleReports(limits, t, v);
    TierReports(t.minute, limits.perMinute, MINUTE, v.first);
    if limits.HourTier() {
      TierReports(t.hour, limits.perHour.value, HOUR, v.second);
    }
  }

  lemma NoRoomNoService(limits: Limits, t: Tiers, later: seq<Visit>, last: Visit)
    requires AllInside(limits, t, last.first, last.second) && AtOnce(later, last.first, last.second)
    requires HasRoom(limits, t, |later|) && !HasRoom(limits, t, |later| + 1)
    ensures !Handle(limits, Replay(limits, t, later).tiers, last).outcome.Served?
  {
    SpendAllAtOnce(limits, t, last.first, last.second, later, |later|);
    SpendAtOnce(limits, Replay(limits, t, later).tiers, last, 0);
  }

  /** And it is no less than it could be: of requests that come at the very same readings, so that nothing leaves a
      window in between, the one after those that remain is refused. */
  lemma RemainingIsNoLess(limits: Limits, before: seq<Visit>, v: Visit, later: seq<Visit>, last: Visit)
    requires var o := Handle(limits, Replay(limits, EMPTY, before).tiers, v).outcome;
             o.Served? && |later| == o.remaining
    requires AtOnce(later, v.first, v.second) && last.first == v.first && last.second == v.second
    ensures var after := Handle(limits, Replay(limits, EMPTY, before).tiers, v).tiers;
            !Handle(limits, Replay(limits, after, later).tiers, last).outcome.Served?
  {
    var t := Replay(limits, EMPTY, before).tiers;
    RemainingIsTheRest(limits, t, v);
    NoRoomNoService(limits, Handle(limits, t, v).tiers, later, last);
  }

  // ----- Each tier of a run is a run of the plain limiter -----

  function Firsts(visits: seq<Visit>): (times: seq<real>)
    ensures |times| == |visits|
    ensures forall i :: 0 <= i < |visits| ==> times[i] == visits[i].first
  {
    seq(|visits|, i requires 0 <= i < |visits| => visits[i].first)
  }

  /** The second readings of the visits that got as far as the hour tier. */
  function HourCalls(visits: seq<Visit>, outcomes: seq<Outcome>): seq<real>
    requires |visits| == |outcomes|
  {
    if visits == [] then [] else
      var n := |visits| - 1;
      HourCalls(visits[..n], outcomes[..n]) + if outcomes[n].RefusedByMinute? then [] else [visits[n].second]
  }

  /** The second readings of the visits that were served. */
  function ServedAt(visits: seq<Visit>, outcomes: seq<Outcome>): seq<real>
    requires |visits| == |outcomes|
  {
    if visits == [] then [] else
      var n := |visits| - 1;
      ServedAt(visits[..n], outcomes[..n]) + if outcomes[n].Served? then [visits[n].second] else []
  }

  function CountOf(outcomes: seq<Outcome>, wanted: Outcome -> bool): nat {
    if outcomes == [] then 0 else
      var n := |outcomes| - 1;
      CountOf(outcomes[..n], wanted) + if wanted(outcomes[n]) then 1 else 0
  }

  lemma HandleRunsMinuteTier(limits: Limits, t: Tiers, v: Visit)
    ensures var m := Decide(t.minute, limits.perMinute, MINUTE, v.first);
            && Handle(limits, t, v).tiers.minute == m.log
            && (Handle(limits, t, v).outcome.RefusedByMinute? <==> !m.verdict.allowed)
            && (!m.verdict.allowed ==> Handle(limits, t, v).tiers.hour == t.hour)
  {}

  lemma HandleRunsHourTier(limits: Limits, t: Tiers, v: Visit)
    ensures !Handle(limits, t, v).outcome.RefusedByMinute? && limits.HourTier() ==>
              var h := Decide(t.hour, limits.perHour.value, HOUR, v.second);
              && Handle(limits, t, v).tiers.hour == h.log
              && (Handle(limits, t, v).outcome.Served? <==> h.verdict.allowed)
  {}

  lemma MinuteStep(limits: Limits, t: Tiers, v: Visit, calls: seq<real>)
    requires t.minute == SlidingWindow.Run(limits.perMinute, MINUTE, calls).log
    ensures Handle(limits, t, v).tiers.minute == SlidingWindow.Run(limits.perMinute, MINUTE, calls + [v.first]).log
  {
    HandleRunsMinuteTier(limits, t, v);
    RunAppend(limits.perMinute, MINUTE, calls, v.first);
  }

  lemma FirstsOneMore(visits: seq<Visit>)
    requires visits != []
    ensures Firsts(visits) == Firsts(visits[..|visits| - 1]) + [visits[|visits| - 1].first]
  {}

  lemma {:induction false} MinuteLogIsARun(limits: Limits, visits: seq<Visit>)
    ensures Replay(limits, EMPTY, visits).tiers.minute ==
              SlidingWindow.Run(limits.perMinute, MINUTE, Firsts(visits)).log
  {
    if visits != [] {
      var n := |visits| - 1;
      var t := Replay(limits, EMPTY, visits[..n]).tiers;
      MinuteLogIsARun(limits, visits[..n]);
      MinuteStep(limits, t, visits[n], Firsts(visits[..n]));
      FirstsOneMore(visits);
      assert Replay(limits, EMPTY, visits).tiers == Handle(limits, t, visits[n]).tiers;
    }
  }

  lemma {:induction false} MinuteTierIsARun(limits: Limits, visits: seq<Visit>, i: nat)
    requires i < |visits|
    ensures SlidingWindow.Run(limits.perMinute, MINUTE, Firsts(visits)).verdicts[i].allowed <==>
              !Replay(limits, EMPTY, visits).outcomes[i].RefusedByMinute?
  {
    var n := |visits| - 1;
    assert Firsts(visits) == Firsts(visits[..n]) + [visits[n].first];
    RunAppend(limits.perMinute, MINUTE, Firsts(visits[..n]), visits[n].first);
    if i < n {
      MinuteTierIsARun(limits, visits[..n], i);
    } else {
      MinuteLogIsARun(limits, visits[..n]);
      HandleRunsMinuteTier(limits, Replay(limits, EMPTY, visits[..n]).tiers, visits[n]);
    }
  }

  lemma {:induction false} AdmittedAppend(calls: seq<real>, verdicts: seq<Verdict>, now: real, v: Verdict)
    requires |calls| == |verdicts|
    ensures Admitted(calls + [now], verdicts + [v]) == Admitted(calls, verdicts) + if v.allowed then [now] else []
  {
    assert (calls + [now])[..|calls|] == calls && (verdicts + [v])[..|calls|] == verdicts;
  }

  lemma HourStep(limits: Limits, t: Tiers, v: Visit, calls: seq<real>)
    requires limits.HourTier() && t.hour == SlidingWindow.Run(limits.perHour.value, HOUR, calls).log
    requires !Handle(limits, t, v).outcome.RefusedByMinute?
    ensures var before, after := SlidingWindow.Run(limits.perHour.value, HOUR, calls),
                                 SlidingWindow.Run(limits.perHour.value, HOUR, calls + [v.second]);
            && Handle(limits, t, v).tiers.hour == after.log
            && Admitted(calls + [v.second], after.verdicts) ==
                 Admitted(calls, before.verdicts) + if Handle(limits, t, v).outcome.Served? then [v.second] else []
  {
    var before := SlidingWindow.Run(limits.perHour.value, HOUR, calls);
    HandleRunsHourTier(limits, t, v);
    RunAppend(limits.perHour.value, HOUR, calls, v.second);
    AdmittedAppend(calls, before.verdicts, v.second, Decide(t.hour, limits.perHour.value, HOUR, v.second).verdict);
  }

  lemma {:induction false} HourTierIsARun(limits: Limits, visits: seq<Visit>)
    requires limits.perHour.Some? && limits.perHour.value != 0
    ensures var t := Replay(limits, EMPTY, visits);
            var calls := HourCalls(visits, t.outcomes);
            var r := SlidingWindow.Run(limits.perHour.value, HOUR, calls);
            t.tiers.hour == r.log && Admitted(calls, r.verdicts) == ServedAt(visits, t.outcomes)
  {
    if visits != [] {
      var n := |visits| - 1;
      HourTierIsARun(limits, visits[..n]);
      var t, t' := Replay(limits, EMPTY, visits[..n]), Replay(limits, EMPTY, visits);
      assert t'.outcomes[..n] == t.outcomes;
      HandleRunsMinuteTier(limits, t.tiers, visits[n]);
      HandleRunsHourTier(limits, t.tiers, visits[n]);
      assert t'.tiers == Handle(limits, t.tiers, visits[n]).tiers &&
             t'.outcomes[n] == Handle(limits, t.tiers, visits[n]).outcome;
      if t'.outcomes[n].RefusedByMinute? {
        assert HourCalls(visits, t'.outcomes) == HourCalls(visits[..n], t.outcomes) + [];
        assert HourCalls(visits, t'.outcomes) == HourCalls(visits[..n], t.outcomes);
        assert ServedAt(visits, t'.outcomes) == ServedAt(visits[..n], t.outcomes);
      } else {
        HourStep(limits, t.tiers, visits[n], HourCalls(visits[..n], t.outcomes));
      }
    }
  }

  lemma {:induction false} CountAdmitted(visits: seq<Visit>, verdicts: seq<Verdict>, outcomes: seq<Outcome>)
    requires |visits| == |verdicts| == |outcomes|
    requires forall i :: 0 <= i < |visits| ==> (verdicts[i].allowed <==> !outcomes[i].RefusedByMinute?)
    ensures |Admitted(Firsts(visits), verdicts)| ==
              CountOf(outcomes, (o: Outcome) => o.Served?) + CountOf(outcomes, (o: Outcome) => o.RefusedByHour?)
  {
    if visits != [] {
      var n := |visits| - 1;
      CountAdmitted(visits[..n], verdicts[..n], outcomes[..n]);
      assert Firsts(visits)[..n] == Firsts(visits[..n]);
    }
  }

  /** Every request the minute tier admits is either served or refused by the hour tier; none is lost or counted
      twice. */
  lemma MinuteAdmissionsAreAccountedFor(limits: Limits, visits: seq<Visit>)
    ensures var outcomes := Replay(limits, EMPTY, visits).outcomes;
            |Admitted(Firsts(visits), SlidingWindow.Run(limits.perMinute, MINUTE, Firsts(visits)).verdicts)| ==
              CountOf(outcomes, (o: Outcome) => o.Served?) + CountOf(outcomes, (o: Outcome) => o.RefusedByHour?)
  {
    forall i | 0 <= i < |visits|
      ensures SlidingWindow.Run(limits.perMinute, MINUTE, Firsts(visits)).verdicts[i].allowed <==>
                !Replay(limits, EMPTY, visits).outcomes[i].RefusedByMinute?
    {
      MinuteTierIsARun(limits, visits, i);
    }
    CountAdmitted(visits, SlidingWindow.Run(limits.perMinute, MINUTE, Firsts(visits)).verdicts,
                  Replay(limits, EMPTY, visits).outcomes);
  }

  /** The clock never runs backwards, within a request or between requests. */
  predicate ClockForward(visits: seq<Visit>) {
    && (forall i :: 0 <= i < |visits| ==> visits[i].first <= visits[i].second)
    && (forall i, j :: 0 <= i < j < |visits| ==> visits[i].second <= visits[j].first)
  }

  lemma {:induction false} HourCallsMonotone(visits: seq<Visit>, outcomes: seq<Outcome>, next: real)
    requires |visits| == |outcomes| && ClockForward(visits)
    requires forall i :: 0 <= i < |visits| ==> visits[i].second <= next
    ensures Monotone(HourCalls(visits, outcomes)) && NoneAfter(HourCalls(visits, outcomes), next)
  {
    if visits != [] {
      var n := |visits| - 1;
      HourCallsMonotone(visits[..n], outcomes[..n], visits[n].second);
    }
  }

  /** In no hour are more than `perHour` requests served, whatever the minute tier did. */
  lemma ServedWithinHourLimit(limits: Limits, visits: seq<Visit>, t: real)
    requires limits.perHour.Some? && limits.perHour.value != 0 && ClockForward(visits)
    ensures InWindow(ServedAt(visits, Replay(limits, EMPTY, visits).outcomes), t, HOUR) <= Max(limits.perHour.value, 0)
  {
    var outcomes := Replay(limits, EMPTY, visits).outcomes;
    HourTierIsARun(limits, visits);
    HourCallsMonotone(visits, outcomes, if visits == [] then 0.0 else visits[|visits| - 1].second);
    WindowSafety(limits.perHour.value, HOUR, HourCalls(visits, outcomes), t);
  }

  // ----- The reset header -----

  ghost predicate NoEntryAfter(log: seq<Entry>, now: real) {
    forall i :: 0 <= i < |log| ==> log[i].ts <= now
  }

  lemma {:induction false} PruneKeepsPast(log: seq<Entry>, start: real, now: real)
    requires NoEntryAfter(log, now)
    ensures NoEntryAfter(Prune(log, start), now)
    ensures now <= start ==> Prune(log, start) == []
  {
    if log != [] {
      PruneKeepsPast(log[..|log| - 1], start, now);
    }
  }

  lemma DecideKeepsPast(log: seq<Entry>, limit: int, window: int, now: real)
    requires NoEntryAfter(log, now)
    ensures NoEntryAfter(Decide(log, limit, window, now).log, now)
  {
    PruneKeepsPast(log, now - window as real, now);
  }

  lemma {:induction false} ReplayKeepsPast(limits: Limits, visits: seq<Visit>, now: real)
    requires forall i :: 0 <= i < |visits| ==> visits[i].first <= visits[i].second <= now
    requires ClockForward(visits)
    ensures NoEntryAfter(Replay(limits, EMPTY, visits).tiers.minute, now)
    ensures NoEntryAfter(Replay(limits, EMPTY, visits).tiers.hour, now)
    ensures !limits.HourTier() ==> Replay(limits, EMPTY, visits).tiers.hour == []
  {
    if visits != [] {
      var n := |visits| - 1;
      var t := Replay(limits, EMPTY, visits[..n]).tiers;
      ReplayKeepsPast(limits, visits[..n], visits[n].first);
      DecideKeepsPast(t.minute, limits.perMinute, MINUTE, visits[n].first);
      if limits.HourTier() {
        DecideKeepsPast(t.hour, limits.perHour.value, HOUR, visits[n].second);
      }
    }
  }

  /** What a visit finds in the logs is no later than its own readings. */
  lemma PastIsBehind(limits: Limits, before: seq<Visit>, v: Visit)
    requires ClockForward(before + [v])
    ensures ClockForward(before) && v.first <= v.second
    ensures var t := Replay(limits, EMPTY, before).tiers;
            && NoEntryAfter(t.minute, v.first) && NoEntryAfter(t.hour, v.first)
            && (!limits.HourTier() ==> t.hour == [])
  {
    assert forall i :: 0 <= i < |before| ==> (before + [v])[i] == before[i];
    assert (before + [v])[|before|] == v;
    ReplayKeepsPast(limits, before, v.first);
  }

  /** With no further request, the log of an admitted call is empty at t exactly from now + window on. */
  lemma EmptyFrom(log: seq<Entry>, limit: int, window: int, now: real, t: real)
    requires NoEntryAfter(log, now) && Decide(log, limit, window, now).verdict.allowed
    ensures Prune(Decide(log, limit, window, now).log, t - window as real) == [] <==> t >= now + window as real
  {
    var kept := Prune(log, now - window as real);
    PruneKeepsPast(log, now - window as real, now);
    PruneKeepsPast(kept, t - window as real, now);
    PruneAppend(kept, Entry(now, 1), t - window as real);
  }

  ghost predicate QuietAt(t: Tiers, at: real) {
    Prune(t.minute, at - MINUTE as real) == [] && Prune(t.hour, at - HOUR as real) == []
  }

  lemma QuietExactly(limits: Limits, t: Tiers, v: Visit, at: real)
    requires NoEntryAfter(t.minute, v.first) && NoEntryAfter(t.hour, v.second)
    requires !limits.HourTier() ==> t.hour == []
    requires Handle(limits, t, v).outcome.Served?
    ensures QuietAt(Handle(limits, t, v).tiers, at) <==>
              at >= v.first + 60.0 && (limits.HourTier() ==> at >= v.second + 3600.0)
  {
    HandleRunsMinuteTier(limits, t, v);
    HandleRunsHourTier(limits, t, v);
    EmptyFrom(t.minute, limits.perMinute, MINUTE, v.first, at);
    if limits.HourTier() {
      EmptyFrom(t.hour, limits.perHour.value, HOUR, v.second, at);
    }
  }

  lemma ResetCoversBothWindows(limits: Limits, t: Tiers, v: Visit)
    requires Handle(limits, t, v).outcome.Served?
    ensures Handle(limits, t, v).outcome.reset as real + 1.0 >= v.first + 60.0
    ensures limits.HourTier() ==> Handle(limits, t, v).outcome.reset as real + 1.0 >= v.second + 3600.0
  {
    var reset := Handle(limits, t, v).outcome.reset;
    assert reset >= Trunc(v.first + MINUTE as real);
    if limits.HourTier() {
      assert reset >= Trunc(v.second + HOUR as real);
    }
  }

  /** Both logs are empty exactly once both windows have passed, which is never later than one second after the
      reported reset. */
  lemma ResetHeader(limits: Limits, before: seq<Visit>, v: Visit, at: real)
    requires ClockForward(before + [v])
    requires Handle(limits, Replay(limits, EMPTY, before).tiers, v).outcome.Served?
    ensures var h := Handle(limits, Replay(limits, EMPTY, before).tiers, v);
            && (QuietAt(h.tiers, at) <==> at >= v.first + 60.0 && (limits.HourTier() ==> at >= v.second + 3600.0))
            && (at >= h.outcome.reset as real + 1.0 ==> QuietAt(h.tiers, at))
  {
    var t := Replay(limits, EMPTY, before).tiers;
    PastIsBehind(limits, before, v);
    QuietExactly(limits, t, v, at);
    ResetCoversBothWindows(limits, t, v);
  }

  lemma AllowedOnceQuiet(log: seq<Entry>, limit: int, window: int, last: real, at: real)
    requires NoEntryAfter(log, last) && at >= last + window as real && limit >= 1
    ensures Decide(log, limit, window, at).verdict.allowed
  {
    PruneKeepsPast(log, at - window as real, last);
  }

  lemma MinuteRetry(limits: Limits, t: Tiers, v: Visit, at: real)
    requires NoEntryAfter(t.minute, v.first) && 0.0 <= v.second && limits.perMinute >= 1
    requires Handle(limits, t, v).outcome.RefusedByMinute?
    requires at >= v.second + Handle(limits, t, v).outcome.retryAfter as real + 1.0
    ensures Decide(Handle(limits, t, v).tiers.minute, limits.perMinute, MINUTE, at).verdict.allowed
  {
    DecideKeepsPast(t.minute, limits.perMinute, MINUTE, v.first);
    AllowedOnceQuiet(Handle(limits, t, v).tiers.minute, limits.perMinute, MINUTE, v.first, at);
  }

  lemma HourRetry(limits: Limits, t: Tiers, v: Visit, at: real)
    requires NoEntryAfter(t.hour, v.second) && 0.0 <= v.third
    requires Handle(limits, t, v).outcome.RefusedByHour? && limits.perHour.value >= 1
    requires at >= v.third + Handle(limits, t, v).outcome.retryAfter as real + 1.0
    ensures Decide(Handle(limits, t, v).tiers.hour, limits.perHour.value, HOUR, at).verdict.allowed
  {
    DecideKeepsPast(t.hour, limits.perHour.value, HOUR, v.second);
    AllowedOnceQuiet(Handle(limits, t, v).tiers.hour, limits.perHour.value, HOUR, v.second, at);
  }

  /** A refused client that waits one second longer than it was told, and sends nothing meanwhile, passes the tier that
      refused it. */
  lemma RetryAfterSuffices(limits: Limits, before: seq<Visit>, v: Visit, at: real)
    requires ClockForward(before + [v]) && 0.0 <= v.second <= v.third
    requires limits.perMinute >= 1 && (limits.HourTier() ==> limits.perHour.value >= 1)
    ensures var h := Handle(limits, Replay(limits, EMPTY, before).tiers, v);
            && (h.outcome.RefusedByMinute? && at >= v.second + h.outcome.retryAfter as real + 1.0 ==>
                  Decide(h.tiers.minute, limits.perMinute, MINUTE, at).verdict.allowed)
            && (h.outcome.RefusedByHour? && at >= v.third + h.outcome.retryAfter as real + 1.0 ==>
                  Decide(h.tiers.hour, limits.perHour.value, HOUR, at).verdict.allowed)
  {
    var t := Replay(limits, EMPTY, before).tiers;
    var outcome := Handle(limits, t, v).outcome;
    PastIsBehind(limits, before, v);
    if outcome.RefusedByMinute? && at >= v.second + outcome.retryAfter as real + 1.0 {
      MinuteRetry(limits, t, v, at);
    }
    if outcome.RefusedByHour? && at >= v.third + outcome.retryAfter as real + 1.0 {
      HourRetry(limits, t, v, at);
    }
  }

  /** The header counts whole seconds: those of the reading that was refused, plus the window, less those of the reading
      taken for the header. */
  lemma RetryAfterIsExact(limits: Limits, t: Tiers, v: Visit)
    requires 0.0 <= v.first <= v.second <= v.third
    ensures var o := Handle(limits, t, v).outcome;
            && (o.RefusedByMinute? ==> o.retryAfter == v.first.Floor + 60 - v.second.Floor)
            && (o.RefusedByHour? ==> o.retryAfter == v.second.Floor + 3600 - v.third.Floor)
  {
    assert Trunc(v.first + MINUTE as real) == v.first.Floor + 60;
    assert Trunc(v.second + HOUR as real) == v.second.Floor + 3600;
  }

  lemma ResetCutsFraction(limits: Limits, t: Tiers, v: Visit)
    requires Handle(limits, t, v).outcome.Served? && 0.0 <= v.first <= v.second
    ensures Handle(limits, t, v).outcome.reset ==
              if limits.HourTier() then v.second.Floor + 3600 else v.first.Floor + 60
  {
    assert Trunc(v.first + MINUTE as real) == v.first.Floor + 60;
    assert Trunc(v.second + HOUR as real) == v.second.Floor + 3600;
  }

  /** At the reported reset itself both logs are empty exactly when the reading that decides it is a whole second: the
      hour tier's, or the minute tier's where there is no hour tier. */
  lemma ResetIsExactOnWholeSeconds(limits: Limits, before: seq<Visit>, v: Visit)
    requires ClockForward(before + [v]) && 0.0 <= v.first
    requires Handle(limits, Replay(limits, EMPTY, before).tiers, v).outcome.Served?
    ensures var h, reading :=
                Handle(limits, Replay(limits, EMPTY, before).tiers, v), if limits.HourTier() then v.second else v.first;
            QuietAt(h.tiers, h.outcome.reset as real) <==> reading.Floor as real == reading
  {
    var t := Replay(limits, EMPTY, before).tiers;
    PastIsBehind(limits, before, v);
    ResetCutsFraction(limits, t, v);
    QuietExactly(limits, t, v, Handle(limits, t, v).outcome.reset as real);
  }

  /** The reported reset itself can be too early: `int` cuts the fraction off. */
  lemma ResetHeaderCanBeEarly()
    ensures var h := Handle(Limits(1, None), EMPTY, Visit(0.5, 0.5, 0.5));
            h.outcome == Served(0, 60) && !QuietAt(h.tiers, h.outcome.reset as real)
  {
    var log := [Entry(0.5, 1)];
    assert Prune([], -59.5) == [] && Total([]) == 0;
    assert Trunc(60.5) == 60;
    PruneAppend([], Entry(0.5, 1), 0.0);
    assert Handle(Limits(1, None), EMPTY, Visit(0.5, 0.5, 0.5)).tiers.minute == [] + log;
  }
}
