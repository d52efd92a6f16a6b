/** Runs of the overlapping Redis limiter that reach its bounds, for every limit, every c and every window. */
module RedisLimiterWorstCase {
  import opened Common
  import opened RedisRateLimiter
  import opened RedisLimiterConcurrent

  /** A set of sound states that steps do not leave; a calm one is only promised for steps under which no key expires
      while calls are in flight. */
  ghost predicate Closed(cfg: Config, reached: State -> bool, calm: bool) {
    && (forall s {:trigger ReadingsSound(s)} :: reached(s) ==> ReadingsSound(s))
    && (forall s, step {:trigger reached(Apply(cfg, s, step))} ::
          reached(s) && Enabled(cfg, s, step) && (calm && Expires(s, step) ==> s.calls == map[]) ==>
            reached(Apply(cfg, s, step)))
  }

  lemma Go(cfg: Config, reached: State -> bool, calm: bool, s: State, step: Step) returns (r: State)
    requires Closed(cfg, reached, calm) && reached(s) && Enabled(cfg, s, step)
    requires calm && Expires(s, step) ==> s.calls == map[]
    ensures r == Apply(cfg, s, step) && reached(r)
  {
    r := Apply(cfg, s, step);
    assert reached(Apply(cfg, s, step));
  }

  /** Until `hi`, calls can arrive that prune nothing and find the key alive. */
  predicate Open(cfg: Config, s: State, hi: real) {
    && cfg.window >= 1 && 0.0 <= s.clock && s.latest <= s.clock < hi <= s.clock + cfg.window as real
    && (forall x :: x in s.key.scores ==> hi - cfg.window as real <= x)
    && (s.key.scores == {} ==> s.key == ABSENT)
    && (s.key.expireAt.Some? ==> hi <= s.key.expireAt.value)
  }

  /** There is always a moment between now and `hi`. */
  function Between(clock: real, hi: real): real {
    (clock + hi) / 2.0
  }

  /** The calls a .. m - 1 stand where `phase` says, with readings after `base`. */
  predicate Group(s: State, a: nat, m: nat, phase: Phase, base: real) {
    forall i: nat :: a <= i < m ==> i in s.calls && s.calls[i].phase == phase && base < s.calls[i].now <= s.clock
  }

  predicate Only(s: State, a: nat, m: nat) {
    forall i :: i in s.calls ==> a <= i < m
  }

  // ----- Single commands -----

  /** A call arrives and prunes nothing. */
  lemma Enter(cfg: Config, reached: State -> bool, calm: bool, s: State, id: nat, hi: real) returns (r: State)
    requires Closed(cfg, reached, calm) && reached(s) && Open(cfg, s, hi)
    requires id !in s.calls && |s.calls| < cfg.maxInFlight
    ensures reached(r) && Open(cfg, r, hi)
    ensures var now := Between(s.clock, hi);
            r == State(s.key, s.calls[id := Call(now, Counting)], now, now, s.admitted)
  {
    var now := Between(s.clock, hi);
    assert ReadingsSound(s);
    r := Go(cfg, reached, calm, s, Arrive(id, now));
    r := Go(cfg, reached, calm, r, Advance(id));
    PrunedState(cfg, s, id, now);
    assert Outside(s.key.scores, 0.0, now - cfg.window as real) == s.key.scores;
    assert r.key == s.key;
  }

  /** A call that finds room is let through. */
  lemma CountIn(cfg: Config, reached: State -> bool, calm: bool, s: State, id: nat, t: real) returns (r: State)
    requires Closed(cfg, reached, calm) && reached(s) && id in s.calls && s.calls[id].phase.Counting?
    requires |s.key.scores| < cfg.limit && t - cfg.window as real < s.calls[id].now <= t
    ensures reached(r) && |Window(cfg, r, t)| == |Window(cfg, s, t)| + 1
    ensures r == s.(calls := s.calls[id := Call(s.calls[id].now, Adding)], admitted := s.admitted + {s.calls[id].now})
  {
    assert ReadingsSound(s);
    r := Go(cfg, reached, calm, s, Advance(id));
    assert Window(cfg, r, t) == Window(cfg, s, t) + {s.calls[id].now};
  }

  // ----- Groups of calls -----

  lemma GroupGrows(s: State, r: State, m: nat, phase: Phase, base: real)
    requires Only(s, 0, m) && Group(s, 0, m, phase, base) && |s.calls| == m && base <= s.clock < r.clock
    requires r.calls == s.calls[m := Call(r.clock, phase)]
    ensures Only(r, 0, m + 1) && Group(r, 0, m + 1, phase, base) && |r.calls| == m + 1
  {
    assert m !in s.calls;
  }

  /** A call arrives and, if it counts, is let through. */
  lemma OneMore(cfg: Config, reached: State -> bool, calm: bool, s: State, id: nat, counts: bool, hi: real, t: real)
    returns (r: State)
    requires Closed(cfg, reached, calm) && reached(s) && Open(cfg, s, hi) && Only(s, 0, id)
    requires |s.calls| < cfg.maxInFlight && (counts ==> |s.key.scores| < cfg.limit)
    requires t - cfg.window as real <= s.clock && hi <= t
    ensures reached(r) && Open(cfg, r, hi) && r.key == s.key && s.clock < r.clock
    ensures r.calls == s.calls[id := Call(r.clock, if counts then Adding else Counting)]
    ensures |Window(cfg, r, t)| == |Window(cfg, s, t)| + if counts then 1 else 0
  {
    assert id !in s.calls;
    var entered := Enter(cfg, reached, calm, s, id, hi);
    assert Window(cfg, entered, t) == Window(cfg, s, t);
    r := entered;
    if counts {
      r := CountIn(cfg, reached, calm, entered, id, t);
      assert entered.calls[id := Call(r.clock, Adding)] == s.calls[id := Call(r.clock, Adding)];
    }
  }

  /** Calls 0 .. m - 1 arrive one after the other; if they count, each finds room, for none has added yet. */
  lemma Gather(cfg: Config, reached: State -> bool, calm: bool, s: State, m: nat, counts: bool, hi: real, t: real)
    returns (r: State)
    requires Closed(cfg, reached, calm) && reached(s) && Open(cfg, s, hi) && s.calls == map[]
    requires m <= cfg.maxInFlight && (counts ==> |s.key.scores| < cfg.limit)
    requires t - cfg.window as real <= s.clock && hi <= t
    ensures reached(r) && Open(cfg, r, hi) && r.key == s.key && s.clock <= r.clock
    ensures |r.calls| == m && Only(r, 0, m) && Group(r, 0, m, if counts then Adding else Counting, s.clock)
    ensures |Window(cfg, r, t)| == |Window(cfg, s, t)| + if counts then m else 0
  {
    if m == 0 {
      r := s;
    } else {
      var before := Gather(cfg, reached, calm, s, m - 1, counts, hi, t);
      r := OneMore(cfg, reached, calm, before, m - 1, counts, hi, t);
      GroupGrows(before, r, m - 1, if counts then Adding else Counting, s.clock);
    }
  }

  /** The first `j` of them add their readings. */
  lemma Land(cfg: Config, reached: State -> bool, calm: bool, s: State, j: nat, m: nat, base: real) returns (r: State)
    requires Closed(cfg, reached, calm) && reached(s) && Group(s, 0, m, Adding, base) && Only(s, 0, m) && j <= m
    ensures reached(r) && r == s.(key := r.key, calls := r.calls)
    ensures r.key.expireAt == s.key.expireAt && |r.key.scores| == |s.key.scores| + j
    ensures forall x :: x in r.key.scores ==> x in s.key.scores || base < x
    ensures Only(r, 0, m) && Group(r, 0, j, Expiring, base) && Group(r, j, m, Adding, base)
  {
    if j == 0 {
      r := s;
    } else {
      var before := Land(cfg, reached, calm, s, j - 1, m, base);
      assert j - 1 in before.calls && before.calls[j - 1].phase.Adding?;
      assert ReadingsSound(before);
      r := Go(cfg, reached, calm, before, Advance(j - 1));
    }
  }

  /** The first `j` of them renew the key and are done. */
  lemma LeaveAll(cfg: Config, reached: State -> bool, calm: bool, s: State, j: nat, m: nat, base: real)
    returns (r: State)
    requires Closed(cfg, reached, calm) && reached(s) && Group(s, 0, m, Expiring, base) && Only(s, 0, m) && j <= m
    requires cfg.window >= 1 && (s.key.scores == {} ==> s.key == ABSENT)
    ensures reached(r) && r == s.(key := r.key, calls := r.calls)
    ensures r.key ==
              if j == 0 || s.key.scores == {} then s.key else ZKey(s.key.scores, Some(s.clock + cfg.window as real))
    ensures Only(r, j, m) && Group(r, j, m, Expiring, base)
  {
    if j == 0 {
      r := s;
    } else {
      var before := LeaveAll(cfg, reached, calm, s, j - 1, m, base);
      assert j - 1 in before.calls && before.calls[j - 1].phase.Expiring?;
      r := Go(cfg, reached, calm, before, Advance(j - 1));
    }
  }

  /** `m` calls overlap so that all of them are let through, and add. */
  lemma Overlap(cfg: Config, reached: State -> bool, calm: bool, s: State, m: nat, hi: real, t: real) returns (r: State)
    requires Closed(cfg, reached, calm) && reached(s) && Open(cfg, s, hi) && s.calls == map[]
    requires 1 <= m <= cfg.maxInFlight && |s.key.scores| < cfg.limit && t - cfg.window as real <= s.clock && hi <= t
    ensures reached(r) && s.clock <= r.clock < hi && r.latest <= r.clock
    ensures r.key.expireAt == s.key.expireAt && |r.key.scores| == |s.key.scores| + m
    ensures forall x :: x in r.key.scores ==> x in s.key.scores || s.clock < x
    ensures Only(r, 0, m) && Group(r, 0, m, Expiring, s.clock) && |Window(cfg, r, t)| == |Window(cfg, s, t)| + m
  {
    var counted := Gather(cfg, reached, calm, s, m, true, hi, t);
    r := Land(cfg, reached, calm, counted, m, m, s.clock);
    assert Window(cfg, r, t) == Window(cfg, counted, t);
  }

  /** They finish as well. */
  lemma Serve(cfg: Config, reached: State -> bool, calm: bool, s: State, m: nat, hi: real, t: real) returns (r: State)
    requires Closed(cfg, reached, calm) && reached(s) && Open(cfg, s, hi) && s.calls == map[]
    requires 1 <= m <= cfg.maxInFlight && |s.key.scores| < cfg.limit && t - cfg.window as real <= s.clock && hi <= t
    ensures reached(r) && Open(cfg, r, hi) && r.calls == map[] && s.clock <= r.clock
    ensures |r.key.scores| == |s.key.scores| + m && r.key.expireAt == Some(r.clock + cfg.window as real)
    ensures |Window(cfg, r, t)| == |Window(cfg, s, t)| + m
  {
    var landed := Overlap(cfg, reached, calm, s, m, hi, t);
    assert landed.key.scores != {};
    r := LeaveAll(cfg, reached, calm, landed, m, m, s.clock);
    assert r.calls == map[];
    assert Window(cfg, r, t) == Window(cfg, landed, t);
  }

  /** Calls one after the other. */
  lemma Fill(cfg: Config, reached: State -> bool, calm: bool, s: State, k: nat, hi: real, t: real) returns (r: State)
    requires Closed(cfg, reached, calm) && reached(s) && Open(cfg, s, hi) && s.calls == map[]
    requires 1 <= cfg.maxInFlight && |s.key.scores| + k <= cfg.limit && t - cfg.window as real <= s.clock && hi <= t
    ensures reached(r) && Open(cfg, r, hi) && r.calls == map[] && s.clock <= r.clock
    ensures |r.key.scores| == |s.key.scores| + k && |Window(cfg, r, t)| == |Window(cfg, s, t)| + k
  {
    if k == 0 {
      r := s;
    } else {
      r := Fill(cfg, reached, calm, s, k - 1, hi, t);
      r := Serve(cfg, reached, calm, r, 1, hi, t);
    }
  }

  /** The first `j` of the waiting calls count an empty set. */
  lemma CountAll(cfg: Config, reached: State -> bool, calm: bool, s: State, j: nat, m: nat, t: real) returns (r: State)
    requires Closed(cfg, reached, calm) && reached(s) && cfg.limit >= 1 && s.key == ABSENT && j <= m
    requires forall i: nat :: i < m ==> i in s.calls && s.calls[i].phase.Counting?
    requires forall i: nat :: i < m ==> t - cfg.window as real < s.calls[i].now <= t
    ensures reached(r) && r.key == ABSENT && |Window(cfg, r, t)| == |Window(cfg, s, t)| + j
    ensures forall i: nat :: j <= i < m ==> i in r.calls && r.calls[i] == s.calls[i]
  {
    if j == 0 {
      r := s;
    } else {
      var before := CountAll(cfg, reached, calm, s, j - 1, m, t);
      assert j - 1 in before.calls && before.calls[j - 1] == s.calls[j - 1];
      r := CountIn(cfg, reached, calm, before, j - 1, t);
    }
  }

  lemma StartIsOpen(cfg: Config)
    requires cfg.window >= 1
    ensures Open(cfg, START, cfg.window as real) && |Window(cfg, START, cfg.window as real)| == 0
  {
    assert Window(cfg, START, cfg.window as real) == {};
  }

  // ----- limit + 2 (c - 1), while no key expires under a call -----

  /** One more call prunes all that was written while others still wait to count. */
  lemma PruneUnderThem(cfg: Config, reached: State -> bool, s: State, id: nat, written: real) returns (r: State)
    requires Closed(cfg, reached, true) && reached(s) && cfg.window >= 1
    requires id !in s.calls && |s.calls| < cfg.maxInFlight
    requires 0.0 <= written && s.latest <= s.clock < written + cfg.window as real
    requires s.key.expireAt == Some(written + cfg.window as real)
    requires forall x :: x in s.key.scores ==> 0.0 <= x <= written
    ensures reached(r) && r.key == ABSENT && r.admitted == s.admitted
    ensures forall i :: i in s.calls ==> i in r.calls && r.calls[i] == s.calls[i]
  {
    var now := written + cfg.window as real;
    assert Outside(s.key.scores, 0.0, now - cfg.window as real) == {};
    r := Go(cfg, reached, true, s, Arrive(id, now));
    r := Go(cfg, reached, true, r, Advance(id));
    PrunedState(cfg, s, id, now);
  }

  lemma ReachUndisturbed(cfg: Config, reached: State -> bool) returns (r: State)
    requires Closed(cfg, reached, true) && reached(START) && 1 <= cfg.limit && 1 <= cfg.maxInFlight && 1 <= cfg.window
    ensures reached(r) && |Window(cfg, r, cfg.window as real)| == cfg.limit + 2 * (cfg.maxInFlight - 1)
  {
    var c, t := cfg.maxInFlight, cfg.window as real;
    StartIsOpen(cfg);
    r := Fill(cfg, reached, true, START, cfg.limit - 1, t, t);
    r := Serve(cfg, reached, true, r, c, t, t);
    var written := r.clock;
    assert ReadingsSound(r);
    var waiting := Gather(cfg, reached, true, r, c - 1, false, t, t);
    r := PruneUnderThem(cfg, reached, waiting, c - 1, written);
    assert Window(cfg, r, t) == Window(cfg, waiting, t);
    r := CountAll(cfg, reached, true, r, c - 1, c - 1, t);
  }

  // ----- limit + 3c - 1, when keys expire under calls -----

  /** A call with nothing in between. */
  lemma LoneCall(cfg: Config, reached: State -> bool, s: State, id: nat, now: real) returns (r: State)
    requires Closed(cfg, reached, false) && reached(s) && Enabled(cfg, s, Arrive(id, now))
    ensures var d := DecideRedis(s.key, cfg.limit, cfg.window, now);
            && reached(r) && r.key == d.key && r.calls == s.calls && r.clock == r.latest == now
            && r.admitted == if d.verdict.allowed then s.admitted + {now} else s.admitted
  {
    LoneCallIsDecide(cfg, s, id, now);
    r := Go(cfg, reached, false, s, Arrive(id, now));
    var pruned := Go(cfg, reached, false, r, Advance(id));
    var counted := Go(cfg, reached, false, pruned, Advance(id));
    if id in counted.calls {
      r := Go(cfg, reached, false, counted, Advance(id));
      r := Go(cfg, reached, false, r, Advance(id));
    } else {
      r := counted;
    }
    assert r == Finished(cfg, pruned, id);
  }

  lemma FirstDecision(limit: int, window: int, at: real)
    requires limit >= 1 && window >= 1
    ensures var d := DecideRedis(ABSENT, limit, window, at);
            d.verdict.allowed && d.key == ZKey({at}, Some(at + window as real))
  {
    var kept := RemoveRange(Visible(ABSENT, at), 0.0, at - window as real);
    assert kept == ABSENT && Add(kept, at).scores == {at} && at in Add(kept, at).scores;
  }

  /** Nothing has happened yet. */
  predicate Blank(s: State) {
    s.key == ABSENT && s.calls == map[] && s.clock == 0.0 && s.latest < 0.0 && s.admitted == {}
  }

  /** One call at half a window, and then the other half passes. */
  lemma FirstCall(cfg: Config, reached: State -> bool, s: State, id: nat) returns (r: State)
    requires Closed(cfg, reached, false) && reached(s) && Blank(s)
    requires 1 <= cfg.limit && 1 <= cfg.maxInFlight && 1 <= cfg.window
    ensures var w := cfg.window as real;
            var at := Between(0.0, w);
            && reached(r) && r.key == ZKey({at}, Some(at + w)) && r.calls == map[]
            && r.clock == w && r.latest == at && r.admitted == {at}
  {
    var w := cfg.window as real;
    var at := Between(0.0, w);
    var called := LoneCall(cfg, reached, s, id, at);
    FirstDecision(cfg.limit, cfg.window, at);
    r := Go(cfg, reached, false, called, Pass(w));
  }

  lemma LetExpire(cfg: Config, reached: State -> bool, s: State, to: real) returns (r: State)
    requires Closed(cfg, reached, false) && reached(s) && s.clock <= to
    requires s.key.expireAt.Some? && s.key.expireAt.value < to
    ensures reached(r) && r == s.(key := ABSENT, clock := to)
  {
    r := Go(cfg, reached, false, s, Pass(to));
  }

  /** c calls add to a key that expires before any of them can renew it. */
  lemma LoseThem(cfg: Config, reached: State -> bool) returns (r: State)
    requires Closed(cfg, reached, false) && reached(START) && 2 <= cfg.limit && 1 <= cfg.maxInFlight && 1 <= cfg.window
    ensures var w := cfg.window as real;
            && reached(r) && r.key == ABSENT && r.calls == map[] && r.clock == 1.75 * w && r.latest <= r.clock
            && |Window(cfg, r, 2.0 * w)| == cfg.maxInFlight
  {
    var c, w := cfg.maxInFlight, cfg.window as real;
    var first := FirstCall(cfg, reached, START, 0);
    assert Window(cfg, first, 2.0 * w) == {};
    var landed := Overlap(cfg, reached, false, first, c, 1.5 * w, 2.0 * w);
    var lost := LetExpire(cfg, reached, landed, 1.75 * w);
    assert Group(lost, 0, c, Expiring, w);
    r := LeaveAll(cfg, reached, false, lost, c, c, w);
    assert r.calls == map[];
    assert Window(cfg, r, 2.0 * w) == Window(cfg, landed, 2.0 * w);
  }

  /** c admissions are lost with the key before they could renew it, the limit and c - 1 more follow, and c calls wait
      out the key once more and then count an empty set. */
  lemma ReachWorst(cfg: Config, reached: State -> bool) returns (r: State)
    requires Closed(cfg, reached, false) && reached(START) && 2 <= cfg.limit && 1 <= cfg.maxInFlight && 1 <= cfg.window
    ensures reached(r) && |Window(cfg, r, 2.0 * cfg.window as real)| == cfg.limit + 3 * cfg.maxInFlight - 1
  {
    var c, w, t := cfg.maxInFlight, cfg.window as real, 2.0 * cfg.window as real;
    r := LoseThem(cfg, reached);
    r := Fill(cfg, reached, false, r, cfg.limit - 1, t, t);
    r := Serve(cfg, reached, false, r, c, t, t);
    var waiting := Gather(cfg, reached, false, r, c, false, t, t);
    r := LetExpire(cfg, reached, waiting, 4.0 * w);
    assert Window(cfg, r, t) == Window(cfg, waiting, t);
    r := CountAll(cfg, reached, false, r, c, c, t);
  }

  /** With limit 1, c calls count an absent key together, and c more wait out the key and then count an empty set. */
  lemma ReachWorstOfOne(cfg: Config, reached: State -> bool) returns (r: State)
    requires Closed(cfg, reached, false) && reached(START) && cfg.limit == 1 && 1 <= cfg.maxInFlight && 1 <= cfg.window
    ensures reached(r) && |Window(cfg, r, cfg.window as real)| == 2 * cfg.maxInFlight
  {
    var c, t := cfg.maxInFlight, cfg.window as real;
    StartIsOpen(cfg);
    r := Serve(cfg, reached, false, START, c, t, t);
    var waiting := Gather(cfg, reached, false, r, c, false, t, t);
    r := LetExpire(cfg, reached, waiting, 2.0 * t);
    assert Window(cfg, r, t) == Window(cfg, waiting, t);
    r := CountAll(cfg, reached, false, r, c, c, t);
  }

  // ----- The bounds are reached by runs -----

  ghost predicate Reachable(cfg: Config, s: State, calm: bool) {
    exists steps :: ValidRun(cfg, steps) && Exec(cfg, steps) == s && (calm ==> Undisturbed(cfg, steps))
  }

  lemma Extend(cfg: Config, steps: seq<Step>, step: Step) returns (more: seq<Step>)
    requires ValidRun(cfg, steps) && Enabled(cfg, Exec(cfg, steps), step)
    ensures ValidRun(cfg, more) && Exec(cfg, more) == Apply(cfg, Exec(cfg, steps), step)
    ensures Undisturbed(cfg, steps) && (Expires(Exec(cfg, steps), step) ==> Exec(cfg, steps).calls == map[]) ==>
              Undisturbed(cfg, more)
  {
    more := steps + [step];
    assert more[..|steps|] == steps;
  }

  lemma ReachableIsClosed(cfg: Config, calm: bool)
    ensures Closed(cfg, (s: State) => Reachable(cfg, s, calm), calm) && Reachable(cfg, START, calm)
  {
    forall s | Reachable(cfg, s, calm)
      ensures ReadingsSound(s)
    {
      var steps :| ValidRun(cfg, steps) && Exec(cfg, steps) == s && (calm ==> Undisturbed(cfg, steps));
      RunIsSound(cfg, steps);
    }
    forall s, step |
      Reachable(cfg, s, calm) && Enabled(cfg, s, step) && (calm && Expires(s, step) ==> s.calls == map[])
      ensures Reachable(cfg, Apply(cfg, s, step), calm)
    {
      var steps :| ValidRun(cfg, steps) && Exec(cfg, steps) == s && (calm ==> Undisturbed(cfg, steps));
      var more := Extend(cfg, steps, step);
    }
    assert ValidRun(cfg, []) && Exec(cfg, []) == START && Undisturbed(cfg, []);
  }

  /** For every limit, c and window some run in which no key expires under a call lets limit + 2 (c - 1) calls into one
      window. */
  lemma UndisturbedOvershootIsReached(cfg: Config) returns (steps: seq<Step>, t: real)
    requires 1 <= cfg.limit && 1 <= cfg.maxInFlight && 1 <= cfg.window
    ensures ValidRun(cfg, steps) && Undisturbed(cfg, steps)
    ensures |Window(cfg, Exec(cfg, steps), t)| == cfg.limit + 2 * (cfg.maxInFlight - 1)
  {
    ReachableIsClosed(cfg, true);
    var r := ReachUndisturbed(cfg, (s: State) => Reachable(cfg, s, true));
    steps :| ValidRun(cfg, steps) && Exec(cfg, steps) == r && Undisturbed(cfg, steps);
    t := cfg.window as real;
  }

  /** For every limit, c and window some run lets as many calls into one window as `WindowOvershoot` allows. */
  lemma WindowOvershootIsReached(cfg: Config) returns (steps: seq<Step>, t: real)
    requires 1 <= cfg.limit && 1 <= cfg.maxInFlight && 1 <= cfg.window
    ensures ValidRun(cfg, steps) && |Window(cfg, Exec(cfg, steps), t)| == WorstCase(cfg)
  {
    var r;
    ReachableIsClosed(cfg, false);
    if cfg.limit == 1 {
      r := ReachWorstOfOne(cfg, (s: State) => Reachable(cfg, s, false));
      t := cfg.window as real;
    } else {
      r := ReachWorst(cfg, (s: State) => Reachable(cfg, s, false));
      t := 2.0 * cfg.window as real;
    }
    steps :| ValidRun(cfg, steps) && Exec(cfg, steps) == r;
  }
}
