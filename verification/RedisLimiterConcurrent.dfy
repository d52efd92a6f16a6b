/** The Redis limiter when calls overlap: every command of a call is a step of its own, time passes between commands,
    and the key expires by its own clock. */
module RedisLimiterConcurrent {
  import opened RedisRateLimiter

  /** The command a call sends next. */
  datatype Phase = Pruning | Counting | Adding | Expiring

  /** A call keeps the clock reading it took on entry. */
  datatype Call = Call(now: real, phase: Phase)

  /** `admitted` has the readings of all calls let through so far; they differ, so it counts them. */
  datatype State = State(key: ZKey, calls: map<nat, Call>, clock: real, latest: real, admitted: set<real>)

  datatype Config = Config(limit: int, window: int, maxInFlight: nat)

  datatype Step =
    | Arrive(id: nat, now: real)
    | Pass(to: real)
    | Advance(id: nat)

  const START := State(ABSENT, map[], 0.0, -1.0, {})

  /** Readings strictly increase from call to call. */
  predicate Enabled(cfg: Config, s: State, step: Step) {
    match step
    case Arrive(id, now) => id !in s.calls && |s.calls| < cfg.maxInFlight && s.latest < now && s.clock <= now
    case Pass(to) => s.clock <= to
    case Advance(id) => id in s.calls
  }

  function Tick(s: State, to: real): State {
    s.(key := Visible(s.key, to), clock := to)
  }

  function Leave(s: State, id: nat): State {
    s.(calls := s.calls - {id})
  }

  function Move(s: State, id: nat, phase: Phase): State
    requires id in s.calls
  {
    s.(calls := s.calls[id := s.calls[id].(phase := phase)])
  }

  function Apply(cfg: Config, s: State, step: Step): State
    requires Enabled(cfg, s, step)
  {
    match step
    case Arrive(id, now) => Tick(s, now).(calls := s.calls[id := Call(now, Pruning)], latest := now)
    case Pass(to) => Tick(s, to)
    case Advance(id) =>
      var now := s.calls[id].now;
      match s.calls[id].phase
      case Pruning => Move(s, id, Counting).(key := RemoveRange(s.key, 0.0, now - cfg.window as real))
      case Counting =>
        if |s.key.scores| < cfg.limit then Move(s, id, Adding).(admitted := s.admitted + {now}) else Leave(s, id)
      case Adding => Move(s, id, Expiring).(key := Add(s.key, now))
      case Expiring => Leave(s, id).(key := Expire(s.key, cfg.window, s.clock))
  }

  predicate ValidRun(cfg: Config, steps: seq<Step>)
    decreases |steps|, 0
  {
    steps == [] ||
    (ValidRun(cfg, steps[..|steps| - 1]) && Enabled(cfg, Exec(cfg, steps[..|steps| - 1]), steps[|steps| - 1]))
  }

  function Exec(cfg: Config, steps: seq<Step>): State
    requires ValidRun(cfg, steps)
    decreases |steps|, 1
  {
    if steps == [] then START else Apply(cfg, Exec(cfg, steps[..|steps| - 1]), steps[|steps| - 1])
  }

  /** A call up to its prune, with nothing in between. */
  function Pruned(cfg: Config, s: State, id: nat, now: real): State
    requires Enabled(cfg, s, Arrive(id, now))
  {
    Apply(cfg, Apply(cfg, s, Arrive(id, now)), Advance(id))
  }

  lemma PrunedState(cfg: Config, s: State, id: nat, now: real)
    requires Enabled(cfg, s, Arrive(id, now))
    ensures var r := Pruned(cfg, s, id, now);
            && r.key == RemoveRange(Visible(s.key, now), 0.0, now - cfg.window as real)
            && r.calls == s.calls[id := Call(now, Counting)] && r.clock == r.latest == now && r.admitted == s.admitted
  {}

  /** Its count and its two writes, with nothing in between. */
  function Finished(cfg: Config, s: State, id: nat): State
    requires id in s.calls && s.calls[id].phase.Counting?
  {
    var counted := Apply(cfg, s, Advance(id));
    if id in counted.calls then Apply(cfg, Apply(cfg, counted, Advance(id)), Advance(id)) else counted
  }

  lemma FinishedState(cfg: Config, s: State, id: nat)
    requires id in s.calls && s.calls[id].phase.Counting?
    ensures var now, rest := s.calls[id].now, s.calls - {id};
            Finished(cfg, s, id) ==
              if |s.key.scores| < cfg.limit
              then State(Expire(Add(s.key, now), cfg.window, s.clock), rest, s.clock, s.latest, s.admitted + {now})
              else s.(calls := rest)
  {
    if |s.key.scores| < cfg.limit {
      var counted := Apply(cfg, s, Advance(id));
      var added := Apply(cfg, counted, Advance(id));
      assert added.calls - {id} == s.calls - {id};
    }
  }

  /** A call with nothing in between does what the sequential limiter does. */
  lemma LoneCallIsDecide(cfg: Config, s: State, id: nat, now: real)
    requires Enabled(cfg, s, Arrive(id, now))
    ensures id in Pruned(cfg, s, id, now).calls && Pruned(cfg, s, id, now).calls[id].phase.Counting?
    ensures var d, t := DecideRedis(s.key, cfg.limit, cfg.window, now), Finished(cfg, Pruned(cfg, s, id, now), id);
            && t.key == d.key && t.calls == s.calls && t.clock == t.latest == now
            && t.admitted == if d.verdict.allowed then s.admitted + {now} else s.admitted
  {
    var pruned := Pruned(cfg, s, id, now);
    PrunedState(cfg, s, id, now);
    FinishedState(cfg, pruned, id);
    assert pruned.calls - {id} == s.calls;
    DecideRedisJudges(s.key, pruned.key, cfg.limit, cfg.window, now);
  }

  // ----- What every run keeps -----

  ghost predicate ReadingsSound(s: State) {
    && 0.0 <= s.clock && s.latest <= s.clock
    && (forall x :: x in s.admitted ==> 0.0 <= x <= s.latest)
    && (forall x :: x in s.key.scores ==> x in s.admitted)
    && (forall i :: i in s.calls ==> 0.0 <= s.calls[i].now <= s.latest)
    && (forall i, j :: i in s.calls && j in s.calls && i != j ==> s.calls[i].now != s.calls[j].now)
    && (forall i :: i in s.calls ==>
          (s.calls[i].now in s.admitted <==> s.calls[i].phase.Adding? || s.calls[i].phase.Expiring?))
    && (forall i :: i in s.calls && s.calls[i].phase.Adding? ==> s.calls[i].now !in s.key.scores)
  }

  ghost predicate AwaitsExpire(s: State, x: real) {
    exists i :: i in s.calls && s.calls[i].phase.Expiring? && s.calls[i].now == x
  }

  /** The key lives as long as every member's window, except for members whose own EXPIRE is still to come. */
  ghost predicate LifeSound(cfg: Config, s: State) {
    && (s.key.expireAt.Some? ==> s.clock <= s.key.expireAt.value)
    && (s.key.scores == {} ==> s.key == ABSENT)
    && (forall x :: x in s.key.scores && s.key.expireAt.Some? ==>
          x + cfg.window as real <= s.key.expireAt.value || AwaitsExpire(s, x))
  }

  lemma ArriveKeepsReadings(cfg: Config, s: State, id: nat, now: real)
    requires ReadingsSound(s) && Enabled(cfg, s, Arrive(id, now))
    ensures ReadingsSound(Apply(cfg, s, Arrive(id, now)))
  {}

  lemma CountKeepsReadings(cfg: Config, s: State, id: nat)
    requires ReadingsSound(s) && id in s.calls && s.calls[id].phase.Counting?
    ensures ReadingsSound(Apply(cfg, s, Advance(id)))
  {}

  lemma CommandKeepsReadings(cfg: Config, s: State, id: nat)
    requires ReadingsSound(s) && id in s.calls && !s.calls[id].phase.Counting?
    ensures ReadingsSound(Apply(cfg, s, Advance(id)))
  {}

  /** With limit 1 a call is admitted only while the key is absent, so the next EXPIRE outlives every admission. */
  ghost predicate SingleLife(cfg: Config, s: State) {
    s.key.expireAt.Some? ==> forall x :: x in s.admitted ==> x + cfg.window as real <= s.key.expireAt.value
  }

  lemma StepKeepsSingleLife(cfg: Config, s: State, step: Step)
    requires cfg.limit == 1 && cfg.window >= 1 && ReadingsSound(s) && LifeSound(cfg, s) && SingleLife(cfg, s)
    requires Enabled(cfg, s, step)
    ensures SingleLife(cfg, Apply(cfg, s, step))
  {
    if step.Advance? && s.calls[step.id].phase.Counting? && |s.key.scores| < cfg.limit {
      assert s.key.scores == {};
    }
  }

  lemma StepKeepsReadings(cfg: Config, s: State, step: Step)
    requires ReadingsSound(s) && Enabled(cfg, s, step)
    ensures ReadingsSound(Apply(cfg, s, step))
  {
    match step
    case Arrive(id, now) => ArriveKeepsReadings(cfg, s, id, now);
    case Pass(_) =>
    case Advance(id) =>
      if s.calls[id].phase.Counting? {
        CountKeepsReadings(cfg, s, id);
      } else {
        CommandKeepsReadings(cfg, s, id);
      }
  }

  lemma StillAwaits(s: State, t: State, x: real)
    requires AwaitsExpire(s, x)
    requires forall i :: i in s.calls && s.calls[i].phase.Expiring? ==> i in t.calls && t.calls[i] == s.calls[i]
    ensures AwaitsExpire(t, x)
  {
    var i :| i in s.calls && s.calls[i].phase.Expiring? && s.calls[i].now == x;
    assert i in t.calls && t.calls[i].phase.Expiring? && t.calls[i].now == x;
  }

  lemma StepKeepsLife(cfg: Config, s: State, step: Step)
    requires ReadingsSound(s) && LifeSound(cfg, s) && Enabled(cfg, s, step)
    ensures LifeSound(cfg, Apply(cfg, s, step))
  {
    var t := Apply(cfg, s, step);
    if !(step.Advance? && s.calls[step.id].phase.Expiring?) {
      forall x | x in t.key.scores && t.key.expireAt.Some?
        ensures x + cfg.window as real <= t.key.expireAt.value || AwaitsExpire(t, x)
      {
        if x in s.key.scores {
          if AwaitsExpire(s, x) {
            StillAwaits(s, t, x);
          }
        } else {
          assert t.calls[step.id].phase.Expiring? && t.calls[step.id].now == x;
        }
      }
    }
  }

  /** Calls admitted by their count but not yet in the set. */
  function Adders(s: State): set<nat> {
    set id | id in s.calls && s.calls[id].phase.Adding?
  }

  lemma SubsetSize<T>(a: set<T>, b: set<T>)
    requires a <= b
    ensures |a| <= |b|
  {
    if a != {} {
      var x :| x in a;
      SubsetSize(a - {x}, b - {x});
    }
  }

  lemma AdvanceKeepsBound(cfg: Config, s: State, id: nat)
    requires cfg.limit >= 1 && id in s.calls && |s.calls| <= cfg.maxInFlight
    requires |s.key.scores| + |Adders(s)| <= cfg.limit + cfg.maxInFlight - 1
    ensures var t := Apply(cfg, s, Advance(id));
            |t.calls| <= cfg.maxInFlight && |t.key.scores| + |Adders(t)| <= cfg.limit + cfg.maxInFlight - 1
  {
    var t := Apply(cfg, s, Advance(id));
    SubsetSize(t.calls.Keys, s.calls.Keys);
    SubsetSize(Adders(t), t.calls.Keys);
    match s.calls[id].phase
    case Pruning =>
      SubsetSize(t.key.scores, s.key.scores);
      assert Adders(t) == Adders(s);
    case Counting =>
      if |s.key.scores| >= cfg.limit {
        assert Adders(t) == Adders(s);
      }
    case Adding =>
      assert Adders(t) == Adders(s) - {id};
    case Expiring =>
      SubsetSize(t.key.scores, s.key.scores);
      assert Adders(t) == Adders(s);
  }

  /** With at most c calls in flight, set size plus admitted-but-not-yet-added calls never exceeds limit + c - 1. */
  lemma {:induction false} OvershootBound(cfg: Config, steps: seq<Step>)
    requires cfg.limit >= 1 && cfg.maxInFlight >= 1 && ValidRun(cfg, steps)
    ensures var s := Exec(cfg, steps);
            |s.calls| <= cfg.maxInFlight && |s.key.scores| + |Adders(s)| <= cfg.limit + cfg.maxInFlight - 1
  {
    if steps == [] {
      assert Adders(START) == {};
    } else {
      var n := |steps| - 1;
      OvershootBound(cfg, steps[..n]);
      var s := Exec(cfg, steps[..n]);
      if steps[n].Advance? {
        AdvanceKeepsBound(cfg, s, steps[n].id);
      } else {
        assert Adders(Apply(cfg, s, steps[n])) == Adders(s);
        SubsetSize(Apply(cfg, s, steps[n]).key.scores, s.key.scores);
      }
    }
  }

  lemma {:induction false} RunIsSound(cfg: Config, steps: seq<Step>)
    requires ValidRun(cfg, steps)
    ensures ReadingsSound(Exec(cfg, steps)) && LifeSound(cfg, Exec(cfg, steps))
    ensures cfg.limit == 1 && cfg.window >= 1 ==> SingleLife(cfg, Exec(cfg, steps))
  {
    if steps != [] {
      var n := |steps| - 1;
      RunIsSound(cfg, steps[..n]);
      StepKeepsReadings(cfg, Exec(cfg, steps[..n]), steps[n]);
      StepKeepsLife(cfg, Exec(cfg, steps[..n]), steps[n]);
      if cfg.limit == 1 && cfg.window >= 1 {
        StepKeepsSingleLife(cfg, Exec(cfg, steps[..n]), steps[n]);
      }
    }
  }

  // ----- How many calls one window lets through -----

  /** The admitted readings in (t - window, t]. */
  function Window(cfg: Config, s: State, t: real): set<real> {
    set x | x in s.admitted && t - cfg.window as real < x <= t
  }

  ghost predicate IsAdding(s: State, x: real) {
    exists i :: i in s.calls && s.calls[i].phase.Adding? && s.calls[i].now == x
  }

  /** Those of them that are no longer in the set. */
  ghost function Lost(cfg: Config, s: State, t: real): set<real> {
    set x | x in Window(cfg, s, t) && x !in s.key.scores && !IsAdding(s, x)
  }

  /** Calls that may still be admitted to the window. */
  function Deciding(s: State, t: real): set<nat> {
    set i | i in s.calls && (s.calls[i].phase.Pruning? || s.calls[i].phase.Counting?) && s.calls[i].now <= t
  }

  function Readings(s: State, ids: set<nat>): set<real>
    requires ids <= s.calls.Keys
  {
    set i | i in ids :: s.calls[i].now
  }

  lemma ReadingsSize(s: State, ids: set<nat>)
    requires ids <= s.calls.Keys
    ensures |Readings(s, ids)| <= |ids|
  {
    if ids != {} {
      var i :| i in ids;
      ReadingsSize(s, ids - {i});
      assert Readings(s, ids) == Readings(s, ids - {i}) + {s.calls[i].now};
    }
  }

  lemma WindowSize(cfg: Config, s: State, t: real)
    ensures |Window(cfg, s, t)| <= |Lost(cfg, s, t)| + |s.key.scores| + |Adders(s)|
  {
    var lost, adding := Lost(cfg, s, t), Readings(s, Adders(s));
    ReadingsSize(s, Adders(s));
    forall x | x in Window(cfg, s, t)
      ensures x in lost + s.key.scores + adding
    {
      if IsAdding(s, x) {
        var i :| i in s.calls && s.calls[i].phase.Adding? && s.calls[i].now == x;
        assert i in Adders(s);
      }
    }
    SubsetSize(Window(cfg, s, t), lost + s.key.scores + adding);
  }

  /** What a step other than the passing of time takes out of the set. */
  lemma LostOnAdvance(cfg: Config, s: State, id: nat, t: real, x: real)
    requires ReadingsSound(s) && LifeSound(cfg, s) && id in s.calls && cfg.window >= 1
    requires x in Lost(cfg, Apply(cfg, s, Advance(id)), t)
    ensures x in Lost(cfg, s, t) || (s.calls[id].phase.Pruning? && s.calls[id].now > t)
  {
    if IsAdding(s, x) {
      AddingMovesOn(cfg, s, id, x);
      assert false;
    }
    if x !in s.admitted {
      NewlyAdmittedIsAdding(cfg, s, id, x);
      assert false;
    }
  }

  lemma AddingMovesOn(cfg: Config, s: State, id: nat, x: real)
    requires id in s.calls && IsAdding(s, x)
    ensures IsAdding(Apply(cfg, s, Advance(id)), x) || x in Apply(cfg, s, Advance(id)).key.scores
  {
    var after := Apply(cfg, s, Advance(id));
    var i :| i in s.calls && s.calls[i].phase.Adding? && s.calls[i].now == x;
    if i != id {
      assert i in after.calls && after.calls[i].phase.Adding? && after.calls[i].now == x;
    }
  }

  lemma NewlyAdmittedIsAdding(cfg: Config, s: State, id: nat, x: real)
    requires id in s.calls && x in Apply(cfg, s, Advance(id)).admitted && x !in s.admitted
    ensures IsAdding(Apply(cfg, s, Advance(id)), x)
  {
    var after := Apply(cfg, s, Advance(id));
    assert id in after.calls && after.calls[id].phase.Adding? && after.calls[id].now == x;
  }

  /** What the passing of time takes out of the set: members of calls that have not yet sent their EXPIRE, or everything
      once the window is over. */
  lemma LostOnTick(cfg: Config, s: State, to: real, t: real, x: real)
    requires LifeSound(cfg, s) && x in Lost(cfg, Tick(s, to), t)
    ensures x in Lost(cfg, s, t) ||
            (s.key.expireAt.Some? && to > s.key.expireAt.value && (to > t || AwaitsExpire(s, x)))
  {
    assert Tick(s, to).calls == s.calls && (IsAdding(s, x) <==> IsAdding(Tick(s, to), x));
  }

  lemma SameLost(cfg: Config, s: State, r: State, t: real)
    requires r.admitted == s.admitted && r.key == s.key
    requires forall i :: i in r.calls && r.calls[i].phase.Adding? <==> i in s.calls && s.calls[i].phase.Adding?
    requires forall i :: i in s.calls && s.calls[i].phase.Adding? ==> r.calls[i] == s.calls[i]
    ensures Lost(cfg, s, t) == Lost(cfg, r, t)
  {
    forall x
      ensures IsAdding(s, x) <==> IsAdding(r, x)
    {
      if IsAdding(s, x) {
        var i :| i in s.calls && s.calls[i].phase.Adding? && s.calls[i].now == x;
        assert i in r.calls && r.calls[i].phase.Adding?;
      }
      if IsAdding(r, x) {
        var i :| i in r.calls && r.calls[i].phase.Adding? && r.calls[i].now == x;
        assert i in s.calls && s.calls[i].phase.Adding?;
      }
    }
  }

  lemma AdmissionUsesUp(cfg: Config, s: State, id: nat, t: real)
    requires id in s.calls && s.calls[id].phase.Counting?
    ensures var r := Apply(cfg, s, Advance(id));
            |Window(cfg, r, t)| + |Deciding(r, t)| <= |Window(cfg, s, t)| + |Deciding(s, t)|
  {
    var r, now := Apply(cfg, s, Advance(id)), s.calls[id].now;
    if now <= t {
      assert Deciding(r, t) == Deciding(s, t) - {id};
      SubsetSize(Window(cfg, r, t), Window(cfg, s, t) + {now});
    } else {
      assert Deciding(r, t) == Deciding(s, t);
      assert Window(cfg, r, t) == Window(cfg, s, t);
    }
  }

  lemma NobodyEnters(cfg: Config, s: State, step: Step, t: real)
    requires Enabled(cfg, s, step) && s.clock > t && (step.Advance? ==> !s.calls[step.id].phase.Counting?)
    ensures Window(cfg, Apply(cfg, s, step), t) == Window(cfg, s, t)
    ensures Deciding(Apply(cfg, s, step), t) == Deciding(s, t)
  {
    var r := Apply(cfg, s, step);
    forall i | i in Deciding(r, t)
      ensures i in Deciding(s, t)
    {
      assert step.Arrive? ==> i != step.id;
    }
  }

  /** Once the window is over, nobody new can enter it: each admission uses up a call that could still decide. */
  lemma PotentialFalls(cfg: Config, s: State, step: Step, t: real)
    requires ReadingsSound(s) && Enabled(cfg, s, step) && s.clock > t
    ensures var r := Apply(cfg, s, step);
            |Window(cfg, r, t)| + |Deciding(r, t)| <= |Window(cfg, s, t)| + |Deciding(s, t)|
  {
    if step.Advance? && s.calls[step.id].phase.Counting? {
      AdmissionUsesUp(cfg, s, step.id, t);
    } else {
      NobodyEnters(cfg, s, step, t);
    }
  }

  /** How many admissions a window can lose to an expiry that comes while it is open. */
  function Losable(cfg: Config): nat {
    if cfg.limit == 1 then 0 else cfg.maxInFlight
  }

  /** The most a window lets through, whatever overlaps, stalls and expires. */
  function WorstCase(cfg: Config): int {
    if cfg.limit == 1 then 2 * cfg.maxInFlight else cfg.limit + 3 * cfg.maxInFlight - 1
  }

  ghost predicate Contained(cfg: Config, s: State, t: real) {
    if s.clock <= t then
      && |Lost(cfg, s, t)| <= Losable(cfg)
      && (Lost(cfg, s, t) != {} && s.key.expireAt.Some? ==> s.key.expireAt.value > t)
    else |Window(cfg, s, t)| + |Deciding(s, t)| <= WorstCase(cfg)
  }

  ghost predicate Bounded(cfg: Config, s: State) {
    |s.calls| <= cfg.maxInFlight && |s.key.scores| + |Adders(s)| <= cfg.limit + cfg.maxInFlight - 1
  }

  lemma ExpiringSize(cfg: Config, s: State, gone: set<real>)
    requires |s.calls| <= cfg.maxInFlight && forall x :: x in gone ==> AwaitsExpire(s, x)
    ensures |gone| <= cfg.maxInFlight
  {
    ReadingsSize(s, s.calls.Keys);
    forall x | x in gone
      ensures x in Readings(s, s.calls.Keys)
    {
      var i :| i in s.calls && s.calls[i].phase.Expiring? && s.calls[i].now == x;
    }
    SubsetSize(gone, Readings(s, s.calls.Keys));
  }

  lemma TickIsContained(cfg: Config, s: State, to: real, t: real)
    requires ReadingsSound(s) && LifeSound(cfg, s) && Bounded(cfg, s) && Contained(cfg, s, t) && s.clock <= to
    requires cfg.limit == 1 ==> SingleLife(cfg, s)
    ensures Contained(cfg, Tick(s, to), t)
  {
    var r := Tick(s, to);
    if to <= t {
      forall x | x in Lost(cfg, r, t)
        ensures x in Lost(cfg, s, t) || (s.key.expireAt.Some? && to > s.key.expireAt.value && AwaitsExpire(s, x))
      {
        LostOnTick(cfg, s, to, t, x);
      }
      if s.key.expireAt.Some? && to > s.key.expireAt.value {
        assert Lost(cfg, s, t) == {};
        if cfg.limit == 1 {
          assert Lost(cfg, r, t) == {};
        } else {
          ExpiringSize(cfg, s, Lost(cfg, r, t));
        }
      } else {
        SubsetSize(Lost(cfg, r, t), Lost(cfg, s, t));
      }
    } else if s.clock <= t {
      WindowSize(cfg, s, t);
      SubsetSize(Deciding(s, t), s.calls.Keys);
      assert Window(cfg, r, t) == Window(cfg, s, t) && Deciding(r, t) == Deciding(s, t);
    } else {
      assert Window(cfg, r, t) == Window(cfg, s, t) && Deciding(r, t) == Deciding(s, t);
    }
  }

  lemma AdvanceIsContained(cfg: Config, s: State, id: nat, t: real)
    requires ReadingsSound(s) && LifeSound(cfg, s) && id in s.calls && cfg.window >= 1 && Contained(cfg, s, t)
    ensures Contained(cfg, Apply(cfg, s, Advance(id)), t)
  {
    var r := Apply(cfg, s, Advance(id));
    if s.clock <= t {
      forall x | x in Lost(cfg, r, t)
        ensures x in Lost(cfg, s, t)
      {
        LostOnAdvance(cfg, s, id, t, x);
      }
      SubsetSize(Lost(cfg, r, t), Lost(cfg, s, t));
    } else {
      PotentialFalls(cfg, s, Advance(id), t);
    }
  }

  lemma ArriveIsContained(cfg: Config, s: State, id: nat, now: real, t: real)
    requires Enabled(cfg, s, Arrive(id, now)) && Contained(cfg, Tick(s, now), t)
    ensures Contained(cfg, Apply(cfg, s, Arrive(id, now)), t)
  {
    var ticked, r := Tick(s, now), Apply(cfg, s, Arrive(id, now));
    SameLost(cfg, ticked, r, t);
    assert now > t ==> Deciding(r, t) == Deciding(ticked, t);
    assert Window(cfg, r, t) == Window(cfg, ticked, t);
  }

  lemma {:induction false} RunIsContained(cfg: Config, steps: seq<Step>, t: real)
    requires cfg.limit >= 1 && cfg.maxInFlight >= 1 && cfg.window >= 1 && ValidRun(cfg, steps)
    ensures Contained(cfg, Exec(cfg, steps), t)
  {
    if steps == [] {
      assert Window(cfg, START, t) == {} && Deciding(START, t) == {} && Lost(cfg, START, t) == {};
    } else {
      var n := |steps| - 1;
      var s := Exec(cfg, steps[..n]);
      RunIsContained(cfg, steps[..n], t);
      RunIsSound(cfg, steps[..n]);
      OvershootBound(cfg, steps[..n]);
      match steps[n]
      case Arrive(id, now) =>
        TickIsContained(cfg, s, now, t);
        ArriveIsContained(cfg, s, id, now, t);
      case Pass(to) => TickIsContained(cfg, s, to, t);
      case Advance(id) => AdvanceIsContained(cfg, s, id, t);
    }
  }

  /** Whatever overlaps, stalls and expires: no interval (t - window, t] sees more than limit + 3c - 1 calls let
      through, and with limit 1 no more than 2c. */
  lemma WindowOvershoot(cfg: Config, steps: seq<Step>, t: real)
    requires cfg.limit >= 1 && cfg.maxInFlight >= 1 && ValidRun(cfg, steps)
    ensures |Window(cfg, Exec(cfg, steps), t)| <= WorstCase(cfg)
  {
    var s := Exec(cfg, steps);
    if cfg.window <= 0 {
      assert Window(cfg, s, t) == {};
    } else {
      RunIsContained(cfg, steps, t);
      OvershootBound(cfg, steps);
      if s.clock <= t {
        WindowSize(cfg, s, t);
      }
    }
  }

  // ----- While no key expires under a call -----

  predicate Expires(s: State, step: Step) {
    !step.Advance? && s.key.expireAt.Some? && (if step.Arrive? then step.now else step.to) > s.key.expireAt.value
  }

  /** The key expires only while no call is in flight. */
  predicate Undisturbed(cfg: Config, steps: seq<Step>)
    requires ValidRun(cfg, steps)
  {
    steps == [] ||
    (Undisturbed(cfg, steps[..|steps| - 1]) &&
     (Expires(Exec(cfg, steps[..|steps| - 1]), steps[|steps| - 1]) ==> Exec(cfg, steps[..|steps| - 1]).calls == map[]))
  }

  ghost predicate Settled(cfg: Config, s: State, t: real) {
    || Lost(cfg, s, t) == {}
    || (s.clock > t && |Window(cfg, s, t)| + |Deciding(s, t)| <= cfg.limit + 2 * (cfg.maxInFlight - 1))
  }

  lemma TickSettles(cfg: Config, s: State, to: real, t: real)
    requires ReadingsSound(s) && LifeSound(cfg, s) && Bounded(cfg, s) && Settled(cfg, s, t) && s.clock <= to
    requires cfg.maxInFlight >= 1
    requires s.key.expireAt.Some? && to > s.key.expireAt.value ==> s.calls == map[]
    ensures Settled(cfg, Tick(s, to), t)
  {
    var r := Tick(s, to);
    assert Window(cfg, r, t) == Window(cfg, s, t) && Deciding(r, t) == Deciding(s, t);
    if Lost(cfg, s, t) == {} {
      forall x | x in Lost(cfg, r, t)
        ensures s.calls == map[] && to > t
      {
        LostOnTick(cfg, s, to, t, x);
      }
      if Lost(cfg, r, t) != {} {
        var x :| x in Lost(cfg, r, t);
        WindowSize(cfg, s, t);
        assert Deciding(s, t) == {};
      }
    }
  }

  lemma AdvanceSettles(cfg: Config, s: State, id: nat, t: real)
    requires ReadingsSound(s) && LifeSound(cfg, s) && Bounded(cfg, s) && id in s.calls && cfg.window >= 1
    requires Settled(cfg, s, t)
    ensures Settled(cfg, Apply(cfg, s, Advance(id)), t)
  {
    var r := Apply(cfg, s, Advance(id));
    if Lost(cfg, s, t) != {} {
      PotentialFalls(cfg, s, Advance(id), t);
    } else if x :| x in Lost(cfg, r, t) {
      LostOnAdvance(cfg, s, id, t, x);
      WindowSize(cfg, s, t);
      SubsetSize(Deciding(s, t), s.calls.Keys - {id});
      PotentialFalls(cfg, s, Advance(id), t);
    }
  }

  lemma ArriveSettles(cfg: Config, s: State, id: nat, now: real, t: real)
    requires Enabled(cfg, s, Arrive(id, now)) && Settled(cfg, Tick(s, now), t)
    ensures Settled(cfg, Apply(cfg, s, Arrive(id, now)), t)
  {
    var ticked, r := Tick(s, now), Apply(cfg, s, Arrive(id, now));
    SameLost(cfg, ticked, r, t);
    assert now > t ==> Deciding(r, t) == Deciding(ticked, t);
    assert Window(cfg, r, t) == Window(cfg, ticked, t);
  }

  lemma {:induction false} RunSettles(cfg: Config, steps: seq<Step>, t: real)
    requires cfg.limit >= 1 && cfg.maxInFlight >= 1 && cfg.window >= 1
    requires ValidRun(cfg, steps) && Undisturbed(cfg, steps)
    ensures Settled(cfg, Exec(cfg, steps), t)
  {
    if steps == [] {
      assert Lost(cfg, START, t) == {};
    } else {
      var n := |steps| - 1;
      var s := Exec(cfg, steps[..n]);
      RunSettles(cfg, steps[..n], t);
      RunIsSound(cfg, steps[..n]);
      OvershootBound(cfg, steps[..n]);
      match steps[n]
      case Arrive(id, now) =>
        TickSettles(cfg, s, now, t);
        ArriveSettles(cfg, s, id, now, t);
      case Pass(to) => TickSettles(cfg, s, to, t);
      case Advance(id) => AdvanceSettles(cfg, s, id, t);
    }
  }

  /** As long as no key expires under a call in flight, no interval sees more than limit + 2 (c - 1) calls let through:
      sequential calls keep the limit. */
  lemma UndisturbedOvershoot(cfg: Config, steps: seq<Step>, t: real)
    requires cfg.limit >= 1 && cfg.maxInFlight >= 1 && ValidRun(cfg, steps) && Undisturbed(cfg, steps)
    ensures |Window(cfg, Exec(cfg, steps), t)| <= cfg.limit + 2 * (cfg.maxInFlight - 1)
  {
    var s := Exec(cfg, steps);
    if cfg.window <= 0 {
      assert Window(cfg, s, t) == {};
    } else {
      RunSettles(cfg, steps, t);
      OvershootBound(cfg, steps);
      WindowSize(cfg, s, t);
    }
  }
}
