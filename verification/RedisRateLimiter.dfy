/** The Redis-backed limiter: one sorted set per key, pruned, counted and extended by separate commands. */
module RedisRateLimiter {
  import opened Common
  import opened SlidingWindow

  /** A sorted set under one key. A member is the printed clock reading and its score is that reading, so a set of
      readings says it all. An empty sorted set is an absent key, without expiry. */
  datatype ZKey = ZKey(scores: set<real>, expireAt: Option<real>)

  const ABSENT := ZKey({}, None)

  /** The key as a command at time `now` sees it. */
  function Visible(z: ZKey, now: real): ZKey {
    if z.expireAt.Some? && now > z.expireAt.value then ABSENT else z
  }

  function Outside(scores: set<real>, low: real, high: real): set<real> {
    set x | x in scores && !(low <= x <= high)
  }

  /** ZREMRANGEBYSCORE: both ends are included; a set left empty is gone with its expiry. */
  function RemoveRange(z: ZKey, low: real, high: real): ZKey {
    var kept := Outside(z.scores, low, high);
    if kept == {} then ABSENT else ZKey(kept, z.expireAt)
  }

  function Add(z: ZKey, score: real): ZKey {
    ZKey(z.scores + {score}, z.expireAt)
  }

  /** EXPIRE: a lifetime that is not positive deletes the key. */
  function Expire(z: ZKey, seconds: int, now: real): ZKey {
    if z.scores == {} || seconds <= 0 then ABSENT else ZKey(z.scores, Some(now + seconds as real))
  }

  datatype RedisDecision = RedisDecision(key: ZKey, verdict: Verdict)

  /** One call whose commands all run at the instant `now`, with no other call between them. */
  function DecideRedis(z: ZKey, limit: int, window: int, now: real): RedisDecision {
    var kept := RemoveRange(Visible(z, now), 0.0, now - window as real);
    var v := Judge(|kept.scores|, limit, window, now);
    RedisDecision(if v.allowed then Expire(Add(kept, now), window, now) else kept, v)
  }

  lemma DecideRedisJudges(z: ZKey, kept: ZKey, limit: int, window: int, now: real)
    requires kept == RemoveRange(Visible(z, now), 0.0, now - window as real)
    ensures var d := DecideRedis(z, limit, window, now);
            && d.verdict == Judge(|kept.scores|, limit, window, now)
            && d.key == if d.verdict.allowed then Expire(Add(kept, now), window, now) else kept
  {}

  class RedisRateLimiter {
    var redis: map<string, ZKey>

    constructor ()
      ensures redis == map[]
    {
      redis := map[];
    }

    function Key(key: string): ZKey
      reads this
    {
      if key in redis then redis[key] else ABSENT
    }

    method ZRemRangeByScore(key: string, low: real, high: real, now: real)
      modifies this
      ensures redis == old(redis)[key := RemoveRange(Visible(old(Key(key)), now), low, high)]
    {
      redis := redis[key := RemoveRange(Visible(Key(key), now), low, high)];
    }

    method ZCard(key: string, now: real) returns (n: nat)
      ensures n == |Visible(Key(key), now).scores|
    {
      n := |Visible(Key(key), now).scores|;
    }

    method ZAdd(key: string, score: real, now: real)
      modifies this
      ensures redis == old(redis)[key := Add(Visible(old(Key(key)), now), score)]
    {
      redis := redis[key := Add(Visible(Key(key), now), score)];
    }

    method ExpireKey(key: string, seconds: int, now: real)
      modifies this
      ensures redis == old(redis)[key := Expire(Visible(old(Key(key)), now), seconds, now)]
    {
      redis := redis[key := Expire(Visible(Key(key), now), seconds, now)];
    }

    method IsAllowed(key: string, limit: int, window: int, now: real) returns (v: Verdict)
      modifies this
      ensures RedisDecision(Key("rate_limit:" + key), v) ==
                DecideRedis(old(Key("rate_limit:" + key)), limit, window, now)
      ensures forall k :: k != "rate_limit:" + key ==> Key(k) == old(Key(k))
      ensures v.allowed && window >= 1 ==>
                var z := Key("rate_limit:" + key); now in z.scores && z.expireAt == Some(now + window as real)
    {
      var redisKey := "rate_limit:" + key;
      ZRemRangeByScore(redisKey, 0.0, now - window as real, now);
      var currentCount := ZCard(redisKey, now);
      var allowed := currentCount < limit;
      var remaining := if allowed then Max(0, limit - currentCount - 1) else 0;
      if allowed {
        ZAdd(redisKey, now, now);
        ExpireKey(redisKey, window, now);
      }
      v := Verdict(allowed, remaining, Trunc(now + window as real));
    }
  }

  // ----- Refinement of the in-memory limiter -----

  datatype RedisTrace = RedisTrace(key: ZKey, verdicts: seq<Verdict>)

  function RunRedis(limit: int, window: int, calls: seq<real>): (t: RedisTrace)
    ensures |t.verdicts| == |calls|
  {
    if calls == [] then RedisTrace(ABSENT, []) else
      var n := |calls| - 1;
      var t := RunRedis(limit, window, calls[..n]);
      var d := DecideRedis(t.key, limit, window, calls[n]);
      RedisTrace(d.key, t.verdicts + [d.verdict])
  }

  /** Readings of a clock that counts from an epoch and moves between calls. */
  predicate Ticking(calls: seq<real>) {
    && (forall i :: 0 <= i < |calls| ==> 0.0 <= calls[i])
    && (forall i, j :: 0 <= i < j < |calls| ==> calls[i] < calls[j])
  }

  /** The log holds one admission for each reading in `scores`, and nothing else. */
  ghost predicate Represents(log: seq<Entry>, scores: set<real>) {
    if log == [] then scores == {} else
      var n := |log| - 1;
      log[n].count == 1 && log[n].ts in scores && Represents(log[..n], scores - {log[n].ts})
  }

  function Above(scores: set<real>, start: real): set<real> {
    set x | x in scores && x > start
  }

  lemma {:induction false} RepresentsCounts(log: seq<Entry>, scores: set<real>)
    requires Represents(log, scores)
    ensures Total(log) == |scores|
  {
    if log != [] {
      var n := |log| - 1;
      RepresentsCounts(log[..n], scores - {log[n].ts});
    }
  }

  lemma RepresentsAppend(log: seq<Entry>, scores: set<real>, now: real)
    requires Represents(log, scores) && now !in scores
    ensures Represents(log + [Entry(now, 1)], scores + {now})
  {
    assert (log + [Entry(now, 1)])[..|log|] == log;
    assert scores + {now} - {now} == scores;
  }

  lemma {:induction false} RepresentsPruned(log: seq<Entry>, scores: set<real>, start: real)
    requires Represents(log, scores)
    ensures Represents(Prune(log, start), Above(scores, start))
  {
    if log != [] {
      var n := |log| - 1;
      var ts, rest := log[n].ts, scores - {log[n].ts};
      RepresentsPruned(log[..n], rest, start);
      assert log[n] == Entry(ts, 1);
      if ts > start {
        RepresentsAppend(Prune(log[..n], start), Above(rest, start), ts);
        assert Above(scores, start) == Above(rest, start) + {ts};
      } else {
        assert Above(scores, start) == Above(rest, start);
      }
    }
  }

  /** The set holds what the next prune would leave of the log, and outlives every member's window. */
  ghost predicate Simulates(z: ZKey, log: seq<Entry>, window: int, now: real) {
    && Represents(Prune(log, now - window as real), z.scores)
    && (forall x :: x in z.scores ==> 0.0 <= x <= now)
    && Outlasts(z, window)
  }

  ghost predicate Outlasts(z: ZKey, window: int) {
    z.scores != {} ==> z.expireAt.Some? && forall x :: x in z.scores ==> x + window as real <= z.expireAt.value
  }

  /** Expiry never hides a member that the next prune would keep. */
  lemma ExpiryHidesOnlyStale(z: ZKey, window: int, now: real)
    requires Outlasts(z, window) && forall x :: x in z.scores ==> 0.0 <= x
    ensures var kept := RemoveRange(Visible(z, now), 0.0, now - window as real);
            kept.scores == Above(z.scores, now - window as real) && Outlasts(kept, window)
  {
    var start, seen := now - window as real, Visible(z, now).scores;
    assert seen == z.scores || Above(z.scores, start) == {};
    assert Outside(seen, 0.0, start) == Above(z.scores, start);
  }

  lemma AdmitRefines(zkept: ZKey, kept: seq<Entry>, window: int, now: real)
    requires Represents(kept, zkept.scores) && Prune(kept, now - window as real) == kept
    requires forall x :: x in zkept.scores ==> 0.0 <= x < now && x > now - window as real
    requires 0.0 <= now
    ensures Simulates(Expire(Add(zkept, now), window, now), kept + [Entry(now, 1)], window, now)
  {
    PruneAppend(kept, Entry(now, 1), now - window as real);
    RepresentsAppend(kept, zkept.scores, now);
    if window <= 0 {
      assert zkept.scores == {};
      assert kept == [];
      assert Prune(kept + [Entry(now, 1)], now - window as real) == [];
    }
  }

  lemma PrunedAgainRepresents(log: seq<Entry>, scores: set<real>, early: real, late: real)
    requires Represents(Prune(log, early), scores) && early <= late
    ensures Represents(Prune(log, late), Above(scores, late)) && Prune(Prune(log, late), late) == Prune(log, late)
  {
    RepresentsPruned(Prune(log, early), scores, late);
    PruneAgain(log, early, late);
    PruneAgain(log, late, late);
  }

  /** After both prunes the log and the set hold the same readings again. */
  lemma PruneRefines(z: ZKey, log: seq<Entry>, window: int, before: real, now: real)
    requires Simulates(z, log, window, before) && before <= now
    ensures var kept := Prune(log, now - window as real);
            var zkept := RemoveRange(Visible(z, now), 0.0, now - window as real);
            && Represents(kept, zkept.scores) && Prune(kept, now - window as real) == kept
            && zkept.scores == Above(z.scores, now - window as real) && Outlasts(zkept, window)
  {
    assert Outlasts(z, window) && forall x :: x in z.scores ==> 0.0 <= x;
    ExpiryHidesOnlyStale(z, window, now);
    PrunedAgainRepresents(log, z.scores, before - window as real, now - window as real);
  }

  /** A reading that is in the set already adds nothing to it, while the log takes it twice. */
  lemma RepeatDiverges(z: ZKey, kept: seq<Entry>, window: int, now: real)
    requires Represents(kept, z.scores) && Prune(kept, now - window as real) == kept && now in z.scores && window >= 1
    ensures !Simulates(Expire(Add(z, now), window, now), kept + [Entry(now, 1)], window, now)
  {
    var log, after := kept + [Entry(now, 1)], Expire(Add(z, now), window, now);
    PruneAppend(kept, Entry(now, 1), now - window as real);
    assert after.scores == z.scores;
    RepresentsCounts(kept, z.scores);
    if Represents(Prune(log, now - window as real), after.scores) {
      RepresentsCounts(log, after.scores);
      assert false;
    }
  }

  lemma DecideJudges(log: seq<Entry>, kept: seq<Entry>, limit: int, window: int, now: real)
    requires kept == Prune(log, now - window as real)
    ensures var d := Decide(log, limit, window, now);
            && d.verdict == Judge(Total(kept), limit, window, now)
            && d.log == if d.verdict.allowed then kept + [Entry(now, 1)] else kept
  {}

  lemma KeptSimulates(z: ZKey, kept: seq<Entry>, window: int, now: real)
    requires Represents(kept, z.scores) && Prune(kept, now - window as real) == kept && Outlasts(z, window)
    requires forall x :: x in z.scores ==> 0.0 <= x <= now
    ensures Simulates(z, kept, window, now)
  {}

  /** One call answers alike on both sides, and they stay alike exactly unless the call is let through with a reading
      that the set holds already. */
  lemma StepRefines(z: ZKey, log: seq<Entry>, limit: int, window: int, before: real, now: real)
    requires Simulates(z, log, window, before) && before <= now && 0.0 <= now
    ensures DecideRedis(z, limit, window, now).verdict == Decide(log, limit, window, now).verdict
    ensures Simulates(DecideRedis(z, limit, window, now).key, Decide(log, limit, window, now).log, window, now) <==>
              !(DecideRedis(z, limit, window, now).verdict.allowed && now in z.scores && window >= 1)
  {
    var kept, zkept := Prune(log, now - window as real), RemoveRange(Visible(z, now), 0.0, now - window as real);
    PruneRefines(z, log, window, before, now);
    RepresentsCounts(kept, zkept.scores);
    DecideJudges(log, kept, limit, window, now);
    DecideRedisJudges(z, zkept, limit, window, now);
    if |zkept.scores| >= limit {
      KeptSimulates(zkept, kept, window, now);
    } else if now in zkept.scores {
      RepeatDiverges(zkept, kept, window, now);
    } else {
      AdmitRefines(zkept, kept, window, now);
    }
  }

  predicate NonDecreasing(calls: seq<real>) {
    && (forall i :: 0 <= i < |calls| ==> 0.0 <= calls[i])
    && (forall i, j :: 0 <= i < j < |calls| ==> calls[i] <= calls[j])
  }

  function LastOf(calls: seq<real>): real {
    if calls == [] then 0.0 else calls[|calls| - 1]
  }

  /** The set represents the log after every call of the run. */
  ghost predicate AlikeThroughout(limit: int, window: int, calls: seq<real>) {
    && Simulates(RunRedis(limit, window, calls).key, Run(limit, window, calls).log, window, LastOf(calls))
    && (calls == [] || AlikeThroughout(limit, window, calls[..|calls| - 1]))
  }

  /** Two calls with one reading are both let through. */
  predicate AdmitsTwin(calls: seq<real>, verdicts: seq<Verdict>)
    requires |calls| == |verdicts|
  {
    exists i, j :: 0 <= i < j < |calls| && calls[i] == calls[j] && verdicts[i].allowed && verdicts[j].allowed
  }

  predicate AdmittedAt(calls: seq<real>, verdicts: seq<Verdict>, now: real)
    requires |calls| == |verdicts|
  {
    exists i :: 0 <= i < |calls| && calls[i] == now && verdicts[i].allowed
  }

  lemma TwinAppend(calls: seq<real>, verdicts: seq<Verdict>, now: real, v: Verdict)
    requires |calls| == |verdicts|
    ensures AdmitsTwin(calls + [now], verdicts + [v]) <==>
              AdmitsTwin(calls, verdicts) || (v.allowed && AdmittedAt(calls, verdicts, now))
  {
    var n, more, answers := |calls|, calls + [now], verdicts + [v];
    if AdmitsTwin(calls, verdicts) {
      var i, j :| 0 <= i < j < n && calls[i] == calls[j] && verdicts[i].allowed && verdicts[j].allowed;
      assert more[i] == more[j] && answers[i].allowed && answers[j].allowed;
    }
    if v.allowed && AdmittedAt(calls, verdicts, now) {
      var i :| 0 <= i < n && calls[i] == now && verdicts[i].allowed;
      assert more[i] == more[n] && answers[i].allowed && answers[n].allowed;
    }
  }

  lemma AdmittedAtAppend(calls: seq<real>, verdicts: seq<Verdict>, now: real, v: Verdict, at: real)
    requires |calls| == |verdicts|
    ensures AdmittedAt(calls + [now], verdicts + [v], at) <==>
              AdmittedAt(calls, verdicts, at) || (now == at && v.allowed)
  {
    var n, more, answers := |calls|, calls + [now], verdicts + [v];
    if AdmittedAt(calls, verdicts, at) {
      var i :| 0 <= i < n && calls[i] == at && verdicts[i].allowed;
      assert more[i] == at && answers[i].allowed;
    }
    assert more[n] == now && answers[n] == v;
  }

  lemma StepHolds(z: ZKey, limit: int, window: int, before: real, now: real)
    requires window >= 1 && before <= now && 0.0 <= now && Outlasts(z, window)
    requires forall x :: x in z.scores ==> 0.0 <= x <= before
    ensures var d := DecideRedis(z, limit, window, now);
            && Outlasts(d.key, window) && (forall x :: x in d.key.scores ==> 0.0 <= x <= now)
            && (now in d.key.scores <==> d.verdict.allowed || now in z.scores)
  {
    ExpiryHidesOnlyStale(z, window, now);
  }

  /** After any run the set holds the latest reading exactly if some call with that reading was let through. */
  lemma {:induction false} SetHoldsAdmitted(limit: int, window: int, calls: seq<real>, next: real)
    requires NonDecreasing(calls) && window >= 1 && LastOf(calls) <= next
    ensures var t := RunRedis(limit, window, calls);
            && Outlasts(t.key, window) && (forall x :: x in t.key.scores ==> 0.0 <= x <= LastOf(calls))
            && (next in t.key.scores <==> AdmittedAt(calls, t.verdicts, next))
  {
    if calls != [] {
      var n := |calls| - 1;
      var t := RunRedis(limit, window, calls[..n]);
      SetHoldsAdmitted(limit, window, calls[..n], calls[n]);
      StepHolds(t.key, limit, window, LastOf(calls[..n]), calls[n]);
      var d := DecideRedis(t.key, limit, window, calls[n]);
      assert calls == calls[..n] + [calls[n]];
      AdmittedAtAppend(calls[..n], t.verdicts, calls[n], d.verdict, next);
      if next > calls[n] {
        assert !AdmittedAt(calls[..n], t.verdicts, next);
      }
    }
  }

  /** For sequential calls with readings that never go back, both backends answer alike as long as they are alike, and
      they are alike throughout exactly when no two calls with one reading are let through (or the window is empty). */
  lemma {:induction false} AlikeIffNoTwin(limit: int, window: int, calls: seq<real>)
    requires NonDecreasing(calls)
    ensures AlikeThroughout(limit, window, calls) ==>
              RunRedis(limit, window, calls).verdicts == Run(limit, window, calls).verdicts
    ensures AlikeThroughout(limit, window, calls) <==>
              window <= 0 || !AdmitsTwin(calls, Run(limit, window, calls).verdicts)
  {
    if calls != [] {
      var n := |calls| - 1;
      var now, z, t := calls[n], RunRedis(limit, window, calls[..n]), Run(limit, window, calls[..n]);
      assert calls == calls[..n] + [now];
      AlikeIffNoTwin(limit, window, calls[..n]);
      TwinAppend(calls[..n], t.verdicts, now, Decide(t.log, limit, window, now).verdict);
      if AlikeThroughout(limit, window, calls[..n]) {
        if window >= 1 {
          SetHoldsAdmitted(limit, window, calls[..n], now);
        }
        StepRefines(z.key, t.log, limit, window, LastOf(calls[..n]), now);
      }
    }
  }

  // ----- What a client sees of it -----

  predicate AnswersAlike(z: ZKey, log: seq<Entry>, limit: int, window: int, at: real) {
    DecideRedis(z, limit, window, at).verdict == Decide(log, limit, window, at).verdict
  }

  lemma JudgesDiffer(count: int, limit: int, window: int, at: real)
    requires count < limit
    ensures Judge(count, limit, window, at) != Judge(count + 1, limit, window, at)
  {}

  /** A second admission with one reading shows in the very next answer, as long as that reading is in its window, and
      no longer. */
  lemma TwinShows(z: ZKey, kept: seq<Entry>, limit: int, window: int, now: real, at: real)
    requires Represents(kept, z.scores) && now in z.scores && |z.scores| < limit && window >= 1 && now <= at
    requires forall x :: x in z.scores ==> 0.0 <= x <= now
    ensures AnswersAlike(Expire(Add(z, now), window, now), kept + [Entry(now, 1)], limit, window, at) <==>
              at >= now + window as real
  {
    var after, log, start := Expire(Add(z, now), window, now), kept + [Entry(now, 1)], at - window as real;
    assert after.scores == z.scores;
    var zkept := RemoveRange(Visible(after, at), 0.0, start);
    ExpiryHidesOnlyStale(after, window, at);
    RepresentsPruned(kept, z.scores, start);
    RepresentsCounts(Prune(kept, start), zkept.scores);
    AboveSize(z.scores, start);
    PruneAppend(kept, Entry(now, 1), start);
    PruneAppend(Prune(kept, start), Entry(now, 1), start);
    assert Prune(kept, start) + [] == Prune(kept, start);
    DecideJudges(log, Prune(log, start), limit, window, at);
    DecideRedisJudges(after, zkept, limit, window, at);
    JudgesDiffer(|zkept.scores|, limit, window, at);
  }

  lemma AboveSize(scores: set<real>, start: real)
    ensures |Above(scores, start)| <= |scores|
  {
    var rest := scores - Above(scores, start);
    assert scores == Above(scores, start) + rest;
  }

  /** After every call of the run, whenever the next one comes, both backends answer it alike. */
  ghost predicate AnswersAlikeThroughout(limit: int, window: int, calls: seq<real>) {
    && (forall at :: LastOf(calls) <= at ==>
          AnswersAlike(RunRedis(limit, window, calls).key, Run(limit, window, calls).log, limit, window, at))
    && (calls == [] || AnswersAlikeThroughout(limit, window, calls[..|calls| - 1]))
  }

  lemma AlikeAnswersAlike(z: ZKey, log: seq<Entry>, limit: int, window: int, now: real)
    requires Simulates(z, log, window, now) && 0.0 <= now
    ensures forall at :: now <= at ==> AnswersAlike(z, log, limit, window, at)
  {
    forall at | now <= at
      ensures AnswersAlike(z, log, limit, window, at)
    {
      StepRefines(z, log, limit, window, now, at);
    }
  }

  /** A call that leaves the set behind the log is answered alike itself, and the next one is not. */
  lemma DivergenceShows(z: ZKey, log: seq<Entry>, limit: int, window: int, before: real, now: real)
    requires Simulates(z, log, window, before) && before <= now && 0.0 <= now
    requires DecideRedis(z, limit, window, now).verdict.allowed && now in z.scores && window >= 1
    ensures !AnswersAlike(
                DecideRedis(z, limit, window, now).key, Decide(log, limit, window, now).log, limit, window, now)
  {
    var kept, zkept := Prune(log, now - window as real), RemoveRange(Visible(z, now), 0.0, now - window as real);
    PruneRefines(z, log, window, before, now);
    RepresentsCounts(kept, zkept.scores);
    DecideJudges(log, kept, limit, window, now);
    DecideRedisJudges(z, zkept, limit, window, now);
    TwinShows(zkept, kept, limit, window, now, now);
  }

  lemma {:induction false} AlikeIffAnswersAlike(limit: int, window: int, calls: seq<real>)
    requires NonDecreasing(calls)
    ensures AlikeThroughout(limit, window, calls) <==> AnswersAlikeThroughout(limit, window, calls)
  {
    var last, z, log := LastOf(calls), RunRedis(limit, window, calls).key, Run(limit, window, calls).log;
    if Simulates(z, log, window, last) {
      AlikeAnswersAlike(z, log, limit, window, last);
    }
    if calls != [] {
      var n := |calls| - 1;
      var zn, logn := RunRedis(limit, window, calls[..n]).key, Run(limit, window, calls[..n]).log;
      AlikeIffAnswersAlike(limit, window, calls[..n]);
      if AlikeThroughout(limit, window, calls[..n]) && !Simulates(z, log, window, last) {
        StepRefines(zn, logn, limit, window, LastOf(calls[..n]), last);
        DivergenceShows(zn, logn, limit, window, LastOf(calls[..n]), last);
      }
    }
  }

  /** For sequential calls with readings that never go back, both backends answer alike, every call of the run and any
      call that could come after each of them, exactly when no two calls with one reading are let through (or the
      window is empty). */
  lemma AnswersAlikeIffNoTwin(limit: int, window: int, calls: seq<real>)
    requires NonDecreasing(calls)
    ensures AnswersAlikeThroughout(limit, window, calls) <==>
              window <= 0 || !AdmitsTwin(calls, Run(limit, window, calls).verdicts)
  {
    AlikeIffNoTwin(limit, window, calls);
    AlikeIffAnswersAlike(limit, window, calls);
  }

  /** For sequential calls at distinct readings, both backends answer alike over every run, whatever the window. */
  lemma {:induction false} RedisRefinesMemory(limit: int, window: int, calls: seq<real>)
    requires Ticking(calls)
    ensures RunRedis(limit, window, calls).verdicts == Run(limit, window, calls).verdicts
    ensures Simulates(RunRedis(limit, window, calls).key, Run(limit, window, calls).log, window,
                      if calls == [] then -1.0 else calls[|calls| - 1])
  {
    if calls != [] {
      var n := |calls| - 1;
      RedisRefinesMemory(limit, window, calls[..n]);
      StepRefines(RunRedis(limit, window, calls[..n]).key, Run(limit, window, calls[..n]).log, limit, window,
                  if n == 0 then -1.0 else calls[n - 1], calls[n]);
    }
  }

  /** Equal readings share one member, so they count once: here Redis lets a third call in where memory does not. */
  lemma EqualReadingsCollapse()
    ensures RunRedis(2, 60, [1.0, 1.0, 1.0]).verdicts[2].allowed
    ensures !Run(2, 60, [1.0, 1.0, 1.0]).verdicts[2].allowed
  {
    var e, one := Entry(1.0, 1), ZKey({1.0}, Some(61.0));
    assert [1.0, 1.0, 1.0][..2] == [1.0, 1.0] && [1.0, 1.0][..1] == [1.0];
    assert Outside(one.scores, 0.0, -59.0) == one.scores;
    assert DecideRedis(ABSENT, 2, 60, 1.0).key == one && DecideRedis(one, 2, 60, 1.0).key == one;
    PruneAppend([], e, -59.0);
    PruneAppend([e], e, -59.0);
    assert [] + [e] == [e] && [e] + [e] == [e, e];
    assert Decide([], 2, 60, 1.0).log == [e] && Decide([e], 2, 60, 1.0).log == [e, e];
    assert !Decide([e, e], 2, 60, 1.0).verdict.allowed;
  }
}
