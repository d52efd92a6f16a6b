/** Searches, index writes, index refreshes and SCAN invalidations interleaved at every await. */
module CacheCoherence {
  import opened MovieEvents

  /** A cached answer, with the index version it was read from and the moment it was stored. */
  datatype Entry = Entry(result: Response, version: nat, storedAt: nat)

  /** A search after its cache miss, or after a cache read that failed. */
  datatype Search = Missed(query: string) | HasRead(query: string, version: nat, result: Response)

  /** A write whose invalidation is pending; one that fails half-way stays so for good. While scanning, `due` are the
      keys present without a break since the scan began and not yet returned, which SCAN must still return; `batch`
      was returned and awaits its DEL. */
  datatype Writer = Written | Scanning(due: set<string>, batch: set<string>, last: bool)

  type History = h: seq<Index> | h != [] witness [map[]]

  /** `history[v]` is the index after v writes; searches see the first `visible` of them, for a write shows only once
      the index refreshes. `scanStart[w]` is when the invalidation of write w began. */
  datatype State = State(
    history: History, visible: nat, cache: map<string, Entry>, searches: map<nat, Search>,
    writers: map<nat, Writer>, scanStart: map<nat, nat>, clock: nat)
  {
    function Version(): int { |history| - 1 }
  }

  datatype Step =
    | Miss(search: nat, query: string)
    | ReadIndex(search: nat)
    | Store(search: nat)
    | GiveUp(search: nat)
    | Expire(key: string)
    | Write(index: Index)
    | Refresh(upTo: nat)
    | BeginScan(write: nat)
    | ScanReply(write: nat, keys: set<string>, isLast: bool)
    | DeleteBatch(write: nat)

  const START := State([map[]], 0, map[], map[], map[], map[], 0)

  predicate ScansFreely(s: State, w: nat) {
    w in s.writers && s.writers[w].Scanning? && !s.writers[w].last && s.writers[w].batch == {}
  }

  predicate Enabled(s: State, step: Step) {
    match step
    case Miss(c, q) => c !in s.searches
    case ReadIndex(c) => c in s.searches && s.searches[c].Missed? && s.visible < |s.history|
    case Store(c) => c in s.searches && s.searches[c].HasRead? && !s.searches[c].result.dated
    case GiveUp(c) => c in s.searches
    case Expire(k) => k in s.cache
    case Write(_) => true
    case Refresh(upTo) => s.visible <= upTo < |s.history|
    case BeginScan(w) => w in s.writers && s.writers[w].Written?
    case ScanReply(w, keys, isLast) =>
      ScansFreely(s, w) && keys <= s.cache.Keys && (isLast ==> s.writers[w].due <= keys)
    case DeleteBatch(w) => w in s.writers && s.writers[w].Scanning? && (s.writers[w].batch != {} || s.writers[w].last)
  }

  /** Keys that vanish are no longer owed to any scan. */
  function Forget(writers: map<nat, Writer>, gone: set<string>): map<nat, Writer> {
    map w | w in writers ::
      match writers[w]
      case Written => Written
      case Scanning(due, batch, last) => Scanning(due - gone, batch, last)
  }

  function Apply(eval: Eval, s: State, step: Step): State
    requires Enabled(s, step)
  {
    match step
    case Miss(c, q) => s.(searches := s.searches[c := Missed(q)])
    case ReadIndex(c) =>
      var q := s.searches[c].query;
      s.(searches := s.searches[c := HasRead(q, s.visible, eval(q, s.history[s.visible]))])
    case Store(c) =>
      var HasRead(q, version, result) := s.searches[c];
      s.(cache := s.cache[q := Entry(result, version, s.clock)], searches := s.searches - {c}, clock := s.clock + 1)
    case GiveUp(c) => s.(searches := s.searches - {c})
    case Expire(k) => s.(cache := s.cache - {k}, writers := Forget(s.writers, {k}))
    case Write(index) => s.(history := s.history + [index], writers := s.writers[|s.history| := Written])
    case Refresh(upTo) => s.(visible := upTo)
    case BeginScan(w) =>
      s.(writers := s.writers[w := Scanning(s.cache.Keys, {}, false)], scanStart := s.scanStart[w := s.clock],
         clock := s.clock + 1)
    case ScanReply(w, keys, isLast) =>
      s.(writers := s.writers[w := Scanning(s.writers[w].due - keys, keys, isLast)])
    case DeleteBatch(w) =>
      var Scanning(due, batch, last) := s.writers[w];
      var others := Forget(s.writers, batch);
      s.(cache := s.cache - batch,
         writers := if last then others - {w} else others[w := Scanning(due - batch, {}, false)])
  }

  // ----- A call with nothing in between -----

  function Searched(eval: Eval, s: State, c: nat, q: string): State
    requires c !in s.searches && s.visible < |s.history|
  {
    Apply(eval, Apply(eval, s, Miss(c, q)), ReadIndex(c))
  }

  /** A search that misses stores what the index shows, unless it shows a date, and is over. */
  lemma LoneSearchFills(eval: Eval, s: State, c: nat, q: string)
    requires c !in s.searches && s.visible < |s.history|
    ensures var result, read := eval(q, s.history[s.visible]), Searched(eval, s, c, q);
            && Enabled(read, GiveUp(c)) && Apply(eval, read, GiveUp(c)) == s
            && (Enabled(read, Store(c)) <==> !result.dated)
            && (!result.dated ==>
                  Apply(eval, read, Store(c)) ==
                    s.(cache := s.cache[q := Entry(result, s.visible, s.clock)], clock := s.clock + 1))
  {
    assert Searched(eval, s, c, q).searches - {c} == s.searches;
  }

  /** A write whose invalidation finds every cached search leaves none, and nothing pending of its own. */
  lemma LoneSweepEmpties(eval: Eval, s: State, index: Index)
    requires |s.history| !in s.writers && |s.history| !in s.scanStart && s.visible < |s.history|
    ensures var w := |s.history|;
            var begun := Apply(eval, Apply(eval, s, Write(index)), BeginScan(w));
            && Enabled(begun, ScanReply(w, s.cache.Keys, true))
            && var swept := Apply(eval, Apply(eval, begun, ScanReply(w, s.cache.Keys, true)), DeleteBatch(w));
               swept.cache == map[] && swept.writers.Keys == s.writers.Keys && swept.history == s.history + [index]
  {}

  predicate ValidRun(eval: Eval, steps: seq<Step>)
    decreases |steps|, 0
  {
    steps == [] ||
    (ValidRun(eval, steps[..|steps| - 1]) && Enabled(Exec(eval, steps[..|steps| - 1]), steps[|steps| - 1]))
  }

  function Exec(eval: Eval, steps: seq<Step>): State
    requires ValidRun(eval, steps)
    decreases |steps|, 1
  {
    if steps == [] then START else Apply(eval, Exec(eval, steps[..|steps| - 1]), steps[|steps| - 1])
  }

  // ----- Invariants -----

  predicate Known(s: State, version: nat) {
    version <= s.visible < |s.history|
  }

  /** Answers are what evaluation gave at the version they were read from, which searches have seen. */
  ghost predicate Genuine(eval: Eval, s: State) {
    && s.visible < |s.history|
    && (forall q :: q in s.cache ==>
          Known(s, s.cache[q].version) && s.cache[q].result == eval(q, s.history[s.cache[q].version]))
    && (forall c :: c in s.searches && s.searches[c].HasRead? ==>
          Known(s, s.searches[c].version) &&
          s.searches[c].result == eval(s.searches[c].query, s.history[s.searches[c].version]))
  }

  /** Every write is waiting to scan, scanning, or done scanning; and clocks only point to the past. */
  ghost predicate Tracked(s: State) {
    && (forall w :: w in s.writers ==> 1 <= w < |s.history| && (s.writers[w].Scanning? <==> w in s.scanStart))
    && (forall w :: 1 <= w < |s.history| ==> w in s.writers || w in s.scanStart)
    && (forall w :: w in s.scanStart ==> 1 <= w < |s.history| && s.scanStart[w] < s.clock)
    && (forall q :: q in s.cache ==> s.cache[q].storedAt < s.clock)
  }

  /** The key was there when the scan of `w` began. */
  predicate Older(s: State, q: string, w: nat)
    requires q in s.cache && w in s.scanStart
  {
    s.cache[q].storedAt < s.scanStart[w]
  }

  /** A scan still owes every key that was there when it began; a finished scan has left none of them. */
  ghost predicate Swept(s: State) {
    forall q, w :: q in s.cache && w in s.scanStart && Older(s, q, w) ==>
      w in s.writers && s.writers[w].Scanning? && (q in s.writers[w].due || q in s.writers[w].batch)
  }

  lemma StepKeepsGenuine(eval: Eval, s: State, step: Step)
    requires Enabled(s, step) && Genuine(eval, s)
    ensures Genuine(eval, Apply(eval, s, step))
  {}

  lemma StepKeepsTracked(eval: Eval, s: State, step: Step)
    requires Enabled(s, step) && Tracked(s)
    ensures Tracked(Apply(eval, s, step))
  {
    var s' := Apply(eval, s, step);
    if step.Write? {
      assert forall w :: 1 <= w < |s'.history| ==> w in s'.writers || w in s'.scanStart;
    }
  }

  lemma DeleteKeepsSwept(eval: Eval, s: State, w: nat)
    requires Enabled(s, DeleteBatch(w)) && Tracked(s) && Swept(s)
    requires s.writers[w].last ==> s.writers[w].due == {}
    ensures Swept(Apply(eval, s, DeleteBatch(w)))
  {
    var s' := Apply(eval, s, DeleteBatch(w));
    forall q, v | q in s'.cache && v in s'.scanStart && Older(s', q, v)
      ensures v in s'.writers && s'.writers[v].Scanning? && (q in s'.writers[v].due || q in s'.writers[v].batch)
    {
      assert Older(s, q, v);
    }
  }

  /** A scan that returned its last batch owes nothing more. */
  ghost predicate LastOwesNothing(s: State) {
    forall w :: w in s.writers && s.writers[w].Scanning? && s.writers[w].last ==> s.writers[w].due == {}
  }

  lemma StepKeepsSwept(eval: Eval, s: State, step: Step)
    requires Enabled(s, step) && Tracked(s) && Swept(s) && LastOwesNothing(s)
    ensures Swept(Apply(eval, s, step)) && LastOwesNothing(Apply(eval, s, step))
  {
    var s' := Apply(eval, s, step);
    match step
    case DeleteBatch(w) => DeleteKeepsSwept(eval, s, w);
    case _ =>
      forall q, v | q in s'.cache && v in s'.scanStart && Older(s', q, v)
        ensures v in s'.writers && s'.writers[v].Scanning? && (q in s'.writers[v].due || q in s'.writers[v].batch)
      {
        if q in s.cache && v in s.scanStart && s'.cache[q] == s.cache[q] {
          assert s'.scanStart[v] == s.scanStart[v] ==> Older(s, q, v);
        }
      }
  }

  lemma {:induction false} Invariant(eval: Eval, steps: seq<Step>)
    requires ValidRun(eval, steps)
    ensures var s := Exec(eval, steps); Genuine(eval, s) && Tracked(s) && Swept(s) && LastOwesNothing(s)
  {
    if steps != [] {
      var n := |steps| - 1;
      Invariant(eval, steps[..n]);
      StepKeepsGenuine(eval, Exec(eval, steps[..n]), steps[n]);
      StepKeepsTracked(eval, Exec(eval, steps[..n]), steps[n]);
      StepKeepsSwept(eval, Exec(eval, steps[..n]), steps[n]);
    }
  }

  /** The invalidation of write w is not over, or it had begun when the entry was stored. */
  predicate Excused(s: State, q: string, w: nat)
    requires q in s.cache
  {
    w in s.writers || (w in s.scanStart && s.cache[q].storedAt >= s.scanStart[w])
  }

  lemma ReadBeforeIsExcused(s: State, q: string, w: nat)
    requires Tracked(s) && Swept(s) && q in s.cache && 1 <= w < |s.history|
    ensures Excused(s, q, w)
  {
    if w !in s.writers {
      assert !Older(s, q, w);
    }
  }

  /** One that differs from the answer at a version that searches may see was read at an earlier one. */
  lemma StaleWasReadBefore(eval: Eval, s: State, q: string, now: nat)
    requires Genuine(eval, s) && q in s.cache && s.visible <= now < |s.history|
    requires s.cache[q].result != eval(q, s.history[now])
    ensures s.cache[q].version < now
  {}

  /** A cached answer that differs from what an uncached search answers, or from the answer after any write up to the
      last, was read before some write was visible, and for each such write either the invalidation is still pending
      or the entry was stored after that invalidation had begun. */
  lemma StaleOnlyByOverlap(eval: Eval, steps: seq<Step>, q: string, now: nat)
    requires ValidRun(eval, steps) && q in Exec(eval, steps).cache
    requires var s := Exec(eval, steps);
             s.visible <= now <= s.Version() && s.cache[q].result != eval(q, s.history[now])
    ensures var s := Exec(eval, steps);
            s.cache[q].version < now && forall w :: s.cache[q].version < w <= s.Version() ==> Excused(s, q, w)
  {
    Invariant(eval, steps);
    var s := Exec(eval, steps);
    StaleWasReadBefore(eval, s, q, now);
    forall w | s.cache[q].version < w <= s.Version()
      ensures Excused(s, q, w)
    {
      ReadBeforeIsExcused(s, q, w);
    }
  }

  // ----- Without overlap -----

  /** The search that stores here has seen every write whose invalidation has begun. */
  predicate StoresInTime(s: State, step: Step) {
    step.Store? && step.search in s.searches && s.searches[step.search].HasRead? ==>
      forall w :: w in s.scanStart ==> w <= s.searches[step.search].version
  }

  ghost predicate NoOverlap(eval: Eval, steps: seq<Step>)
    requires ValidRun(eval, steps)
  {
    steps == [] ||
    (NoOverlap(eval, steps[..|steps| - 1]) && StoresInTime(Exec(eval, steps[..|steps| - 1]), steps[|steps| - 1]))
  }

  /** Every entry read before a write whose scan has begun was there when it began. */
  ghost predicate Precedes(s: State) {
    forall q, w :: q in s.cache && w in s.scanStart && s.cache[q].version < w ==> Older(s, q, w)
  }

  lemma StepKeepsPrecedence(eval: Eval, s: State, step: Step)
    requires Enabled(s, step) && Tracked(s) && Precedes(s) && StoresInTime(s, step)
    ensures Precedes(Apply(eval, s, step))
  {
    var s' := Apply(eval, s, step);
    forall q, w | q in s'.cache && w in s'.scanStart && s'.cache[q].version < w
      ensures Older(s', q, w)
    {
      if q in s.cache && w in s.scanStart && s'.cache[q] == s.cache[q] {
        assert Older(s, q, w);
      }
    }
  }

  lemma {:induction false} EntriesPrecedeScans(eval: Eval, steps: seq<Step>)
    requires ValidRun(eval, steps) && NoOverlap(eval, steps)
    ensures Precedes(Exec(eval, steps))
  {
    if steps != [] {
      var n := |steps| - 1;
      EntriesPrecedeScans(eval, steps[..n]);
      Invariant(eval, steps[..n]);
      StepKeepsPrecedence(eval, Exec(eval, steps[..n]), steps[n]);
    }
  }

  /** What a search answers when it goes to the index. */
  function Uncached(eval: Eval, s: State, q: string): Response
    requires s.visible < |s.history|
  {
    eval(q, s.history[s.visible])
  }

  function Answer(eval: Eval, s: State, q: string): Response
    requires s.visible < |s.history|
  {
    if q in s.cache then s.cache[q].result else Uncached(eval, s, q)
  }

  /** With nothing pending, an entry that came before every scan has been swept, unless nothing was written since. */
  lemma EntryIsCurrent(s: State, q: string)
    requires Tracked(s) && Swept(s) && Precedes(s) && s.writers == map[] && q in s.cache
    ensures s.cache[q].version >= s.Version()
  {
    assert s.Version() >= 1 ==> s.Version() in s.scanStart;
    assert s.Version() in s.scanStart ==> !Older(s, q, s.Version());
  }

  lemma SettledCacheIsFresh(eval: Eval, s: State, q: string)
    requires Genuine(eval, s) && Tracked(s) && Swept(s) && Precedes(s) && s.writers == map[]
    ensures Answer(eval, s, q) == Uncached(eval, s, q)
    ensures q in s.cache ==> s.visible == s.Version()
  {
    if q in s.cache {
      EntryIsCurrent(s, q);
    }
  }

  /** When no search stores what a write under invalidation has outdated, and nothing is pending, searching with the
      cache and without it give the same answer to every query, and whatever is cached has seen the last write. */
  lemma CachedSearchIsFresh(eval: Eval, steps: seq<Step>, q: string)
    requires ValidRun(eval, steps) && NoOverlap(eval, steps) && Exec(eval, steps).writers == map[]
    ensures var s := Exec(eval, steps);
            && s.visible < |s.history| && Answer(eval, s, q) == Uncached(eval, s, q)
            && (q in s.cache ==> s.visible == s.Version())
  {
    Invariant(eval, steps);
    EntriesPrecedeScans(eval, steps);
    SettledCacheIsFresh(eval, Exec(eval, steps), q);
  }

  lemma Extend(eval: Eval, steps: seq<Step>, step: Step) returns (more: seq<Step>)
    requires ValidRun(eval, steps) && Enabled(Exec(eval, steps), step)
    ensures more == steps + [step] && ValidRun(eval, more) && Exec(eval, more) == Apply(eval, Exec(eval, steps), step)
  {
    more := steps + [step];
    assert more[..|steps|] == steps;
  }

  /** Nothing is pending, every write is visible, and still the cached answer is an old one. */
  ghost predicate LeftStale(eval: Eval, s: State, q: string, index: Index) {
    && s.writers == map[] && s.history == [map[], index] && s.visible == 1
    && Answer(eval, s, q) != Uncached(eval, s, q)
  }

  /** The overlap is real: a search that reads, waits out a whole invalidation and then stores leaves an answer that is
      stale with nothing pending. */
  lemma OverlapLeavesStaleEntry(eval: Eval, q: string, index: Index) returns (steps: seq<Step>)
    requires eval(q, map[]) != eval(q, index) && !eval(q, map[]).dated
    ensures ValidRun(eval, steps) && LeftStale(eval, Exec(eval, steps), q, index)
  {
    steps := Extend(eval, [], Miss(0, q));
    steps := Extend(eval, steps, ReadIndex(0));
    steps := Extend(eval, steps, Write(index));
    steps := Extend(eval, steps, Refresh(1));
    steps := Extend(eval, steps, BeginScan(1));
    steps := Extend(eval, steps, ScanReply(1, {}, true));
    steps := Extend(eval, steps, DeleteBatch(1));
    assert Exec(eval, steps).writers == map[];
    steps := Extend(eval, steps, Store(0));
  }

  /** A whole invalidation, with no search in flight, of a write that does not show yet. */
  lemma SweepUnseen(eval: Eval, index: Index) returns (steps: seq<Step>)
    ensures ValidRun(eval, steps)
    ensures var s := Exec(eval, steps);
            && s.history == [map[], index] && s.visible == 0
            && s.cache == map[] && s.searches == map[] && s.writers == map[]
  {
    steps := Extend(eval, [], Write(index));
    steps := Extend(eval, steps, BeginScan(1));
    steps := Extend(eval, steps, ScanReply(1, {}, true));
    steps := Extend(eval, steps, DeleteBatch(1));
    assert Exec(eval, steps).writers == map[] && Exec(eval, steps).cache == map[];
  }

  /** No search need be in flight for it: one that begins after the whole invalidation is over still reads the old index
      until it refreshes, and stores that. */
  lemma LagLeavesStaleEntry(eval: Eval, q: string, index: Index) returns (swept: seq<Step>, steps: seq<Step>)
    requires eval(q, map[]) != eval(q, index) && !eval(q, map[]).dated
    ensures ValidRun(eval, swept) && Exec(eval, swept).writers == map[] && Exec(eval, swept).searches == map[]
    ensures Exec(eval, swept).history == [map[], index]
    ensures ValidRun(eval, steps) && swept <= steps && LeftStale(eval, Exec(eval, steps), q, index)
  {
    swept := SweepUnseen(eval, index);
    steps := Extend(eval, swept, Miss(0, q));
    steps := Extend(eval, steps, ReadIndex(0));
    steps := Extend(eval, steps, Store(0));
    steps := Extend(eval, steps, Refresh(1));
  }
}
