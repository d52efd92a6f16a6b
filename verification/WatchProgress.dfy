/** Watch progress, written through a Redis cache to a table whose rows are looked up by user and movie. */
module WatchProgress {
  import opened Common

  const PREFIX := "progress:"
  /** The widest position an integer column holds. */
  const MAX_POSITION := 0x7fff_ffff

  /** How a movie id in a URL reads as a UUID; several spellings may read as one, and some as none. */
  type Parser = string -> Option<Uuid>

  function Key(user: Uuid, movie: string): string {
    PREFIX + user + ":" + movie
  }

  lemma KeyInjective(user: Uuid, movie: string, other: Uuid, otherMovie: string)
    requires Key(user, movie) == Key(other, otherMovie)
    ensures user == other && movie == otherMovie
  {
    assert Key(user, movie)[|PREFIX|..][..36] == user && Key(other, otherMovie)[|PREFIX|..][..36] == other;
    assert Key(user, movie)[|PREFIX| + 37..] == movie && Key(other, otherMovie)[|PREFIX| + 37..] == otherMovie;
  }

  // ----- The table -----

  datatype Row = Row(user: Uuid, movie: Uuid, position: nat)

  datatype Query = NoRow | OneRow(index: nat) | ManyRows

  predicate IsFor(row: Row, user: Uuid, movie: Uuid) {
    row.user == user && row.movie == movie
  }

  function Find(rows: seq<Row>, user: Uuid, movie: Uuid): (q: Query)
    ensures q.NoRow? ==> forall i :: 0 <= i < |rows| ==> !IsFor(rows[i], user, movie)
    ensures q.OneRow? ==>
              q.index < |rows| && forall i :: 0 <= i < |rows| ==> (IsFor(rows[i], user, movie) <==> i == q.index)
    ensures q.ManyRows? ==>
              exists i, j :: 0 <= i < j < |rows| && IsFor(rows[i], user, movie) && IsFor(rows[j], user, movie)
  {
    if rows == [] then NoRow else
      var n := |rows| - 1;
      var q := Find(rows[..n], user, movie);
      if !IsFor(rows[n], user, movie) then q
      else if q.NoRow? then OneRow(n)
      else
        assert q.OneRow? ==> IsFor(rows[..n][q.index], user, movie) && rows[..n][q.index] == rows[q.index];
        ManyRows
  }

  function Upsert(rows: seq<Row>, user: Uuid, movie: Uuid, position: nat): seq<Row> {
    match Find(rows, user, movie)
    case NoRow => rows + [Row(user, movie, position)]
    case OneRow(i) => rows[i := rows[i].(position := position)]
    case ManyRows => rows
  }

  ghost predicate OneRowEach(rows: seq<Row>) {
    forall i, j :: 0 <= i < j < |rows| ==> !IsFor(rows[j], rows[i].user, rows[i].movie)
  }

  lemma UpsertWrites(rows: seq<Row>, user: Uuid, movie: Uuid, position: nat)
    requires OneRowEach(rows)
    ensures var after := Upsert(rows, user, movie, position);
            && OneRowEach(after)
            && (forall r :: r in after <==> r == Row(user, movie, position) || (r in rows && !IsFor(r, user, movie)))
  {
    var after := Upsert(rows, user, movie, position);
    var q := Find(rows, user, movie);
    if q.OneRow? {
      assert after[q.index] == Row(user, movie, position);
      forall r | r in rows && !IsFor(r, user, movie)
        ensures r in after
      {
        var i :| 0 <= i < |rows| && rows[i] == r;
        assert after[i] == r;
      }
    }
  }

  // ----- Runs -----

  datatype State = State(cache: map<string, nat>, rows: seq<Row>)

  datatype Step =
    | Update(user: Uuid, movie: string, position: nat, cacheUp: bool, dbUp: bool)
    | Get(user: Uuid, movie: string, readUp: bool, dbUp: bool, fillUp: bool)
    | Expire(key: string)

  /** A write that reaches the table; a movie id that does not parse or a position that does not fit fails as the
      database does, and the failure is swallowed. */
  predicate Reaches(parse: Parser, movie: string, position: nat, dbUp: bool) {
    parse(movie).Some? && position <= MAX_POSITION && dbUp
  }

  /** `None` is an error to the caller. */
  function Answer(parse: Parser, s: State, user: Uuid, movie: string, readUp: bool, dbUp: bool): Option<nat> {
    if readUp && Key(user, movie) in s.cache then Some(s.cache[Key(user, movie)])
    else if parse(movie).None? || !dbUp then None
    else
      match Find(s.rows, user, parse(movie).value)
      case NoRow => Some(0)
      case OneRow(i) => Some(s.rows[i].position)
      case ManyRows => None
  }

  /** A read that found its row in the table. */
  predicate FromTable(parse: Parser, s: State, user: Uuid, movie: string, readUp: bool, dbUp: bool) {
    && !(readUp && Key(user, movie) in s.cache)
    && parse(movie).Some? && dbUp && Find(s.rows, user, parse(movie).value).OneRow?
  }

  function Apply(parse: Parser, s: State, step: Step): State {
    match step
    case Update(user, movie, position, cacheUp, dbUp) =>
      State(
        if cacheUp then s.cache[Key(user, movie) := position] else s.cache,
        if Reaches(parse, movie, position, dbUp) then Upsert(s.rows, user, parse(movie).value, position) else s.rows)
    case Get(user, movie, readUp, dbUp, fillUp) =>
      if FromTable(parse, s, user, movie, readUp, dbUp) && fillUp
      then s.(cache := s.cache[Key(user, movie) := s.rows[Find(s.rows, user, parse(movie).value).index].position])
      else s
    case Expire(key) => s.(cache := s.cache - {key})
  }

  function Exec(parse: Parser, steps: seq<Step>): State {
    if steps == [] then State(map[], [])
    else Apply(parse, Exec(parse, steps[..|steps| - 1]), steps[|steps| - 1])
  }

  // ----- The plain map -----

  predicate SameMovie(parse: Parser, movie: string, other: string) {
    movie == other || (parse(movie).Some? && parse(movie) == parse(other))
  }

  predicate Writes(parse: Parser, step: Step, user: Uuid, movie: string) {
    step.Update? && step.user == user && SameMovie(parse, movie, step.movie)
  }

  /** What a map from user and movie to position would hold. */
  function LastWritten(parse: Parser, steps: seq<Step>, user: Uuid, movie: string): Option<nat> {
    if steps == [] then None
    else if Writes(parse, steps[|steps| - 1], user, movie) then Some(steps[|steps| - 1].position)
    else LastWritten(parse, steps[..|steps| - 1], user, movie)
  }

  function Expected(parse: Parser, steps: seq<Step>, user: Uuid, movie: string): nat {
    var last := LastWritten(parse, steps, user, movie);
    if last.Some? then last.value else 0
  }

  lemma {:induction false} TableHasOneRowEach(parse: Parser, steps: seq<Step>)
    ensures OneRowEach(Exec(parse, steps).rows)
  {
    if steps != [] {
      var n := |steps| - 1;
      TableHasOneRowEach(parse, steps[..n]);
      if steps[n].Update? && parse(steps[n].movie).Some? {
        UpsertWrites(Exec(parse, steps[..n]).rows, steps[n].user, parse(steps[n].movie).value, steps[n].position);
      }
    }
  }

  // ----- Without write failures -----

  predicate Succeeds(step: Step) {
    step.Update? ==> step.cacheUp && step.dbUp && step.position <= MAX_POSITION
  }

  predicate NoWriteFails(steps: seq<Step>) {
    forall i :: 0 <= i < |steps| ==> Succeeds(steps[i])
  }

  predicate Spells(parse: Parser, step: Step, user: Uuid, movie: string) {
    step.Expire? || step.user != user || !SameMovie(parse, movie, step.movie) || step.movie == movie
  }

  /** Every call for this user and movie writes the movie's id the same way. */
  predicate OneSpelling(parse: Parser, steps: seq<Step>, user: Uuid, movie: string) {
    forall i :: 0 <= i < |steps| ==> Spells(parse, steps[i], user, movie)
  }

  ghost predicate Agrees(parse: Parser, s: State, last: Option<nat>, user: Uuid, movie: string) {
    && (Key(user, movie) in s.cache ==> last == Some(s.cache[Key(user, movie)]))
    && (parse(movie).Some? ==> forall p: nat :: Row(user, parse(movie).value, p) in s.rows <==> last == Some(p))
  }

  lemma StepAgrees(parse: Parser, s: State, step: Step, last: Option<nat>, user: Uuid, movie: string)
    requires OneRowEach(s.rows) && Agrees(parse, s, last, user, movie)
    requires Succeeds(step) && Spells(parse, step, user, movie)
    ensures Agrees(parse, Apply(parse, s, step), if Writes(parse, step, user, movie) then Some(step.position) else last,
                   user, movie)
  {
    if !step.Expire? && Key(step.user, step.movie) == Key(user, movie) {
      KeyInjective(step.user, step.movie, user, movie);
    }
    if step.Update? && parse(step.movie).Some? {
      UpsertWrites(s.rows, step.user, parse(step.movie).value, step.position);
    }
    if step.Get? && FromTable(parse, s, step.user, step.movie, step.readUp, step.dbUp) {
      var row := s.rows[Find(s.rows, step.user, parse(step.movie).value).index];
      assert row in s.rows && row == Row(step.user, parse(step.movie).value, row.position);
    }
  }

  lemma {:induction false} RunAgrees(parse: Parser, steps: seq<Step>, user: Uuid, movie: string)
    requires NoWriteFails(steps) && OneSpelling(parse, steps, user, movie)
    ensures Agrees(parse, Exec(parse, steps), LastWritten(parse, steps, user, movie), user, movie)
  {
    if steps != [] {
      var n := |steps| - 1;
      RunAgrees(parse, steps[..n], user, movie);
      TableHasOneRowEach(parse, steps[..n]);
      StepAgrees(parse, Exec(parse, steps[..n]), steps[n], LastWritten(parse, steps[..n], user, movie), user, movie);
    }
  }

  /** The answer a plain map would give, or an error. */
  ghost predicate AnswersAsMap(parse: Parser, steps: seq<Step>, user: Uuid, movie: string) {
    forall readUp, dbUp ::
      var r := Answer(parse, Exec(parse, steps), user, movie, readUp, dbUp);
      r.None? || r.value == Expected(parse, steps, user, movie)
  }

  /** With entries expiring at any moment and reads failing, but no write failing, a reader who finds the database up
      gets what a plain map holds. */
  lemma ReadsAsPlainMap(parse: Parser, steps: seq<Step>, user: Uuid, movie: string)
    requires NoWriteFails(steps) && OneSpelling(parse, steps, user, movie)
    ensures AnswersAsMap(parse, steps, user, movie)
    ensures forall readUp :: parse(movie).Some? ==> Answer(parse, Exec(parse, steps), user, movie, readUp, true).Some?
  {
    var s := Exec(parse, steps);
    RunAgrees(parse, steps, user, movie);
    TableHasOneRowEach(parse, steps);
    if parse(movie).Some? {
      var id := parse(movie).value;
      if LastWritten(parse, steps, user, movie).Some? {
        var i :| 0 <= i < |s.rows| && s.rows[i] == Row(user, id, LastWritten(parse, steps, user, movie).value);
        assert IsFor(s.rows[i], user, id);
      }
      var q := Find(s.rows, user, id);
      if q.OneRow? {
        assert s.rows[q.index] == Row(user, id, s.rows[q.index].position);
      }
    }
  }

  predicate UsesOnly(steps: seq<Step>, spellings: set<string>) {
    forall i :: 0 <= i < |steps| ==> steps[i].Expire? || steps[i].movie in spellings
  }

  ghost predicate OneEach(parse: Parser, spellings: set<string>) {
    forall a, b :: a in spellings && b in spellings && SameMovie(parse, a, b) ==> a == b
  }

  ghost predicate AlwaysAsMap(parse: Parser, spellings: set<string>) {
    forall steps, user: Uuid, movie :: NoWriteFails(steps) && UsesOnly(steps, spellings) && movie in spellings ==>
      AnswersAsMap(parse, steps, user, movie)
  }

  /** The cache goes by the text of the id and the table by its value, so two spellings of one movie come apart: the
      first keeps the position cached under it. */
  lemma TwoSpellingsComeApart(parse: Parser, user: Uuid, movie: string, other: string) returns (steps: seq<Step>)
    requires movie != other && SameMovie(parse, movie, other)
    ensures NoWriteFails(steps) && UsesOnly(steps, {movie, other}) && !AnswersAsMap(parse, steps, user, movie)
  {
    var first, second := Update(user, movie, 10, true, true), Update(user, other, 20, true, true);
    steps := [first, second];
    assert steps[..1] == [first] && [first][..0] == [];
    assert Exec(parse, [first]) == Apply(parse, Exec(parse, []), first);
    if Key(user, movie) == Key(user, other) {
      KeyInjective(user, movie, user, other);
    }
    assert Exec(parse, steps).cache[Key(user, movie)] == 10;
    assert Answer(parse, Exec(parse, steps), user, movie, true, true) == Some(10);
    assert Writes(parse, second, user, movie);
  }

  /** Over a set of spellings the service is a plain map exactly when no two of them read as one movie. */
  lemma PlainMapIffOneSpelling(parse: Parser, spellings: set<string>)
    ensures AlwaysAsMap(parse, spellings) <==> OneEach(parse, spellings)
  {
    if OneEach(parse, spellings) {
      forall steps, user: Uuid, movie | NoWriteFails(steps) && UsesOnly(steps, spellings) && movie in spellings
        ensures AnswersAsMap(parse, steps, user, movie)
      {
        ReadsAsPlainMap(parse, steps, user, movie);
      }
    } else {
      var a, b :| a in spellings && b in spellings && SameMovie(parse, a, b) && a != b;
      var user: Uuid := "00000000-0000-0000-0000-000000000000";
      var steps := TwoSpellingsComeApart(parse, user, a, b);
      assert UsesOnly(steps, spellings);
    }
  }

  // ----- With any write failures -----

  /** Some call wrote this position for this user and movie. */
  ghost predicate WasWritten(parse: Parser, steps: seq<Step>, user: Uuid, movie: string, position: nat) {
    exists i :: 0 <= i < |steps| && Writes(parse, steps[i], user, movie) && steps[i].position == position
  }

  lemma WrittenStays(parse: Parser, steps: seq<Step>, user: Uuid, movie: string, position: nat)
    requires steps != [] && WasWritten(parse, steps[..|steps| - 1], user, movie, position)
    ensures WasWritten(parse, steps, user, movie, position)
  {
    var before := steps[..|steps| - 1];
    var i :| 0 <= i < |before| && Writes(parse, before[i], user, movie) && before[i].position == position;
    assert steps[i] == before[i];
  }

  lemma {:induction false} RowsWereWritten(parse: Parser, steps: seq<Step>, user: Uuid, movie: string, position: nat)
    requires parse(movie).Some? && Row(user, parse(movie).value, position) in Exec(parse, steps).rows
    ensures WasWritten(parse, steps, user, movie, position)
  {
    var n := |steps| - 1;
    var s := Exec(parse, steps[..n]);
    TableHasOneRowEach(parse, steps[..n]);
    if steps[n].Update? && parse(steps[n].movie).Some? {
      UpsertWrites(s.rows, steps[n].user, parse(steps[n].movie).value, steps[n].position);
    }
    if Row(user, parse(movie).value, position) in s.rows {
      RowsWereWritten(parse, steps[..n], user, movie, position);
      WrittenStays(parse, steps, user, movie, position);
    } else {
      assert Writes(parse, steps[n], user, movie) && steps[n].position == position;
    }
  }

  lemma {:induction false} CacheWasWritten(parse: Parser, steps: seq<Step>, user: Uuid, movie: string)
    requires Key(user, movie) in Exec(parse, steps).cache
    ensures WasWritten(parse, steps, user, movie, Exec(parse, steps).cache[Key(user, movie)])
  {
    var n := |steps| - 1;
    var step, s := steps[n], Exec(parse, steps[..n]);
    var position := Exec(parse, steps).cache[Key(user, movie)];
    if !step.Expire? && Key(step.user, step.movie) == Key(user, movie) {
      KeyInjective(step.user, step.movie, user, movie);
    }
    if step.Update? && step.cacheUp && step.user == user && step.movie == movie {
      assert Writes(parse, step, user, movie);
    } else if step.Get? && step.user == user && step.movie == movie && step.fillUp &&
              FromTable(parse, s, user, movie, step.readUp, step.dbUp) {
      var row := s.rows[Find(s.rows, user, parse(movie).value).index];
      assert row == Row(user, parse(movie).value, position);
      RowsWereWritten(parse, steps[..n], user, movie, position);
      WrittenStays(parse, steps, user, movie, position);
    } else {
      CacheWasWritten(parse, steps[..n], user, movie);
      WrittenStays(parse, steps, user, movie, position);
    }
  }

  /** Whatever writes fail, wherever, a reader gets an error, 0, or a position somebody wrote
      for that user and movie. */
  lemma ReadsOnlyWhatWasWritten(parse: Parser, steps: seq<Step>, user: Uuid, movie: string, readUp: bool, dbUp: bool)
    ensures var r := Answer(parse, Exec(parse, steps), user, movie, readUp, dbUp);
            r == None || r == Some(0) || WasWritten(parse, steps, user, movie, r.value)
  {
    var s := Exec(parse, steps);
    if readUp && Key(user, movie) in s.cache {
      CacheWasWritten(parse, steps, user, movie);
    } else if FromTable(parse, s, user, movie, readUp, dbUp) {
      var row := s.rows[Find(s.rows, user, parse(movie).value).index];
      assert row == Row(user, parse(movie).value, row.position);
      RowsWereWritten(parse, steps, user, movie, row.position);
    }
  }

  // ----- The service -----

  /** The row at `i` is this user's for this movie, and no other is. */
  predicate OnlyRow(rows: seq<Row>, i: nat, user: Uuid, movie: Uuid)
    requires i < |rows|
  {
    forall j :: 0 <= j < |rows| ==> (rows[j].user == user && rows[j].movie == movie <==> j == i)
  }

  class RedisCache {
    var entries: map<string, nat>

    constructor ()
      ensures entries == map[]
    {
      entries := map[];
    }

    /** A Redis failure reads as a miss. */
    method GetWatchProgress(user: Uuid, movie: string, up: bool) returns (r: Option<nat>)
      ensures r.Some? <==> up && "progress:" + user + ":" + movie in entries
      ensures r.Some? ==> r.value == entries["progress:" + user + ":" + movie]
    {
      var key := Key(user, movie);
      r := if up && key in entries then Some(entries[key]) else None;
    }

    /** A Redis failure is swallowed. */
    method SetWatchProgress(user: Uuid, movie: string, position: nat, up: bool)
      modifies this
      ensures entries == if up then old(entries)["progress:" + user + ":" + movie := position] else old(entries)
    {
      if up {
        entries := entries[Key(user, movie) := position];
      }
    }
  }

  class StreamingService {
    const cache: RedisCache
    const parse: Parser
    var rows: seq<Row>

    constructor (cache: RedisCache, parse: Parser)
      ensures this.cache == cache && this.parse == parse && rows == []
    {
      this.cache, this.parse := cache, parse;
      rows := [];
    }

    ghost function Snapshot(): State
      reads this, cache
    {
      State(cache.entries, rows)
    }

    method SyncProgressToDb(user: Uuid, movie: string, position: nat, dbUp: bool)
      modifies this
      ensures rows == if Reaches(parse, movie, position, dbUp)
                      then Upsert(old(rows), user, parse(movie).value, position)
                      else old(rows)
      ensures parse(movie).None? || position > 2147483647 || !dbUp ==> rows == old(rows)
      ensures parse(movie).Some? && position <= 2147483647 && dbUp ==>
                var id := parse(movie).value;
                && ((forall i :: 0 <= i < |old(rows)| ==> !(old(rows)[i].user == user && old(rows)[i].movie == id)) ==>
                      rows == old(rows) + [Row(user, id, position)])
                && (forall i :: 0 <= i < |old(rows)| && OnlyRow(old(rows), i, user, id) ==>
                      rows == old(rows)[i := Row(user, id, position)])
    {
      if parse(movie).None? {
        return;
      }
      var id := parse(movie).value;
      var progress := Find(rows, user, id);
      if progress.ManyRows? || !dbUp || position > MAX_POSITION {
        return;
      }
      if progress.OneRow? {
        rows := rows[progress.index := rows[progress.index].(position := position)];
      } else {
        assert forall i :: 0 <= i < |rows| ==> !IsFor(rows[i], user, id) && !OnlyRow(rows, i, user, id);
        rows := rows + [Row(user, id, position)];
      }
    }

    method UpdateProgress(user: Uuid, movie: string, position: nat, cacheUp: bool, dbUp: bool)
      modifies this, cache
      ensures Snapshot() == Apply(parse, old(Snapshot()), Update(user, movie, position, cacheUp, dbUp))
    {
      cache.SetWatchProgress(user, movie, position, cacheUp);
      SyncProgressToDb(user, movie, position, dbUp);
    }

    method GetProgress(user: Uuid, movie: string, readUp: bool, dbUp: bool, fillUp: bool) returns (r: Option<nat>)
      modifies cache
      ensures r == Answer(parse, old(Snapshot()), user, movie, readUp, dbUp)
      ensures Snapshot() == Apply(parse, old(Snapshot()), Get(user, movie, readUp, dbUp, fillUp))
      ensures var key := "progress:" + user + ":" + movie;
              if readUp && key in old(cache.entries) then
                r == Some(old(cache.entries)[key]) && cache.entries == old(cache.entries)
              else if parse(movie).None? || !dbUp then r == None && cache.entries == old(cache.entries)
              else
                var id := parse(movie).value;
                && ((forall i :: 0 <= i < |rows| ==> !(rows[i].user == user && rows[i].movie == id)) ==>
                      r == Some(0) && cache.entries == old(cache.entries))
                && (forall i :: 0 <= i < |rows| && OnlyRow(rows, i, user, id) ==>
                      && r == Some(rows[i].position)
                      && cache.entries == if fillUp then old(cache.entries)[key := rows[i].position]
                                          else old(cache.entries))
    {
      var cached := cache.GetWatchProgress(user, movie, readUp);
      if cached.Some? {
        return cached;
      }
      if parse(movie).None? || !dbUp {
        return None;
      }
      var progress := Find(rows, user, parse(movie).value);
      if progress.ManyRows? {
        return None;
      }
      if progress.OneRow? {
        cache.SetWatchProgress(user, movie, rows[progress.index].position, fillUp);
        return Some(rows[progress.index].position);
      }
      r := Some(0);
    }

    method EndStream(user: Uuid, movie: string, position: nat, cacheUp: bool, dbUp: bool)
      modifies this, cache
      ensures Snapshot() == Apply(parse, old(Snapshot()), Update(user, movie, position, cacheUp, dbUp))
    {
      UpdateProgress(user, movie, position, cacheUp, dbUp);
    }
  }
}
