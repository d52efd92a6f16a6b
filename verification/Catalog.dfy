/** The catalog service: rows, the events it publishes, and what the index makes of them. */
module Catalog {
  import opened Common
  import opened MovieEvents

  datatype Row = Row(
    title: string, description: Option<string>, year: int, duration: Option<int>, rating: Option<real>,
    isPublished: bool, publishedAt: Option<string>)

  datatype MovieCreate = MovieCreate(
    title: string, description: Option<string>, year: int, duration: Option<int>, rating: Option<real>)

  datatype MovieUpdate = MovieUpdate(
    title: Option<string>, description: Option<string>, year: Option<int>, duration: Option<int>, rating: Option<real>)

  type Rows = map<string, Row>

  function NewRow(data: MovieCreate): Row {
    Row(data.title, data.description, data.year, data.duration, data.rating, false, None)
  }

  function Or<T>(given: Option<T>, current: T): T {
    if given.Some? then given.value else current
  }

  function Keep<T>(given: Option<T>, current: Option<T>): Option<T> {
    if given.Some? then given else current
  }

  function Updated(row: Row, data: MovieUpdate): Row {
    row.(title := Or(data.title, row.title), description := Keep(data.description, row.description),
         year := Or(data.year, row.year), duration := Keep(data.duration, row.duration),
         rating := Keep(data.rating, row.rating))
  }

  function WithPublication(row: Row, now: string): Row {
    row.(isPublished := true, publishedAt := Some(now))
  }

  // ----- Event payloads, as the producer builds them from what the service hands over -----

  function OptStr(s: Option<string>): Json {
    if s.Some? then Str(s.value) else Null
  }

  function OptNum(x: Option<real>): Json {
    if x.Some? then Num(x.value) else Null
  }

  function CreatedEvent(id: string, data: Payload): Event {
    Event(id, "created", map[
      "title" := Get(data, "title", Null), "year" := Get(data, "year", Null), "rating" := Get(data, "rating", Null),
      "is_published" := Get(data, "is_published", Bool(false))])
  }

  function UpdatedEvent(id: string, data: Payload): Event {
    Event(id, "updated", map[
      "title" := Get(data, "title", Null), "year" := Get(data, "year", Null), "rating" := Get(data, "rating", Null),
      "is_published" := Get(data, "is_published", Null)])
  }

  function PublishedEvent(id: string, data: Payload): Event {
    Event(id, "published", map[
      "title" := Get(data, "title", Null), "year" := Get(data, "year", Null),
      "published_at" := Get(data, "published_at", Null)])
  }

  function CreationNotice(id: string, row: Row): Event {
    CreatedEvent(id, map["title" := Str(row.title), "year" := Int(row.year), "rating" := OptNum(row.rating)])
  }

  function UpdateNotice(id: string, row: Row): Event {
    UpdatedEvent(id, map["title" := Str(row.title), "year" := Int(row.year), "is_published" := Bool(row.isPublished)])
  }

  function PublicationNotice(id: string, row: Row): Event {
    PublishedEvent(
      id, map["title" := Str(row.title), "year" := Int(row.year), "published_at" := OptStr(row.publishedAt)])
  }

  /** What the three kinds of event say. An update says nothing of the rating. */
  lemma NoticesSay(id: string, row: Row)
    ensures CreationNotice(id, row) == Event(id, "created", map[
              "title" := Str(row.title), "year" := Int(row.year), "is_published" := Bool(false),
              "rating" := if row.rating.Some? then Num(row.rating.value) else Null])
    ensures UpdateNotice(id, row) == Event(id, "updated", map[
              "title" := Str(row.title), "year" := Int(row.year), "is_published" := Bool(row.isPublished),
              "rating" := Null])
    ensures PublicationNotice(id, row) == Event(id, "published", map[
              "title" := Str(row.title), "year" := Int(row.year),
              "published_at" := if row.publishedAt.Some? then Str(row.publishedAt.value) else Null])
  {}

  datatype Reply = Done(row: Row) | NotFound | AlreadyPublished

  class MovieService {
    var rows: Rows
    var log: seq<Event>

    constructor ()
      ensures rows == map[] && log == []
    {
      rows, log := map[], [];
    }

    /** `sent` is false when the producer is off or the broker refuses: the failure is swallowed. */
    method PublishEvent(e: Event, sent: bool)
      modifies this`log
      ensures log == if sent then old(log) + [e] else old(log)
    {
      if sent {
        log := log + [e];
      }
    }

    method CreateMovie(id: string, data: MovieCreate, sent: bool) returns (row: Row)
      requires id !in rows
      modifies this
      ensures row == NewRow(data) && rows == old(rows)[id := row]
      ensures row.title == data.title && row.description == data.description && row.year == data.year
      ensures row.duration == data.duration && row.rating == data.rating
      ensures !row.isPublished && row.publishedAt == None
      ensures log == if sent then old(log) + [CreationNotice(id, row)] else old(log)
    {
      row := NewRow(data);
      rows := rows[id := row];
      PublishEvent(CreationNotice(id, row), sent);
    }

    method UpdateMovie(id: string, data: MovieUpdate, sent: bool) returns (reply: Reply)
      modifies this
      ensures id !in old(rows) ==> reply == NotFound && rows == old(rows) && log == old(log)
      ensures id in old(rows) ==>
                && reply == Done(Updated(old(rows)[id], data)) && rows == old(rows)[id := reply.row]
                && log == if sent then old(log) + [UpdateNotice(id, reply.row)] else old(log)
      ensures id in old(rows) ==>
                var was, now := old(rows)[id], reply.row;
                && now.title == (if data.title.Some? then data.title.value else was.title)
                && now.description == (if data.description.Some? then data.description else was.description)
                && now.year == (if data.year.Some? then data.year.value else was.year)
                && now.duration == (if data.duration.Some? then data.duration else was.duration)
                && now.rating == (if data.rating.Some? then data.rating else was.rating)
                && now.isPublished == was.isPublished && now.publishedAt == was.publishedAt
    {
      if id !in rows {
        return NotFound;
      }
      var movie := rows[id];
      if data.title.Some? { movie := movie.(title := data.title.value); }
      if data.description.Some? { movie := movie.(description := data.description); }
      if data.year.Some? { movie := movie.(year := data.year.value); }
      if data.duration.Some? { movie := movie.(duration := data.duration); }
      if data.rating.Some? { movie := movie.(rating := data.rating); }
      rows := rows[id := movie];
      PublishEvent(UpdateNotice(id, movie), sent);
      reply := Done(movie);
    }

    method PublishMovie(id: string, now: string, sent: bool) returns (reply: Reply)
      modifies this
      ensures id !in old(rows) ==> reply == NotFound
      ensures id in old(rows) && old(rows)[id].isPublished ==> reply == AlreadyPublished
      ensures !reply.Done? ==> rows == old(rows) && log == old(log)
      ensures id in old(rows) && !old(rows)[id].isPublished ==>
                && reply == Done(WithPublication(old(rows)[id], now)) && rows == old(rows)[id := reply.row]
                && log == (if sent then old(log) + [PublicationNotice(id, reply.row)] else old(log))
                && reply.row == old(rows)[id].(isPublished := true, publishedAt := Some(now))
    {
      if id !in rows {
        return NotFound;
      }
      var movie := rows[id];
      if movie.isPublished {
        return AlreadyPublished;
      }
      movie := movie.(isPublished := true, publishedAt := Some(now));
      rows := rows[id := movie];
      PublishEvent(PublicationNotice(id, movie), sent);
      reply := Done(movie);
    }
  }

  // ----- Catalog and index agree once the log is drained -----

  datatype World = World(rows: Rows, consumer: Consumer)

  /** Catalog operations that do not overlap, with every event sent, and a consumer that may be rewound. */
  datatype Op =
    | Create(id: string, data: MovieCreate)
    | Update(id: string, change: MovieUpdate)
    | Publish(id: string, now: string)
    | Read(step: MovieEvents.Step)

  predicate Possible(w: World, op: Op) {
    match op
    case Create(id, _) => id !in w.rows
    case Update(id, _) => id in w.rows
    case Publish(id, _) => id in w.rows && !w.rows[id].isPublished
    case Read(step) => !step.Append? && Enabled(w.consumer, step)
  }

  function Commit(w: World, id: string, row: Row, e: Event): World {
    World(w.rows[id := row], MovieEvents.Apply(w.consumer, Append(e)))
  }

  function Do(w: World, op: Op): World
    requires Possible(w, op)
  {
    match op
    case Create(id, data) => Commit(w, id, NewRow(data), CreationNotice(id, NewRow(data)))
    case Update(id, change) =>
      var row := Updated(w.rows[id], change);
      Commit(w, id, row, UpdateNotice(id, row))
    case Publish(id, now) =>
      var row := WithPublication(w.rows[id], now);
      Commit(w, id, row, PublicationNotice(id, row))
    case Read(step) => w.(consumer := MovieEvents.Apply(w.consumer, step))
  }

  predicate ValidOps(ops: seq<Op>)
    decreases |ops|, 0
  {
    ops == [] || (ValidOps(ops[..|ops| - 1]) && Possible(After(ops[..|ops| - 1]), ops[|ops| - 1]))
  }

  function After(ops: seq<Op>): World
    requires ValidOps(ops)
    decreases |ops|, 1
  {
    if ops == [] then World(map[], Consumer([], 0, map[])) else Do(After(ops[..|ops| - 1]), ops[|ops| - 1])
  }

  /** The document has the row's title, year and publication flag. */
  predicate Shows(doc: Document, row: Row) {
    doc.title == Str(row.title) && doc.year == Int(row.year) && doc.isPublished == Bool(row.isPublished)
  }

  /** One document for each row, and it shows that row. */
  ghost predicate Agree(rows: Rows, index: Index) {
    rows.Keys == index.Keys && forall id :: id in rows ==> Shows(index[id], rows[id])
  }

  /** `e` is the notice the service sends when the row of `id` goes from `before` to `row`. */
  ghost predicate IsNotice(id: string, before: Option<Row>, row: Row, e: Event) {
    || (e == CreationNotice(id, row) && !row.isPublished)
    || e == UpdateNotice(id, row)
    || (e == PublicationNotice(id, row) && row.isPublished && before.Some? &&
        before.value.title == row.title && before.value.year == row.year)
  }

  lemma NoticeCarriesRow(doc: Option<Document>, id: string, before: Option<Row>, row: Row, e: Event)
    requires IsNotice(id, before, row, e)
    requires before.Some? ==> doc.Some? && Shows(doc.value, before.value)
    ensures e.movieId == id && DeliverTo(doc, e).Some? && Shows(DeliverTo(doc, e).value, row)
  {}

  lemma ShownRowKeepsAgreement(rows: Rows, index: Index, row: Row, e: Event)
    requires Agree(rows, index)
    requires var doc := DeliverTo(Lookup(index, e.movieId), e); doc.Some? && Shows(doc.value, row)
    ensures Agree(rows[e.movieId := row], Deliver(index, e))
  {
    var doc := DeliverTo(Lookup(index, e.movieId), e).value;
    assert Deliver(index, e) == index[e.movieId := doc];
  }

  lemma NoticeKeepsAgreement(rows: Rows, index: Index, id: string, row: Row, e: Event)
    requires Agree(rows, index) && IsNotice(id, Lookup(rows, id), row, e)
    ensures Agree(rows[id := row], Deliver(index, e))
  {
    NoticeCarriesRow(Lookup(index, id), id, Lookup(rows, id), row, e);
    ShownRowKeepsAgreement(rows, index, row, e);
  }

  lemma CommitKeepsAgreement(w: World, id: string, row: Row, e: Event)
    requires OnCourse(w.consumer) && Agree(w.rows, DeliverAll(map[], w.consumer.log))
    requires IsNotice(id, Lookup(w.rows, id), row, e)
    ensures var w' := Commit(w, id, row, e);
            OnCourse(w'.consumer) && Agree(w'.rows, DeliverAll(map[], w'.consumer.log))
  {
    AppendStaysOnCourse(w.consumer, e);
    DeliverAllAppend(map[], w.consumer.log, e);
    NoticeKeepsAgreement(w.rows, DeliverAll(map[], w.consumer.log), id, row, e);
  }

  lemma {:induction false} AgreementInvariant(ops: seq<Op>)
    requires ValidOps(ops)
    ensures var w := After(ops); OnCourse(w.consumer) && Agree(w.rows, DeliverAll(map[], w.consumer.log))
  {
    if ops != [] {
      var w, op := After(ops[..|ops| - 1]), ops[|ops| - 1];
      AgreementInvariant(ops[..|ops| - 1]);
      match op
      case Create(id, data) => CommitKeepsAgreement(w, id, NewRow(data), CreationNotice(id, NewRow(data)));
      case Update(id, change) =>
        var row := Updated(w.rows[id], change);
        CommitKeepsAgreement(w, id, row, UpdateNotice(id, row));
      case Publish(id, now) =>
        var row := WithPublication(w.rows[id], now);
        CommitKeepsAgreement(w, id, row, PublicationNotice(id, row));
      case Read(step) =>
        if step.Consume? {
          ConsumeStaysOnCourse(w.consumer);
        }
    }
  }

  /** Whenever the consumer has read to the end, after any rewinds on the way, the index shows every catalog row as it
      is. */
  lemma DrainedIndexAgrees(ops: seq<Op>)
    requires ValidOps(ops) && After(ops).consumer.offset == |After(ops).consumer.log|
    ensures Agree(After(ops).rows, After(ops).consumer.index)
  {
    AgreementInvariant(ops);
    var c := After(ops).consumer;
    assert c.log[c.offset..] == [];
  }

  // ----- What a row holds, by the history of the operations -----

  datatype Column = Title | Description | Year | Duration | Rating

  function Cell(row: Row, column: Column): Json {
    match column
    case Title => Str(row.title)
    case Description => if row.description.Some? then Str(row.description.value) else Null
    case Year => Int(row.year)
    case Duration => if row.duration.Some? then Int(row.duration.value) else Null
    case Rating => if row.rating.Some? then Num(row.rating.value) else Null
  }

  /** What an operation gives this column of this row: a creation gives every column, an update only those it names. */
  function Gives(op: Op, id: string, column: Column): Option<Json> {
    match op
    case Create(i, data) =>
      if i != id then None else Some(
        match column
        case Title => Str(data.title)
        case Description => if data.description.Some? then Str(data.description.value) else Null
        case Year => Int(data.year)
        case Duration => if data.duration.Some? then Int(data.duration.value) else Null
        case Rating => if data.rating.Some? then Num(data.rating.value) else Null)
    case Update(i, change) =>
      if i != id then None else (
        match column
        case Title => if change.title.Some? then Some(Str(change.title.value)) else None
        case Description => if change.description.Some? then Some(Str(change.description.value)) else None
        case Year => if change.year.Some? then Some(Int(change.year.value)) else None
        case Duration => if change.duration.Some? then Some(Int(change.duration.value)) else None
        case Rating => if change.rating.Some? then Some(Num(change.rating.value)) else None)
    case _ => None
  }

  /** Operation `j` gave the column this value, and none has given it another since. */
  ghost predicate LastGiven(ops: seq<Op>, j: nat, id: string, column: Column, value: Json) {
    && j < |ops| && Gives(ops[j], id, column) == Some(value)
    && forall i :: j < i < |ops| ==> Gives(ops[i], id, column) == None
  }

  lemma CellAfterOp(w: World, op: Op, id: string, column: Column)
    requires Possible(w, op) && id in Do(w, op).rows
    ensures var cell := Cell(Do(w, op).rows[id], column);
            if Gives(op, id, column).Some? then cell == Gives(op, id, column).value
            else id in w.rows && cell == Cell(w.rows[id], column)
  {}

  /** Every column of a row holds what the last creation or update that gave it one gave it. */
  lemma {:induction false} CellByHistory(ops: seq<Op>, id: string, column: Column) returns (j: nat)
    requires ValidOps(ops) && id in After(ops).rows
    ensures LastGiven(ops, j, id, column, Cell(After(ops).rows[id], column))
  {
    var n := |ops| - 1;
    CellAfterOp(After(ops[..n]), ops[n], id, column);
    if Gives(ops[n], id, column).Some? {
      j := n;
    } else {
      j := CellByHistory(ops[..n], id, column);
      assert ops[..n][j] == ops[j];
      forall i | j < i < |ops|
        ensures Gives(ops[i], id, column) == None
      {
        if i < n {
          assert ops[..n][i] == ops[i];
        }
      }
    }
  }

  /** Operation `j` published this movie, at the moment `now`. */
  predicate PublishedBy(ops: seq<Op>, j: nat, id: string, now: string) {
    j < |ops| && ops[j] == Op.Publish(id, now)
  }

  /** A movie is published exactly when some operation published it, and it keeps that moment. */
  lemma {:induction false} PublicationByHistory(ops: seq<Op>, id: string, now: string)
    requires ValidOps(ops) && id in After(ops).rows
    ensures var row := After(ops).rows[id];
            && (row.isPublished && row.publishedAt == Some(now) <==> exists j :: PublishedBy(ops, j, id, now))
            && (row.isPublished <==> row.publishedAt.Some?)
  {
    var n := |ops| - 1;
    var before, op := ops[..n], ops[n];
    if id in After(before).rows {
      PublicationByHistory(before, id, now);
      if j: nat :| PublishedBy(before, j, id, now) {
        assert PublishedBy(ops, j, id, now);
      }
    } else {
      NoPublicationYet(before, id, now);
    }
    if op == Op.Publish(id, now) {
      assert PublishedBy(ops, n, id, now);
    } else if j: nat :| PublishedBy(ops, j, id, now) {
      assert PublishedBy(before, j, id, now);
    }
  }

  lemma {:induction false} NoPublicationYet(ops: seq<Op>, id: string, now: string)
    requires ValidOps(ops) && id !in After(ops).rows
    ensures forall j :: !PublishedBy(ops, j, id, now)
  {
    if ops != [] {
      var n := |ops| - 1;
      NoPublicationYet(ops[..n], id, now);
      forall j: nat
        ensures !PublishedBy(ops, j, id, now)
      {
        assert j < n ==> !PublishedBy(ops[..n], j, id, now);
      }
    }
  }

  // ----- What the index loses -----

  predicate Touches(op: Op, id: string) {
    match op
    case Create(i, _) => i == id
    case Update(i, _) => i == id
    case Publish(i, _) => i == id
    case Read(_) => false
  }

  /** The rating a document shows: that of its creation, until an update, which says nothing of it, wipes it. */
  function RatingShown(ops: seq<Op>, id: string): Json {
    if ops == [] then Null else
      match ops[|ops| - 1]
      case Create(i, data) =>
        if i != id then RatingShown(ops[..|ops| - 1], id)
        else if data.rating.Some? then Num(data.rating.value) else Null
      case Update(i, _) => if i == id then Null else RatingShown(ops[..|ops| - 1], id)
      case _ => RatingShown(ops[..|ops| - 1], id)
  }

  /** The date it shows: that of its publication, until an update wipes it. */
  function DateShown(ops: seq<Op>, id: string): Json {
    if ops == [] then Null else
      match ops[|ops| - 1]
      case Publish(i, now) =>
        if i != id then DateShown(ops[..|ops| - 1], id) else if now != "" then Str(now) else Clock
      case Read(_) => DateShown(ops[..|ops| - 1], id)
      case _ => if Touches(ops[|ops| - 1], id) then Null else DateShown(ops[..|ops| - 1], id)
  }

  function OnePass(w: World): Index {
    DeliverAll(map[], w.consumer.log)
  }

  lemma CommitDelivers(w: World, id: string, row: Row, e: Event, other: string)
    requires e.movieId == id
    ensures Lookup(OnePass(Commit(w, id, row, e)), other) ==
              if other == id then DeliverTo(Lookup(OnePass(w), id), e) else Lookup(OnePass(w), other)
  {
    DeliverAllAppend(map[], w.consumer.log, e);
    DeliverAt(OnePass(w), e, other);
  }

  /** The notice an operation on a row sends. */
  function NoticeOf(w: World, op: Op): Event
    requires Possible(w, op) && !op.Read?
  {
    match op
    case Create(id, data) => CreationNotice(id, NewRow(data))
    case Update(id, change) => UpdateNotice(id, Updated(w.rows[id], change))
    case Publish(id, now) => PublicationNotice(id, WithPublication(w.rows[id], now))
  }

  lemma OpDelivers(w: World, op: Op, id: string)
    requires Possible(w, op)
    ensures Lookup(OnePass(Do(w, op)), id) ==
              if Touches(op, id) then DeliverTo(Lookup(OnePass(w), id), NoticeOf(w, op)) else Lookup(OnePass(w), id)
  {
    match op
    case Create(i, data) => CommitDelivers(w, i, NewRow(data), NoticeOf(w, op), id);
    case Update(i, change) => CommitDelivers(w, i, Updated(w.rows[i], change), NoticeOf(w, op), id);
    case Publish(i, now) => CommitDelivers(w, i, WithPublication(w.rows[i], now), NoticeOf(w, op), id);
    case Read(_) =>
  }

  lemma DeliveredShows(w: World, op: Op, doc: Option<Document>)
    requires Possible(w, op) && !op.Read? && (op.Publish? ==> doc.Some?)
    ensures var after := DeliverTo(doc, NoticeOf(w, op));
            after.Some? && match op
              case Create(_, data) =>
                && after.value.rating == (if data.rating.Some? then Num(data.rating.value) else Null)
                && after.value.publishedAt == Null
              case Update(_, _) => after.value.rating == Null && after.value.publishedAt == Null
              case Publish(_, now) =>
                && after.value.rating == doc.value.rating
                && after.value.publishedAt == (if now != "" then Str(now) else Clock)
  {}

  lemma RowsAreTouched(w: World, op: Op, id: string)
    requires Possible(w, op)
    ensures id in Do(w, op).rows <==> id in w.rows || Touches(op, id)
    ensures op.Publish? && Touches(op, id) ==> id in w.rows
  {}

  lemma {:induction false} OnePassShows(ops: seq<Op>, id: string)
    requires ValidOps(ops) && id in After(ops).rows
    ensures Lookup(OnePass(After(ops)), id).Some?
    ensures Lookup(OnePass(After(ops)), id).value.rating == RatingShown(ops, id)
    ensures Lookup(OnePass(After(ops)), id).value.publishedAt == DateShown(ops, id)
  {
    var n := |ops| - 1;
    var w, op := After(ops[..n]), ops[n];
    OpDelivers(w, op, id);
    RowsAreTouched(w, op, id);
    if id in w.rows {
      OnePassShows(ops[..n], id);
    }
    if Touches(op, id) {
      DeliveredShows(w, op, Lookup(OnePass(w), id));
    }
  }

  /** The rest of the row stays behind: a drained index shows a rating only until the first update of its movie, and the
      date of publication only until the next one, though the row keeps both. */
  lemma UpdatesWipeTheIndex(ops: seq<Op>, id: string)
    requires ValidOps(ops) && id in After(ops).rows
    requires After(ops).consumer.offset == |After(ops).consumer.log|
    ensures id in After(ops).consumer.index
    ensures After(ops).consumer.index[id].rating == RatingShown(ops, id)
    ensures After(ops).consumer.index[id].publishedAt == DateShown(ops, id)
  {
    AgreementInvariant(ops);
    OnePassShows(ops, id);
    var c := After(ops).consumer;
    assert c.log[c.offset..] == [];
    assert c.index == OnePass(After(ops));
  }
}
