/** Catalog events and the search documents they fold into. */
module MovieEvents {
  import opened Common

  /** JSON values as the consumer meets them. `Clock` stands for a reading of the consumer's own clock: documents are
      compared with all such readings identified. */
  datatype Json =
    | Null
    | Bool(b: bool)
    | Int(n: int)
    | Num(x: real)
    | Str(s: string)
    | List(items: seq<Json>)
    | Clock
  {
    predicate Truthy() {
      match this
      case Null => false
      case Bool(b) => b
      case Int(n) => n != 0
      case Num(x) => x != 0.0
      case Str(s) => s != ""
      case List(items) => items != []
      case Clock => true
    }
  }

  type Payload = map<string, Json>

  /** `payload.get(field, default)`: a field that is present but null stays null. */
  function Get(p: Payload, field: string, default: Json): Json {
    if field in p then p[field] else default
  }

  datatype Event = Event(movieId: string, action: string, payload: Payload)

  datatype Document = Document(
    movieId: string, title: Json, originalTitle: Json, description: Json, year: Json, duration: Json, rating: Json,
    ageRating: Json, posterUrl: Json, trailerUrl: Json, imdbId: Json, genres: Json, actors: Json, directors: Json,
    isPublished: Json, publishedAt: Json, createdAt: Json, updatedAt: Json)

  type Index = map<string, Document>

  /** A search response as text. One that shows a publication date holds a value that JSON cannot print. */
  datatype Response = Response(text: string, dated: bool)

  /** What the index answers to a search. */
  type Eval = (string, Index) -> Response

  function BuildDocument(movieId: string, p: Payload): Document {
    Document(
      movieId, Get(p, "title", Str("")), Get(p, "original_title", Null), Get(p, "description", Null),
      Get(p, "year", Null), Get(p, "duration", Null), Get(p, "rating", Null), Get(p, "age_rating", Null),
      Get(p, "poster_url", Null), Get(p, "trailer_url", Null), Get(p, "imdb_id", Null), Get(p, "genres", List([])),
      Get(p, "actors", List([])), Get(p, "directors", List([])), Get(p, "is_published", Bool(false)),
      Get(p, "published_at", Null), Get(p, "created_at", Clock), Clock)
  }

  /** The document as the index sees it: field by field, under the field's name. */
  function FieldOf(d: Document, name: string): Option<Json> {
    match name
    case "title" => Some(d.title)
    case "original_title" => Some(d.originalTitle)
    case "description" => Some(d.description)
    case "year" => Some(d.year)
    case "duration" => Some(d.duration)
    case "rating" => Some(d.rating)
    case "age_rating" => Some(d.ageRating)
    case "poster_url" => Some(d.posterUrl)
    case "trailer_url" => Some(d.trailerUrl)
    case "imdb_id" => Some(d.imdbId)
    case "genres" => Some(d.genres)
    case "actors" => Some(d.actors)
    case "directors" => Some(d.directors)
    case "is_published" => Some(d.isPublished)
    case "published_at" => Some(d.publishedAt)
    case "created_at" => Some(d.createdAt)
    case _ => None
  }

  /** A document holds each payload value under its own name; where the payload is silent the title is empty, the three
      lists are empty, the movie is hidden, the moment of creation is the consumer's own, and the rest is null. */
  lemma DocumentKeepsPayload(movieId: string, p: Payload, name: string)
    requires FieldOf(BuildDocument(movieId, p), name).Some?
    ensures var value := FieldOf(BuildDocument(movieId, p), name).value;
            && (name in p ==> value == p[name])
            && (name !in p ==>
                  match name
                  case "title" => value == Str("")
                  case "genres" => value == List([])
                  case "actors" => value == List([])
                  case "directors" => value == List([])
                  case "is_published" => value == Bool(false)
                  case "created_at" => value == Clock
                  case _ => value == Null)
    ensures BuildDocument(movieId, p).movieId == movieId && BuildDocument(movieId, p).updatedAt == Clock
  {}

  function PublishedFlag(p: Payload): Json {
    Get(p, "is_published", Bool(true))
  }

  function PublishedAt(p: Payload): Json {
    var at := Get(p, "published_at", Null);
    if at.Truthy() then at else Clock
  }

  datatype Route = Reindex | Publish | Ignore

  function RouteOf(action: string): Route {
    if action == "created" || action == "updated" then Reindex
    else if action == "published" then Publish
    else Ignore
  }

  /** What one delivery does to the document of its movie. Publishing a document that is not there fails and is
      dropped. */
  function DeliverTo(doc: Option<Document>, e: Event): Option<Document> {
    match RouteOf(e.action)
    case Reindex => Some(BuildDocument(e.movieId, e.payload))
    case Publish =>
      if doc.None? then None
      else Some(doc.value.(isPublished := PublishedFlag(e.payload), publishedAt := PublishedAt(e.payload)))
    case Ignore => doc
  }

  function Deliver(index: Index, e: Event): Index {
    var doc := DeliverTo(Lookup(index, e.movieId), e);
    if doc.None? then index else index[e.movieId := doc.value]
  }

  function DeliverAll(index: Index, log: seq<Event>): Index
    decreases log
  {
    if log == [] then index else DeliverAll(Deliver(index, log[0]), log[1..])
  }

  // ----- Redelivery -----

  lemma EarlyCopyOnDocument(doc: Option<Document>, e: Event, f: Event)
    ensures DeliverTo(DeliverTo(DeliverTo(doc, e), f), e) == DeliverTo(DeliverTo(doc, f), e)
  {}

  lemma SameLookups(a: Index, b: Index)
    requires forall id :: Lookup(a, id) == Lookup(b, id)
    ensures a == b
  {
    forall id ensures id in a <==> id in b {
      assert Lookup(a, id) == Lookup(b, id);
    }
    forall id | id in a ensures a[id] == b[id] {
      assert Lookup(a, id) == Lookup(b, id);
    }
  }

  lemma DeliverAt(index: Index, e: Event, id: string)
    ensures Lookup(Deliver(index, e), id) ==
              if id == e.movieId then DeliverTo(Lookup(index, id), e) else Lookup(index, id)
  {}

  /** Delivering an event early does no harm when it is delivered again later. */
  lemma EarlyCopyIsAbsorbed(index: Index, e: Event, f: Event)
    ensures Deliver(Deliver(Deliver(index, e), f), e) == Deliver(Deliver(index, f), e)
  {
    forall id
      ensures Lookup(Deliver(Deliver(Deliver(index, e), f), e), id) == Lookup(Deliver(Deliver(index, f), e), id)
    {
      DeliverAt(index, e, id);
      DeliverAt(index, f, id);
      DeliverAt(Deliver(index, e), f, id);
      DeliverAt(Deliver(index, f), e, id);
      DeliverAt(Deliver(Deliver(index, e), f), e, id);
      EarlyCopyOnDocument(Lookup(index, id), e, f);
      EarlyCopyOnDocument(Lookup(index, id), e, e);
    }
    SameLookups(Deliver(Deliver(Deliver(index, e), f), e), Deliver(Deliver(index, f), e));
  }

  lemma {:induction false} CopyOfComingEventIsAbsorbed(index: Index, e: Event, rest: seq<Event>)
    requires e in rest
    ensures DeliverAll(Deliver(index, e), rest) == DeliverAll(index, rest)
    decreases rest
  {
    var f := rest[0];
    if f == e {
      EarlyCopyIsAbsorbed(index, e, e);
      assert Deliver(Deliver(index, e), e) == Deliver(index, e);
    } else {
      calc {
        DeliverAll(Deliver(index, e), rest);
        DeliverAll(Deliver(Deliver(index, e), f), rest[1..]);
        { CopyOfComingEventIsAbsorbed(Deliver(Deliver(index, e), f), e, rest[1..]); }
        DeliverAll(Deliver(Deliver(Deliver(index, e), f), e), rest[1..]);
        { EarlyCopyIsAbsorbed(index, e, f); }
        DeliverAll(Deliver(Deliver(index, f), e), rest[1..]);
        { CopyOfComingEventIsAbsorbed(Deliver(index, f), e, rest[1..]); }
        DeliverAll(index, rest);
      }
    }
  }

  lemma {:induction false} DeliverAllAppend(index: Index, log: seq<Event>, e: Event)
    ensures DeliverAll(index, log + [e]) == Deliver(DeliverAll(index, log), e)
    decreases log
  {
    if log == [] {
      assert [e][1..] == [];
    } else {
      assert (log + [e])[1..] == log[1..] + [e];
      DeliverAllAppend(Deliver(index, log[0]), log[1..], e);
    }
  }

  /** The consumer: an append-only log, the offset of the next event, the index. */
  datatype Consumer = Consumer(log: seq<Event>, offset: nat, index: Index)

  datatype Step =
    | Append(e: Event)
    | Consume
    | Rewind(to: nat)

  predicate Enabled(c: Consumer, step: Step) {
    match step
    case Append(_) => true
    case Consume => c.offset < |c.log|
    case Rewind(to) => to <= c.offset
  }

  function Apply(c: Consumer, step: Step): Consumer
    requires Enabled(c, step)
  {
    match step
    case Append(e) => c.(log := c.log + [e])
    case Consume => Consumer(c.log, c.offset + 1, Deliver(c.index, c.log[c.offset]))
    case Rewind(to) => c.(offset := to)
  }

  predicate ValidRun(steps: seq<Step>)
    decreases |steps|, 0
  {
    steps == [] || (ValidRun(steps[..|steps| - 1]) && Enabled(Exec(steps[..|steps| - 1]), steps[|steps| - 1]))
  }

  function Exec(steps: seq<Step>): Consumer
    requires ValidRun(steps)
    decreases |steps|, 1
  {
    if steps == [] then Consumer([], 0, map[]) else
      Apply(Exec(steps[..|steps| - 1]), steps[|steps| - 1])
  }

  /** From here, and after any further rewind, reading on to the end gives what one pass gives. */
  ghost predicate OnCourse(c: Consumer) {
    && c.offset <= |c.log|
    && forall o :: 0 <= o <= c.offset ==> DeliverAll(c.index, c.log[o..]) == DeliverAll(map[], c.log)
  }

  /** Delivering the next event leaves what any earlier suffix comes to, and what the rest comes to. */
  lemma NextIsAbsorbed(index: Index, log: seq<Event>, offset: nat, o: nat)
    requires offset < |log| && o <= offset + 1
    ensures DeliverAll(Deliver(index, log[offset]), log[o..]) ==
              DeliverAll(index, log[if o <= offset then o else offset..])
  {
    if o <= offset {
      assert log[o..][offset - o] == log[offset];
      CopyOfComingEventIsAbsorbed(index, log[offset], log[o..]);
    } else {
      assert log[offset..][1..] == log[o..];
    }
  }

  lemma ConsumeStaysOnCourse(c: Consumer)
    requires OnCourse(c) && c.offset < |c.log|
    ensures OnCourse(Apply(c, Consume))
  {
    forall o | 0 <= o <= c.offset + 1
      ensures DeliverAll(Deliver(c.index, c.log[c.offset]), c.log[o..]) == DeliverAll(map[], c.log)
    {
      NextIsAbsorbed(c.index, c.log, c.offset, o);
    }
  }

  lemma AppendStaysOnCourse(c: Consumer, e: Event)
    requires OnCourse(c)
    ensures OnCourse(Apply(c, Append(e)))
  {
    DeliverAllAppend(map[], c.log, e);
    forall o | 0 <= o <= c.offset
      ensures DeliverAll(c.index, (c.log + [e])[o..]) == DeliverAll(map[], c.log + [e])
    {
      assert (c.log + [e])[o..] == c.log[o..] + [e];
      DeliverAllAppend(c.index, c.log[o..], e);
    }
  }

  /** Convergence: however often the consumer rewinds, and however far, consuming the rest of the log from where it
      stands gives exactly the index that one in-order pass over the whole log gives. */
  lemma {:induction false} RedeliveryConverges(steps: seq<Step>)
    requires ValidRun(steps)
    ensures OnCourse(Exec(steps))
    ensures var c := Exec(steps); DeliverAll(c.index, c.log[c.offset..]) == DeliverAll(map[], c.log)
  {
    if steps != [] {
      var n := |steps| - 1;
      RedeliveryConverges(steps[..n]);
      var c := Exec(steps[..n]);
      match steps[n]
      case Append(e) => AppendStaysOnCourse(c, e);
      case Consume => ConsumeStaysOnCourse(c);
      case Rewind(to) =>
    }
  }

  // ----- Replaying one topic alone -----

  /** Each topic carries one kind of event, and has an offset of its own. */
  predicate OneTopic(replay: seq<Event>, route: Route) {
    forall i :: 0 <= i < |replay| ==> RouteOf(replay[i].action) == route
  }

  function LastFor(replay: seq<Event>, id: string): Option<Event> {
    if replay == [] then None
    else if replay[|replay| - 1].movieId == id then Some(replay[|replay| - 1])
    else LastFor(replay[..|replay| - 1], id)
  }

  function DeliverLast(doc: Option<Document>, last: Option<Event>): Option<Document> {
    if last.None? then doc else DeliverTo(doc, last.value)
  }

  lemma LaterOfOneKindWins(doc: Option<Document>, e: Event, f: Event)
    requires RouteOf(e.action) == RouteOf(f.action) && e.movieId == f.movieId
    ensures DeliverTo(DeliverTo(doc, e), f) == DeliverTo(doc, f)
  {}

  lemma LastForIsThere(replay: seq<Event>, id: string)
    requires LastFor(replay, id).Some?
    ensures LastFor(replay, id).value in replay && LastFor(replay, id).value.movieId == id
  {
    if replay[|replay| - 1].movieId != id {
      LastForIsThere(replay[..|replay| - 1], id);
    }
  }

  /** Of one topic's events only the last for a movie counts. */
  lemma {:induction false} ReplayAt(index: Index, replay: seq<Event>, route: Route, id: string)
    requires OneTopic(replay, route)
    ensures Lookup(DeliverAll(index, replay), id) == DeliverLast(Lookup(index, id), LastFor(replay, id))
  {
    if replay != [] {
      var n := |replay| - 1;
      var rest, e := replay[..n], replay[n];
      assert replay == rest + [e];
      ReplayAt(index, rest, route, id);
      DeliverAllAppend(index, rest, e);
      DeliverAt(DeliverAll(index, rest), e, id);
      if e.movieId == id && LastFor(rest, id).Some? {
        LastForIsThere(rest, id);
        LaterOfOneKindWins(Lookup(index, id), LastFor(rest, id).value, e);
      }
    }
  }

  /** The last replayed event of every movie says what its document says already. */
  ghost predicate SaysNothingNew(index: Index, replay: seq<Event>) {
    forall id :: DeliverLast(Lookup(index, id), LastFor(replay, id)) == Lookup(index, id)
  }

  /** Rewinding one topic alone, once everything has been read, is harmless exactly when the last event it replays for
      each movie says nothing new. */
  lemma TopicReplayHarmlessIff(index: Index, replay: seq<Event>, route: Route)
    requires OneTopic(replay, route)
    ensures DeliverAll(index, replay) == index <==> SaysNothingNew(index, replay)
  {
    forall id
      ensures Lookup(DeliverAll(index, replay), id) == DeliverLast(Lookup(index, id), LastFor(replay, id))
    {
      ReplayAt(index, replay, route, id);
    }
    if SaysNothingNew(index, replay) {
      SameLookups(DeliverAll(index, replay), index);
    }
  }

  /** It is not always so: a replayed creation puts back the title a movie had before it was updated. */
  lemma ReplayedCreationUndoesUpdate(id: string, p: Payload, q: Payload) returns (log: seq<Event>)
    requires Get(p, "title", Str("")) != Get(q, "title", Str(""))
    ensures log == [Event(id, "created", p), Event(id, "updated", q)]
    ensures OneTopic([log[0]], Reindex)
    ensures DeliverAll(DeliverAll(map[], log), [log[0]]) != DeliverAll(map[], log)
  {
    var created, updated := Event(id, "created", p), Event(id, "updated", q);
    log := [created, updated];
    assert log == [] + [created] + [updated] && [created] == [] + [created];
    DeliverAllAppend(map[], [], created);
    DeliverAllAppend(map[], [created], updated);
    var index := DeliverAll(map[], log);
    DeliverAllAppend(index, [], created);
    assert index[id].title == Get(q, "title", Str("")) && Deliver(index, created)[id].title == Get(p, "title", Str(""));
  }
}
