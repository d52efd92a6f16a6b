/** Publication safety: catalog calls interleaved at every await, events lost, repeated and reordered. */
module Publication {
  import opened Common
  import opened MovieEvents
  import opened Catalog

  datatype Kind = OfCreate | OfUpdate(change: MovieUpdate) | OfPublish(now: string)

  /** Where a call stands between two awaits. */
  datatype Phase =
    | Loaded(kind: Kind, row: Row)   // holds the row as it was read, nothing written yet
    | Committed(kind: Kind)          // its columns are written, the row is to be read again
    | Ready(event: Event)            // holds the event built from that second reading

  datatype Call = Call(id: string, phase: Phase)

  /** `network` keeps every event ever sent: each may arrive any number of times, in any order, or never. */
  datatype State = State(rows: Rows, calls: map<nat, Call>, network: set<Event>, index: Index)

  datatype Step =
    | BeginCreate(call: nat, id: string, data: MovieCreate)
    | BeginUpdate(call: nat, id: string, change: MovieUpdate)
    | BeginPublish(call: nat, id: string, now: string)
    | CommitRow(call: nat)
    | Refresh(call: nat)
    | Send(call: nat)
    | Abandon(call: nat)   // an exception, a swallowed send failure, a crash
    | Arrive(event: Event)

  /** The columns a flush writes: those given a value that differs from the one loaded. */
  function Flush(current: Row, loaded: Row, kind: Kind): Row {
    match kind
    case OfCreate => current
    case OfUpdate(change) =>
      var wanted := Updated(loaded, change);
      current.(title := if wanted.title != loaded.title then wanted.title else current.title,
               description := if wanted.description != loaded.description then wanted.description
                              else current.description,
               year := if wanted.year != loaded.year then wanted.year else current.year,
               duration := if wanted.duration != loaded.duration then wanted.duration else current.duration,
               rating := if wanted.rating != loaded.rating then wanted.rating else current.rating)
    case OfPublish(now) => current.(isPublished := true, publishedAt := Some(now))
  }

  function Notice(id: string, row: Row, kind: Kind): Event {
    match kind
    case OfCreate => CreationNotice(id, row)
    case OfUpdate(_) => UpdateNotice(id, row)
    case OfPublish(_) => PublicationNotice(id, row)
  }

  predicate At(s: State, call: nat, wanted: Phase -> bool) {
    call in s.calls && s.calls[call].id in s.rows && wanted(s.calls[call].phase)
  }

  predicate Enabled(s: State, step: Step) {
    match step
    case BeginCreate(call, id, _) => call !in s.calls && id !in s.rows
    case BeginUpdate(call, id, _) => call !in s.calls && id in s.rows
    case BeginPublish(call, id, _) => call !in s.calls && id in s.rows && !s.rows[id].isPublished
    case CommitRow(call) => At(s, call, (p: Phase) => p.Loaded?)
    case Refresh(call) => At(s, call, (p: Phase) => p.Committed?)
    case Send(call) => At(s, call, (p: Phase) => p.Ready?)
    case Abandon(call) => call in s.calls
    case Arrive(event) => event in s.network
  }

  function Apply(s: State, step: Step): State
    requires Enabled(s, step)
  {
    match step
    case BeginCreate(call, id, data) =>
      s.(rows := s.rows[id := NewRow(data)], calls := s.calls[call := Call(id, Committed(OfCreate))])
    case BeginUpdate(call, id, change) =>
      s.(calls := s.calls[call := Call(id, Loaded(OfUpdate(change), s.rows[id]))])
    case BeginPublish(call, id, now) =>
      s.(calls := s.calls[call := Call(id, Loaded(OfPublish(now), s.rows[id]))])
    case CommitRow(call) =>
      var Call(id, phase) := s.calls[call];
      s.(rows := s.rows[id := Flush(s.rows[id], phase.row, phase.kind)],
         calls := s.calls[call := Call(id, Committed(phase.kind))])
    case Refresh(call) =>
      var Call(id, phase) := s.calls[call];
      s.(calls := s.calls[call := Call(id, Ready(Notice(id, s.rows[id], phase.kind)))])
    case Send(call) =>
      s.(network := s.network + {s.calls[call].phase.event}, calls := s.calls - {call})
    case Abandon(call) => s.(calls := s.calls - {call})
    case Arrive(event) => s.(index := Deliver(s.index, event))
  }

  predicate ValidRun(steps: seq<Step>)
    decreases |steps|, 0
  {
    steps == [] || (ValidRun(steps[..|steps| - 1]) && Enabled(Exec(steps[..|steps| - 1]), steps[|steps| - 1]))
  }

  function Exec(steps: seq<Step>): State
    requires ValidRun(steps)
    decreases |steps|, 1
  {
    if steps == [] then State(map[], map[], {}, map[]) else
      Apply(Exec(steps[..|steps| - 1]), steps[|steps| - 1])
  }

  // ----- A call with nothing in between -----

  /** From the second reading of its row on. */
  function Told(s: State, call: nat): State
    requires At(s, call, (p: Phase) => p.Committed?)
  {
    Apply(Apply(s, Refresh(call)), Send(call))
  }

  lemma LoneCreateIsCreate(s: State, call: nat, id: string, data: MovieCreate)
    requires Enabled(s, BeginCreate(call, id, data))
    ensures Told(Apply(s, BeginCreate(call, id, data)), call) ==
              s.(rows := s.rows[id := NewRow(data)], network := s.network + {CreationNotice(id, NewRow(data))})
  {
    var begun := Apply(s, BeginCreate(call, id, data));
    assert Apply(begun, Refresh(call)).calls - {call} == s.calls;
  }

  lemma LoneUpdateIsUpdate(s: State, call: nat, id: string, change: MovieUpdate)
    requires Enabled(s, BeginUpdate(call, id, change))
    ensures var row := Updated(s.rows[id], change);
            Told(Apply(Apply(s, BeginUpdate(call, id, change)), CommitRow(call)), call) ==
              s.(rows := s.rows[id := row], network := s.network + {UpdateNotice(id, row)})
  {
    var committed := Apply(Apply(s, BeginUpdate(call, id, change)), CommitRow(call));
    assert Apply(committed, Refresh(call)).calls - {call} == s.calls;
  }

  lemma LonePublishIsPublish(s: State, call: nat, id: string, now: string)
    requires Enabled(s, BeginPublish(call, id, now))
    ensures var row := WithPublication(s.rows[id], now);
            Told(Apply(Apply(s, BeginPublish(call, id, now)), CommitRow(call)), call) ==
              s.(rows := s.rows[id := row], network := s.network + {PublicationNotice(id, row)})
  {
    var committed := Apply(Apply(s, BeginPublish(call, id, now)), CommitRow(call));
    assert Apply(committed, Refresh(call)).calls - {call} == s.calls;
  }

  /** What an update leaves in a column that others may have written since it loaded the row: its own value if that
      differs from the one it loaded, and theirs otherwise. */
  function Merged<T(==)>(wanted: Option<T>, loaded: T, current: T): T {
    if wanted.Some? && wanted.value != loaded then wanted.value else current
  }

  /** Two updates that loaded the same row, `a` committed first: the second undoes the first only in the columns that it
      changes itself. A publication committed between is kept by both. */
  lemma OverlappingUpdatesMerge(row: Row, a: MovieUpdate, b: MovieUpdate, now: string)
    ensures var first := Flush(Flush(row, row, OfUpdate(a)), row, OfPublish(now));
            var last := Flush(first, row, OfUpdate(b));
            && last.isPublished && last.publishedAt == Some(now)
            && last.title == Merged(b.title, row.title, Merged(a.title, row.title, row.title))
            && last.year == Merged(b.year, row.year, Merged(a.year, row.year, row.year))
            && (b.description.None? || b.description == row.description ==>
                  last.description == if a.description.Some? then a.description else row.description)
            && (b.description.Some? && b.description != row.description ==> last.description == b.description)
            && (b.duration.None? || b.duration == row.duration ==>
                  last.duration == if a.duration.Some? then a.duration else row.duration)
            && (b.duration.Some? && b.duration != row.duration ==> last.duration == b.duration)
            && (b.rating.None? || b.rating == row.rating ==>
                  last.rating == if a.rating.Some? then a.rating else row.rating)
            && (b.rating.Some? && b.rating != row.rating ==> last.rating == b.rating)
  {}

  // ----- Publication safety -----

  predicate IsPublished(rows: Rows, id: string) {
    id in rows && rows[id].isPublished
  }

  /** Delivering the event would show its movie as published. */
  predicate Claims(e: Event) {
    match RouteOf(e.action)
    case Reindex => Get(e.payload, "is_published", Bool(false)) == Bool(true)
    case Publish => PublishedFlag(e.payload) == Bool(true)
    case Ignore => false
  }

  /** Every claim of publication, made or about to be made, is already true. */
  ghost predicate NoFalseClaim(s: State) {
    && (forall e :: e in s.network && Claims(e) ==> IsPublished(s.rows, e.movieId))
    && (forall c :: c in s.calls ==> PhaseTrue(s.rows, s.calls[c]))
    && (forall id :: id in s.index && s.index[id].isPublished == Bool(true) ==> IsPublished(s.rows, id))
  }

  predicate PhaseTrue(rows: Rows, call: Call) {
    match call.phase
    case Loaded(_, _) => true
    case Committed(kind) => kind.OfPublish? ==> IsPublished(rows, call.id)
    case Ready(e) => Claims(e) ==> IsPublished(rows, e.movieId)
  }

  lemma NoticeIsTrue(rows: Rows, id: string, kind: Kind)
    requires id in rows && (kind.OfPublish? ==> rows[id].isPublished)
    ensures Claims(Notice(id, rows[id], kind)) ==> IsPublished(rows, Notice(id, rows[id], kind).movieId)
  {}

  /** Rows are never unpublished, so a claim once true stays true. */
  lemma ClaimsStayTrue(s: State, rows: Rows)
    requires NoFalseClaim(s)
    requires forall id :: IsPublished(s.rows, id) ==> IsPublished(rows, id)
    ensures NoFalseClaim(s.(rows := rows))
  {}

  lemma DeliveryShowsClaims(index: Index, e: Event, id: string)
    requires id in Deliver(index, e) && Deliver(index, e)[id].isPublished == Bool(true)
    ensures (id in index && index[id].isPublished == Bool(true)) || (id == e.movieId && Claims(e))
  {}

  lemma StepMakesNoFalseClaim(s: State, step: Step)
    requires NoFalseClaim(s) && Enabled(s, step)
    ensures NoFalseClaim(Apply(s, step))
  {
    match step
    case BeginCreate(call, id, data) => ClaimsStayTrue(s, s.rows[id := NewRow(data)]);
    case BeginUpdate(_, _, _) =>
    case BeginPublish(_, _, _) =>
    case CommitRow(call) =>
      var id := s.calls[call].id;
      ClaimsStayTrue(s, s.rows[id := Flush(s.rows[id], s.calls[call].phase.row, s.calls[call].phase.kind)]);
    case Refresh(call) => NoticeIsTrue(s.rows, s.calls[call].id, s.calls[call].phase.kind);
    case Send(_) =>
    case Abandon(_) =>
    case Arrive(e) =>
      forall id | id in Deliver(s.index, e) && Deliver(s.index, e)[id].isPublished == Bool(true)
        ensures IsPublished(s.rows, id)
      {
        DeliveryShowsClaims(s.index, e, id);
      }
  }

  /** Whatever is lost, repeated or reordered on the way, the index shows a movie as published only if its row is. */
  lemma {:induction false} PublicationSafety(steps: seq<Step>)
    requires ValidRun(steps)
    ensures NoFalseClaim(Exec(steps))
    ensures forall id :: id in Exec(steps).index && Exec(steps).index[id].isPublished == Bool(true) ==>
              IsPublished(Exec(steps).rows, id)
  {
    if steps != [] {
      var n := |steps| - 1;
      PublicationSafety(steps[..n]);
      StepMakesNoFalseClaim(Exec(steps[..n]), steps[n]);
    }
  }
}
