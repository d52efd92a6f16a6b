/** The ten-minute transcoding job: the ten oldest waiting videos are sent to workers, then running tasks are polled. */
module Transcoding {
  import opened Common

  datatype Progress = Scheduled | Processing | Completed | Failed

  datatype Video = Video(id: nat, createdAt: real, uploaded: bool, transcoding: Option<Progress>, task: Option<nat>)

  const LIMIT := 10

  // ----- The queue -----

  predicate Waiting(v: Video) {
    v.uploaded && v.transcoding.None?
  }

  /** The ids of waiting videos; rows are kept here in the order of their upload times, which `ORDER BY` sorts by. */
  function Queue(rows: seq<Video>): seq<nat> {
    if rows == [] then [] else
      var n := |rows| - 1;
      Queue(rows[..n]) + if Waiting(rows[n]) then [rows[n].id] else []
  }

  function Oldest(rows: seq<Video>): seq<nat> {
    if |Queue(rows)| <= LIMIT then Queue(rows) else Queue(rows)[..LIMIT]
  }

  ghost predicate UniqueIds(rows: seq<Video>) {
    forall i, j :: 0 <= i < j < |rows| ==> rows[i].id != rows[j].id
  }

  ghost predicate ByAge(rows: seq<Video>) {
    forall i, j :: 0 <= i < j < |rows| ==> rows[i].createdAt < rows[j].createdAt
  }

  lemma {:induction false} QueueConcat(rows: seq<Video>, more: seq<Video>)
    ensures Queue(rows + more) == Queue(rows) + Queue(more)
  {
    if more == [] {
      assert rows + more == rows;
    } else {
      var n := |more| - 1;
      assert (rows + more)[..|rows| + n] == rows + more[..n];
      QueueConcat(rows, more[..n]);
    }
  }

  /** A waiting video stands in the queue behind the waiting videos before it. */
  lemma PlaceInQueue(rows: seq<Video>, t: nat)
    requires t < |rows| && Waiting(rows[t])
    ensures Ahead(rows, t) < |Queue(rows)| && Queue(rows)[Ahead(rows, t)] == rows[t].id
    ensures Queue(rows)[..Ahead(rows, t)] == Queue(rows[..t])
  {
    assert rows[..t + 1][..t] == rows[..t];
    assert rows == rows[..t + 1] + rows[t + 1..];
    QueueConcat(rows[..t + 1], rows[t + 1..]);
  }

  lemma {:induction false} QueueHoldsWaiting(rows: seq<Video>, k: nat) returns (t: nat)
    requires k < |Queue(rows)|
    ensures t < |rows| && Waiting(rows[t]) && rows[t].id == Queue(rows)[k] && Ahead(rows, t) == k
  {
    var n := |rows| - 1;
    if k < |Queue(rows[..n])| {
      t := QueueHoldsWaiting(rows[..n], k);
      assert rows[..n][..t] == rows[..t];
    } else {
      t := n;
    }
  }

  /** How many waiting videos are older than the one at `t`. */
  function Ahead(rows: seq<Video>, t: nat): nat
    requires t <= |rows|
  {
    |Queue(rows[..t])|
  }

  lemma {:induction false} QueueMonotone(rows: seq<Video>, t: nat, u: nat)
    requires t <= u <= |rows|
    ensures Ahead(rows, t) <= Ahead(rows, u)
  {
    assert rows[..u] == rows[..t] + rows[t..u];
    QueueConcat(rows[..t], rows[t..u]);
  }

  /** The job picks as many waiting videos as the limit allows, each once, and leaves none that is older than one it
      picks. */
  lemma PicksTheOldest(rows: seq<Video>, t: nat)
    requires UniqueIds(rows) && ByAge(rows) && t < |rows| && rows[t].uploaded && rows[t].transcoding == None
    ensures rows[t].id in Oldest(rows) <==> Ahead(rows, t) < 10
    ensures rows[t].id in Oldest(rows) ==>
              forall u :: 0 <= u < |rows| && Waiting(rows[u]) && rows[u].createdAt <= rows[t].createdAt ==>
                rows[u].id in Oldest(rows)
  {
    PlaceInQueue(rows, t);
    if rows[t].id in Oldest(rows) {
      var k :| 0 <= k < |Oldest(rows)| && Oldest(rows)[k] == rows[t].id;
      var w := QueueHoldsWaiting(rows, k);
      assert w == t;
    }
    forall u | 0 <= u < |rows| && Waiting(rows[u]) &&
               rows[u].createdAt <= rows[t].createdAt && rows[t].id in Oldest(rows)
      ensures rows[u].id in Oldest(rows)
    {
      assert u <= t;
      QueueMonotone(rows, u, t);
      PlaceInQueue(rows, u);
      assert Oldest(rows)[Ahead(rows, u)] == rows[u].id;
    }
  }

  /** Some video with this id is uploaded and has no transcoding status yet. */
  predicate AwaitsTranscoding(rows: seq<Video>, id: nat) {
    exists t :: 0 <= t < |rows| && rows[t].id == id && rows[t].uploaded && rows[t].transcoding == None
  }

  /** At most ten are picked, and all of them wait; while there is room none that waits is left out. */
  lemma PicksWaiting(rows: seq<Video>)
    ensures |Oldest(rows)| <= 10
    ensures forall id :: id in Oldest(rows) ==> AwaitsTranscoding(rows, id)
    ensures |Oldest(rows)| < 10 ==> forall id :: AwaitsTranscoding(rows, id) ==> id in Oldest(rows)
  {
    forall id | id in Oldest(rows)
      ensures AwaitsTranscoding(rows, id)
    {
      var k :| 0 <= k < |Oldest(rows)| && Oldest(rows)[k] == id;
      var t := QueueHoldsWaiting(rows, k);
    }
    forall id | AwaitsTranscoding(rows, id) && |Oldest(rows)| < 10
      ensures id in Oldest(rows)
    {
      var t :| 0 <= t < |rows| && rows[t].id == id && rows[t].uploaded && rows[t].transcoding == None;
      PlaceInQueue(rows, t);
      assert Oldest(rows)[Ahead(rows, t)] == id;
    }
  }

  // ----- Sending -----

  /** `picked` is the list a run hands from its query to its scheduling task. Of the sends, `lost` are those whose
      update failed and `again` those of videos that were past waiting already. */
  datatype State = State(rows: seq<Video>, sent: seq<nat>, lost: seq<nat>, again: seq<nat>, picked: seq<nat>)

  /** `UPDATE ... WHERE id`. */
  function SetScheduled(rows: seq<Video>, id: nat, task: nat): (after: seq<Video>)
    ensures |after| == |rows|
    ensures forall i :: 0 <= i < |rows| ==>
              after[i] == if rows[i].id == id then rows[i].(transcoding := Some(Scheduled), task := Some(task))
                          else rows[i]
  {
    seq(|rows|, i requires 0 <= i < |rows| =>
      if rows[i].id == id then rows[i].(transcoding := Some(Scheduled), task := Some(task)) else rows[i])
  }

  /** Some row with this id is past waiting. */
  predicate Assigned(rows: seq<Video>, id: nat) {
    exists i :: 0 <= i < |rows| && rows[i].id == id && rows[i].transcoding.Some?
  }

  /** A send that fails skips the video; an update that fails leaves its row as it was though it was sent. */
  function SendOne(s: State, id: nat, badSends: set<nat>, badUpdates: set<nat>): (t: State)
    ensures |t.rows| == |s.rows|
  {
    if id in badSends then s
    else if id in badUpdates then s.(sent := s.sent + [id], lost := s.lost + [id])
    else s.(rows := SetScheduled(s.rows, id, |s.sent|), sent := s.sent + [id],
            again := s.again + if Assigned(s.rows, id) then [id] else [])
  }

  function Dispatch(s: State, ids: seq<nat>, badSends: set<nat>, badUpdates: set<nat>): (t: State)
    ensures |t.rows| == |s.rows|
  {
    if ids == [] then s else
      var n := |ids| - 1;
      SendOne(Dispatch(s, ids[..n], badSends, badUpdates), ids[n], badSends, badUpdates)
  }

  // ----- Polling -----

  predicate InProgress(v: Video) {
    v.transcoding == Some(Scheduled) || v.transcoding == Some(Processing)
  }

  /** `results` has the tasks that are ready, true for the successful ones. */
  predicate Ready(v: Video, results: map<nat, bool>) {
    InProgress(v) && v.task.Some? && v.task.value in results
  }

  /** An outcome whose update fails changes nothing. */
  function Poll(v: Video, results: map<nat, bool>, badUpdates: set<nat>): Video {
    if Ready(v, results) && v.id !in badUpdates then
      v.(transcoding := Some(if results[v.task.value] then Completed else Failed))
    else v
  }

  function PollAll(rows: seq<Video>, results: map<nat, bool>, badUpdates: set<nat>): (after: seq<Video>)
    ensures |after| == |rows| && forall i :: 0 <= i < |rows| ==> after[i] == Poll(rows[i], results, badUpdates)
  {
    seq(|rows|, i requires 0 <= i < |rows| => Poll(rows[i], results, badUpdates))
  }

  // ----- Runs -----

  datatype Step =
    | Arrive(video: Video)
    | MarkUploaded(id: nat)
    | Run(badSends: set<nat>, badUpdates: set<nat>)
    | Retry(badSends: set<nat>, badUpdates: set<nat>)   // the scheduling task starts over with the same list
    | Monitor(results: map<nat, bool>, badUpdates: set<nat>)

  function Insert(rows: seq<Video>, v: Video): (after: seq<Video>)
    ensures |after| == |rows| + 1
    ensures forall w :: w in after <==> w == v || w in rows
  {
    if rows == [] || rows[|rows| - 1].createdAt < v.createdAt then rows + [v]
    else
      var n := |rows| - 1;
      assert rows == rows[..n] + [rows[n]];
      Insert(rows[..n], v) + [rows[n]]
  }

  function SetUploaded(rows: seq<Video>, id: nat): (after: seq<Video>)
    ensures |after| == |rows|
    ensures forall i :: 0 <= i < |rows| ==> after[i] == if rows[i].id == id then rows[i].(uploaded := true) else rows[i]
  {
    seq(|rows|, i requires 0 <= i < |rows| => if rows[i].id == id then rows[i].(uploaded := true) else rows[i])
  }

  predicate Enabled(s: State, step: Step) {
    step.Arrive? ==>
      && step.video.transcoding.None? && step.video.task.None?
      && forall v :: v in s.rows ==> v.id != step.video.id && v.createdAt != step.video.createdAt
  }

  function Apply(s: State, step: Step): State {
    match step
    case Arrive(video) => s.(rows := Insert(s.rows, video))
    case MarkUploaded(id) => s.(rows := SetUploaded(s.rows, id))
    case Run(badSends, badUpdates) =>
      Dispatch(s.(picked := Oldest(s.rows)), Oldest(s.rows), badSends, badUpdates)
    case Retry(badSends, badUpdates) => Dispatch(s, s.picked, badSends, badUpdates)
    case Monitor(results, badUpdates) => s.(rows := PollAll(s.rows, results, badUpdates), picked := [])
  }

  predicate ValidRun(steps: seq<Step>)
    decreases |steps|, 0
  {
    steps == [] || (ValidRun(steps[..|steps| - 1]) && Enabled(Exec(steps[..|steps| - 1]), steps[|steps| - 1]))
  }

  function Exec(steps: seq<Step>): State
    requires ValidRun(steps)
    decreases |steps|, 1
  {
    if steps == [] then State([], [], [], [], []) else Apply(Exec(steps[..|steps| - 1]), steps[|steps| - 1])
  }

  // ----- What every run keeps -----

  predicate Advances(before: Option<Progress>, after: Option<Progress>) {
    || before == after
    || (before == None && after == Some(Scheduled))
    || (before == Some(Scheduled) && after in {Some(Completed), Some(Failed)})
  }

  /** Everything about a row but its upload and its transcoding. */
  predicate SameVideo(v: Video, w: Video) {
    v.id == w.id && v.createdAt == w.createdAt
  }

  /** The list a retry would send again: videos that still wait or were scheduled, each once. */
  ghost predicate PickedSound(s: State) {
    && NoRepeats(s.picked)
    && (forall k :: 0 <= k < |s.picked| ==> HasRow(s.rows, s.picked[k]))
    && (forall v :: v in s.rows && v.id in s.picked ==> v.transcoding == None || v.transcoding == Some(Scheduled))
  }

  predicate HasRow(rows: seq<Video>, id: nat) {
    exists i :: 0 <= i < |rows| && rows[i].id == id
  }

  ghost predicate NoRepeats(ids: seq<nat>) {
    forall i, j :: 0 <= i < j < |ids| ==> ids[i] != ids[j]
  }

  ghost predicate Sound(s: State) {
    && UniqueIds(s.rows) && ByAge(s.rows) && PickedSound(s)
    && forall v :: v in s.rows ==> v.transcoding != Some(Processing)
  }

  lemma NewestKeepsOrder(rows: seq<Video>, v: Video)
    requires UniqueIds(rows) && ByAge(rows)
    requires forall w :: w in rows ==> w.id != v.id && w.createdAt < v.createdAt
    ensures UniqueIds(rows + [v]) && ByAge(rows + [v])
  {
    forall i | 0 <= i < |rows|
      ensures rows[i].id != v.id && rows[i].createdAt < v.createdAt
    {
      assert rows[i] in rows;
    }
  }

  lemma LastIsNewest(rows: seq<Video>, w: Video)
    requires UniqueIds(rows) && ByAge(rows) && rows != [] && w in rows[..|rows| - 1]
    ensures w.id != rows[|rows| - 1].id && w.createdAt < rows[|rows| - 1].createdAt && w in rows
  {
    var i :| 0 <= i < |rows| - 1 && rows[i] == w;
  }

  lemma {:induction false} InsertKeepsOrder(rows: seq<Video>, v: Video)
    requires UniqueIds(rows) && ByAge(rows)
    requires forall w :: w in rows ==> w.id != v.id && w.createdAt != v.createdAt
    ensures UniqueIds(Insert(rows, v)) && ByAge(Insert(rows, v))
  {
    var n := |rows| - 1;
    if rows == [] {
      NewestKeepsOrder(rows, v);
    } else if rows[n].createdAt < v.createdAt {
      forall w | w in rows
        ensures w.createdAt < v.createdAt
      {
        if w in rows[..n] {
          LastIsNewest(rows, w);
        }
      }
      NewestKeepsOrder(rows, v);
    } else {
      forall w | w in rows[..n]
        ensures w.id != rows[n].id && w.createdAt < rows[n].createdAt && w in rows
      {
        LastIsNewest(rows, w);
      }
      assert rows[n] in rows;
      InsertKeepsOrder(rows[..n], v);
      NewestKeepsOrder(Insert(rows[..n], v), rows[n]);
    }
  }

  lemma {:induction false} DispatchExtendsSent(s: State, ids: seq<nat>, badSends: set<nat>, badUpdates: set<nat>)
    ensures s.sent <= Dispatch(s, ids, badSends, badUpdates).sent
    ensures forall id :: id in Dispatch(s, ids, badSends, badUpdates).sent ==> id in s.sent || id in ids
  {
    if ids != [] {
      DispatchExtendsSent(s, ids[..|ids| - 1], badSends, badUpdates);
    }
  }

  /** The row is this video, scheduled, with the number of one of its own sends as its task. */
  predicate SentAs(v: Video, w: Video, before: seq<nat>, after: seq<nat>) {
    && SameVideo(v, w) && w.uploaded == v.uploaded && w.transcoding == Some(Scheduled)
    && w.task.Some? && |before| <= w.task.value < |after| && after[w.task.value] == v.id
  }

  lemma SendOneChanges(s: State, id: nat, badSends: set<nat>, badUpdates: set<nat>, i: nat)
    requires i < |s.rows|
    ensures var v, t := s.rows[i], SendOne(s, id, badSends, badUpdates);
            && t.picked == s.picked && s.sent <= t.sent
            && if v.id == id && id !in badSends && id !in badUpdates then SentAs(v, t.rows[i], s.sent, t.sent)
               else t.rows[i] == v
  {}

  /** Only videos on the list change, and they only become scheduled. */
  lemma {:induction false} DispatchChanges(s: State, ids: seq<nat>, badSends: set<nat>, badUpdates: set<nat>, i: nat)
    requires i < |s.rows|
    ensures var v, t := s.rows[i], Dispatch(s, ids, badSends, badUpdates);
            && t.picked == s.picked && s.sent <= t.sent
            && if v.id in ids && v.id !in badSends && v.id !in badUpdates then SentAs(v, t.rows[i], s.sent, t.sent)
               else t.rows[i] == v
  {
    if ids != [] {
      var n := |ids| - 1;
      assert ids == ids[..n] + [ids[n]];
      DispatchChanges(s, ids[..n], badSends, badUpdates, i);
      SendOneChanges(Dispatch(s, ids[..n], badSends, badUpdates), ids[n], badSends, badUpdates, i);
    }
  }

  lemma OldestAreWaiting(rows: seq<Video>, t: nat)
    requires UniqueIds(rows) && t < |rows| && rows[t].id in Oldest(rows)
    ensures Waiting(rows[t])
  {
    var k :| 0 <= k < |Oldest(rows)| && Oldest(rows)[k] == rows[t].id;
    var w := QueueHoldsWaiting(rows, k);
    assert w == t;
  }

  lemma {:induction false} DispatchKeepsPicked(s: State, ids: seq<nat>, badSends: set<nat>, badUpdates: set<nat>)
    ensures Dispatch(s, ids, badSends, badUpdates).picked == s.picked
  {
    if ids != [] {
      DispatchKeepsPicked(s, ids[..|ids| - 1], badSends, badUpdates);
    }
  }

  /** Rows keep their ids, their times and their places, and picked ones stay as a retry may find them. */
  ghost predicate RowsFollow(before: seq<Video>, after: seq<Video>, picked: seq<nat>) {
    && |after| == |before|
    && forall i :: 0 <= i < |before| ==>
         && SameVideo(before[i], after[i])
         && (after[i].transcoding == before[i].transcoding ||
             after[i].transcoding in {Some(Scheduled), Some(Completed), Some(Failed)})
         && (before[i].id in picked ==>
               after[i].transcoding == before[i].transcoding || after[i].transcoding == Some(Scheduled))
  }

  lemma FollowKeepsSound(s: State, r: State)
    requires Sound(s) && RowsFollow(s.rows, r.rows, r.picked) && (r.picked == s.picked || r.picked == [])
    ensures Sound(r)
  {
    forall k | 0 <= k < |r.picked|
      ensures HasRow(r.rows, r.picked[k])
    {
      assert HasRow(s.rows, s.picked[k]);
      var i :| 0 <= i < |s.rows| && s.rows[i].id == s.picked[k];
      assert r.rows[i].id == r.picked[k];
    }
    forall v | v in r.rows
      ensures v.transcoding != Some(Processing)
      ensures v.id in r.picked ==> v.transcoding == None || v.transcoding == Some(Scheduled)
    {
      var i :| 0 <= i < |r.rows| && r.rows[i] == v;
      assert s.rows[i] in s.rows;
    }
  }

  lemma DispatchKeepsSound(s: State, ids: seq<nat>, badSends: set<nat>, badUpdates: set<nat>)
    requires Sound(s)
    ensures Sound(Dispatch(s, ids, badSends, badUpdates))
  {
    var r := Dispatch(s, ids, badSends, badUpdates);
    DispatchKeepsPicked(s, ids, badSends, badUpdates);
    forall i | 0 <= i < |s.rows|
      ensures r.rows[i] == s.rows[i] || (SameVideo(s.rows[i], r.rows[i]) && r.rows[i].transcoding == Some(Scheduled))
    {
      DispatchChanges(s, ids, badSends, badUpdates, i);
    }
    FollowKeepsSound(s, r);
  }

  lemma PickingIsSound(s: State)
    requires Sound(s)
    ensures Sound(s.(picked := Oldest(s.rows)))
  {
    OldestOnce(s.rows);
    forall k | 0 <= k < |Oldest(s.rows)|
      ensures HasRow(s.rows, Oldest(s.rows)[k])
    {
      var t := QueueHoldsWaiting(s.rows, k);
    }
    forall v | v in s.rows && v.id in Oldest(s.rows)
      ensures v.transcoding == None
    {
      var i :| 0 <= i < |s.rows| && s.rows[i] == v;
      OldestAreWaiting(s.rows, i);
    }
  }

  lemma ArriveKeepsSound(s: State, video: Video)
    requires Sound(s) && Enabled(s, Arrive(video))
    ensures Sound(Apply(s, Arrive(video)))
  {
    var after := Insert(s.rows, video);
    InsertKeepsOrder(s.rows, video);
    forall k | 0 <= k < |s.picked|
      ensures HasRow(after, s.picked[k])
    {
      assert HasRow(s.rows, s.picked[k]);
      var i :| 0 <= i < |s.rows| && s.rows[i].id == s.picked[k];
      assert s.rows[i] in after;
      var j :| 0 <= j < |after| && after[j] == s.rows[i];
      assert after[j].id == s.picked[k];
    }
  }

  lemma StepKeepsSound(s: State, step: Step)
    requires Sound(s) && Enabled(s, step)
    ensures Sound(Apply(s, step))
  {
    match step
    case Arrive(video) => ArriveKeepsSound(s, video);
    case MarkUploaded(_) => FollowKeepsSound(s, Apply(s, step));
    case Run(badSends, badUpdates) =>
      PickingIsSound(s);
      DispatchKeepsSound(s.(picked := Oldest(s.rows)), Oldest(s.rows), badSends, badUpdates);
    case Retry(badSends, badUpdates) => DispatchKeepsSound(s, s.picked, badSends, badUpdates);
    case Monitor(_, _) => FollowKeepsSound(s, Apply(s, step));
  }

  lemma {:induction false} RunIsSound(steps: seq<Step>)
    requires ValidRun(steps)
    ensures Sound(Exec(steps))
  {
    if steps != [] {
      RunIsSound(steps[..|steps| - 1]);
      StepKeepsSound(Exec(steps[..|steps| - 1]), steps[|steps| - 1]);
    }
  }

  /** Whatever fails, a video's transcoding status only goes from none to scheduled to completed or failed. */
  lemma StatusOnlyAdvances(steps: seq<Step>, step: Step, i: nat)
    requires ValidRun(steps) && Enabled(Exec(steps), step) && i < |Exec(steps).rows|
    ensures exists j :: 0 <= j < |Apply(Exec(steps), step).rows|
              && SameVideo(Exec(steps).rows[i], Apply(Exec(steps), step).rows[j])
              && Advances(Exec(steps).rows[i].transcoding, Apply(Exec(steps), step).rows[j].transcoding)
  {
    RunIsSound(steps);
    var s := Exec(steps);
    var t := Apply(s, step);
    if step.Arrive? {
      assert s.rows[i] in t.rows;
      var j :| 0 <= j < |t.rows| && t.rows[j] == s.rows[i];
    } else {
      assert s.rows[i] in s.rows;
      if step.Run? {
        DispatchChanges(s.(picked := Oldest(s.rows)), Oldest(s.rows), step.badSends, step.badUpdates, i);
        if s.rows[i].id in Oldest(s.rows) {
          OldestAreWaiting(s.rows, i);
        }
      } else if step.Retry? {
        DispatchChanges(s, s.picked, step.badSends, step.badUpdates, i);
      }
      assert SameVideo(s.rows[i], t.rows[i]) && Advances(s.rows[i].transcoding, t.rows[i].transcoding);
    }
  }

  // ----- Outcomes -----

  /** Step `j` polled this video's task as done, with the outcome its status names. */
  predicate PolledAt(steps: seq<Step>, j: nat, v: Video) {
    && j < |steps| && steps[j].Monitor? && v.id !in steps[j].badUpdates
    && v.task.Some? && v.task.value in steps[j].results
    && ((v.transcoding == Some(Completed) && steps[j].results[v.task.value]) ||
        (v.transcoding == Some(Failed) && !steps[j].results[v.task.value]))
  }

  /** A video that is done was so before the step, with the same task, or the step polled it. */
  lemma DoneBeforeOrPolled(s: State, step: Step, v: Video)
    requires Enabled(s, step) && v in Apply(s, step).rows && v.transcoding in {Some(Completed), Some(Failed)}
    ensures PolledAt([step], 0, v) ||
            exists w :: w in s.rows && w.id == v.id && w.task == v.task && w.transcoding == v.transcoding
  {
    if !step.Arrive? {
      var i :| 0 <= i < |Apply(s, step).rows| && Apply(s, step).rows[i] == v;
      var w := s.rows[i];
      assert w in s.rows;
      if step.Run? {
        DispatchChanges(s.(picked := Oldest(s.rows)), Oldest(s.rows), step.badSends, step.badUpdates, i);
      } else if step.Retry? {
        DispatchChanges(s, s.picked, step.badSends, step.badUpdates, i);
      }
    }
  }

  /** A video is completed only if a poll found its task successful, and failed only if one found it failed. */
  lemma {:induction false} OutcomeByHistory(steps: seq<Step>, v: Video) returns (j: nat)
    requires ValidRun(steps) && v in Exec(steps).rows && v.transcoding in {Some(Completed), Some(Failed)}
    ensures PolledAt(steps, j, v)
  {
    var n := |steps| - 1;
    DoneBeforeOrPolled(Exec(steps[..n]), steps[n], v);
    if PolledAt([steps[n]], 0, v) {
      j := n;
    } else {
      var w :| w in Exec(steps[..n]).rows && w.id == v.id && w.task == v.task && w.transcoding == v.transcoding;
      j := OutcomeByHistory(steps[..n], w);
    }
  }

  // ----- Tasks and uploads -----

  /** A video has a task exactly when it is past waiting, and that is the number of one of its own sends. */
  predicate TaskSound(v: Video, sent: seq<nat>) {
    && (v.task.Some? <==> v.transcoding.Some?)
    && (v.task.Some? ==> v.task.value < |sent| && sent[v.task.value] == v.id)
  }

  ghost predicate TasksSound(rows: seq<Video>, sent: seq<nat>) {
    forall v :: v in rows ==> TaskSound(v, sent)
  }

  lemma DispatchKeepsTasks(s: State, ids: seq<nat>, badSends: set<nat>, badUpdates: set<nat>)
    requires TasksSound(s.rows, s.sent)
    ensures var t := Dispatch(s, ids, badSends, badUpdates); TasksSound(t.rows, t.sent)
  {
    var t := Dispatch(s, ids, badSends, badUpdates);
    forall v | v in t.rows
      ensures TaskSound(v, t.sent)
    {
      var i :| 0 <= i < |t.rows| && t.rows[i] == v;
      assert s.rows[i] in s.rows;
      DispatchChanges(s, ids, badSends, badUpdates, i);
      DispatchExtendsSent(s, ids, badSends, badUpdates);
    }
  }

  lemma RowwiseKeepsTasks(rows: seq<Video>, after: seq<Video>, sent: seq<nat>)
    requires |after| == |rows| && TasksSound(rows, sent)
    requires forall i :: 0 <= i < |rows| ==>
               after[i].id == rows[i].id && after[i].task == rows[i].task &&
               after[i].transcoding.Some? == rows[i].transcoding.Some?
    ensures TasksSound(after, sent)
  {
    forall v | v in after
      ensures TaskSound(v, sent)
    {
      var i :| 0 <= i < |after| && after[i] == v;
      assert rows[i] in rows;
    }
  }

  /** Every poll asks for the outcome of a task that was sent for that very video. */
  lemma {:induction false} TasksAreTheirOwn(steps: seq<Step>)
    requires ValidRun(steps)
    ensures TasksSound(Exec(steps).rows, Exec(steps).sent)
  {
    if steps != [] {
      var n := |steps| - 1;
      var s := Exec(steps[..n]);
      TasksAreTheirOwn(steps[..n]);
      match steps[n]
      case Arrive(_) =>
      case MarkUploaded(id) => RowwiseKeepsTasks(s.rows, SetUploaded(s.rows, id), s.sent);
      case Run(badSends, badUpdates) =>
        DispatchKeepsTasks(s.(picked := Oldest(s.rows)), Oldest(s.rows), badSends, badUpdates);
      case Retry(badSends, badUpdates) => DispatchKeepsTasks(s, s.picked, badSends, badUpdates);
      case Monitor(results, badUpdates) => RowwiseKeepsTasks(s.rows, PollAll(s.rows, results, badUpdates), s.sent);
    }
  }

  predicate Uploaded(rows: seq<Video>, id: nat) {
    exists i :: 0 <= i < |rows| && rows[i].id == id && rows[i].uploaded
  }

  ghost predicate AllUploaded(rows: seq<Video>, ids: seq<nat>) {
    forall id :: id in ids ==> Uploaded(rows, id)
  }

  lemma RowwiseKeepsUploads(rows: seq<Video>, after: seq<Video>, ids: seq<nat>)
    requires AllUploaded(rows, ids) && |after| == |rows|
    requires forall i :: 0 <= i < |rows| ==> after[i].id == rows[i].id && (rows[i].uploaded ==> after[i].uploaded)
    ensures AllUploaded(after, ids)
  {
    forall id | id in ids
      ensures Uploaded(after, id)
    {
      assert Uploaded(rows, id);
      var i :| 0 <= i < |rows| && rows[i].id == id && rows[i].uploaded;
      assert after[i].id == id && after[i].uploaded;
    }
  }

  lemma DispatchKeepsUploads(s: State, ids: seq<nat>, badSends: set<nat>, badUpdates: set<nat>)
    requires AllUploaded(s.rows, s.sent) && AllUploaded(s.rows, s.picked) && AllUploaded(s.rows, ids)
    ensures var t := Dispatch(s, ids, badSends, badUpdates);
            AllUploaded(t.rows, t.sent) && AllUploaded(t.rows, t.picked)
  {
    var t := Dispatch(s, ids, badSends, badUpdates);
    forall i | 0 <= i < |s.rows|
      ensures t.rows[i].id == s.rows[i].id && t.rows[i].uploaded == s.rows[i].uploaded && t.picked == s.picked
    {
      DispatchChanges(s, ids, badSends, badUpdates, i);
    }
    DispatchKeepsPicked(s, ids, badSends, badUpdates);
    DispatchExtendsSent(s, ids, badSends, badUpdates);
    RowwiseKeepsUploads(s.rows, t.rows, s.sent + ids + s.picked);
  }

  lemma InsertKeepsUploads(rows: seq<Video>, v: Video, ids: seq<nat>)
    requires AllUploaded(rows, ids)
    ensures AllUploaded(Insert(rows, v), ids)
  {
    forall id | id in ids
      ensures Uploaded(Insert(rows, v), id)
    {
      assert Uploaded(rows, id);
      var i :| 0 <= i < |rows| && rows[i].id == id && rows[i].uploaded;
      assert rows[i] in Insert(rows, v);
    }
  }

  lemma PickedAreUploaded(rows: seq<Video>)
    ensures AllUploaded(rows, Oldest(rows))
  {
    forall id | id in Oldest(rows)
      ensures Uploaded(rows, id)
    {
      var k :| 0 <= k < |Oldest(rows)| && Oldest(rows)[k] == id;
      var t := QueueHoldsWaiting(rows, k);
    }
  }

  /** No video is ever sent before its upload is complete, and none that is not is picked for a retry. */
  lemma {:induction false} OnlyUploadedAreSent(steps: seq<Step>)
    requires ValidRun(steps)
    ensures AllUploaded(Exec(steps).rows, Exec(steps).sent) && AllUploaded(Exec(steps).rows, Exec(steps).picked)
  {
    if steps != [] {
      var n := |steps| - 1;
      var s := Exec(steps[..n]);
      OnlyUploadedAreSent(steps[..n]);
      match steps[n]
      case Arrive(video) =>
        InsertKeepsUploads(s.rows, video, s.sent);
        InsertKeepsUploads(s.rows, video, s.picked);
      case MarkUploaded(id) =>
        RowwiseKeepsUploads(s.rows, SetUploaded(s.rows, id), s.sent);
        RowwiseKeepsUploads(s.rows, SetUploaded(s.rows, id), s.picked);
      case Run(badSends, badUpdates) =>
        PickedAreUploaded(s.rows);
        DispatchKeepsUploads(s.(picked := Oldest(s.rows)), Oldest(s.rows), badSends, badUpdates);
      case Retry(badSends, badUpdates) => DispatchKeepsUploads(s, s.picked, badSends, badUpdates);
      case Monitor(results, badUpdates) =>
        RowwiseKeepsUploads(s.rows, PollAll(s.rows, results, badUpdates), s.sent);
    }
  }

  // ----- Sent exactly once -----

  function Count(ids: seq<nat>, id: nat): nat {
    if ids == [] then 0 else Count(ids[..|ids| - 1], id) + if ids[|ids| - 1] == id then 1 else 0
  }

  lemma CountAppend(ids: seq<nat>, more: nat, id: nat)
    ensures Count(ids + [more], id) == Count(ids, id) + if more == id then 1 else 0
  {
    assert (ids + [more])[..|ids|] == ids;
  }

  lemma OldestOnce(rows: seq<Video>)
    requires UniqueIds(rows)
    ensures NoRepeats(Oldest(rows))
  {
    forall i, j | 0 <= i < j < |Oldest(rows)|
      ensures Oldest(rows)[i] != Oldest(rows)[j]
    {
      var t := QueueHoldsWaiting(rows, i);
      var u := QueueHoldsWaiting(rows, j);
    }
  }

  function ToNat(b: bool): nat {
    if b then 1 else 0
  }

  lemma DispatchAssigns(s: State, ids: seq<nat>, badSends: set<nat>, badUpdates: set<nat>, id: nat)
    requires id in ids ==> HasRow(s.rows, id)
    ensures Assigned(Dispatch(s, ids, badSends, badUpdates).rows, id) <==>
              Assigned(s.rows, id) || (id in ids && id !in badSends && id !in badUpdates)
  {
    var t := Dispatch(s, ids, badSends, badUpdates);
    forall i | 0 <= i < |s.rows|
      ensures t.rows[i].id == s.rows[i].id
      ensures t.rows[i].transcoding.Some? <==>
                s.rows[i].transcoding.Some? ||
                (s.rows[i].id in ids && s.rows[i].id !in badSends && s.rows[i].id !in badUpdates)
    {
      DispatchChanges(s, ids, badSends, badUpdates, i);
    }
    if i :| 0 <= i < |s.rows| && s.rows[i].id == id && s.rows[i].transcoding.Some? {
      assert t.rows[i].id == id && t.rows[i].transcoding.Some?;
    }
    if id in ids && id !in badSends && id !in badUpdates {
      var i :| 0 <= i < |s.rows| && s.rows[i].id == id;
      assert t.rows[i].id == id && t.rows[i].transcoding.Some?;
    }
  }

  predicate Resent(s: State, ids: seq<nat>, badSends: set<nat>, badUpdates: set<nat>, id: nat) {
    id in ids && id !in badSends && id !in badUpdates && Assigned(s.rows, id)
  }

  /** What one video on the list adds to each count. */
  lemma SendOneCounts(s: State, video: nat, badSends: set<nat>, badUpdates: set<nat>, id: nat)
    ensures var t, sent := SendOne(s, video, badSends, badUpdates), id == video && id !in badSends;
            && Count(t.sent, id) == Count(s.sent, id) + ToNat(sent)
            && Count(t.lost, id) == Count(s.lost, id) + ToNat(sent && id in badUpdates)
            && Count(t.again, id) == Count(s.again, id) + ToNat(sent && id !in badUpdates && Assigned(s.rows, id))
  {
    if video !in badSends {
      CountAppend(s.sent, video, id);
      if video in badUpdates {
        CountAppend(s.lost, video, id);
      } else if Assigned(s.rows, video) {
        CountAppend(s.again, video, id);
      } else {
        assert s.again + [] == s.again;
      }
    }
  }

  lemma {:induction false} DispatchCounts(s: State, ids: seq<nat>, badSends: set<nat>, badUpdates: set<nat>, id: nat)
    requires NoRepeats(ids)
    ensures var t := Dispatch(s, ids, badSends, badUpdates);
            && Count(t.sent, id) == Count(s.sent, id) + ToNat(id in ids && id !in badSends)
            && Count(t.lost, id) == Count(s.lost, id) + ToNat(id in ids && id !in badSends && id in badUpdates)
            && Count(t.again, id) == Count(s.again, id) + ToNat(Resent(s, ids, badSends, badUpdates, id))
  {
    if ids != [] {
      var n := |ids| - 1;
      var last, before := ids[n], Dispatch(s, ids[..n], badSends, badUpdates);
      assert ids == ids[..n] + [last];
      assert id == last ==> id !in ids[..n];
      DispatchCounts(s, ids[..n], badSends, badUpdates, id);
      SendOneCounts(before, last, badSends, badUpdates, id);
      if id == last {
        DispatchAssigns(s, ids[..n], badSends, badUpdates, id);
        assert Assigned(before.rows, id) == Assigned(s.rows, id);
      }
    }
  }

  predicate Balanced(s: State, id: nat) {
    Count(s.sent, id) == Count(s.lost, id) + Count(s.again, id) + ToNat(Assigned(s.rows, id))
  }

  lemma SameAssigned(rows: seq<Video>, after: seq<Video>, id: nat)
    requires |rows| == |after|
    requires forall i :: 0 <= i < |rows| ==>
               after[i].id == rows[i].id && after[i].transcoding.Some? == rows[i].transcoding.Some?
    ensures Assigned(rows, id) == Assigned(after, id)
  {
    if Assigned(rows, id) {
      var i :| 0 <= i < |rows| && rows[i].id == id && rows[i].transcoding.Some?;
      assert after[i].id == id && after[i].transcoding.Some?;
    }
    if Assigned(after, id) {
      var i :| 0 <= i < |after| && after[i].id == id && after[i].transcoding.Some?;
      assert rows[i].id == id && rows[i].transcoding.Some?;
    }
  }

  lemma DispatchBalances(s: State, ids: seq<nat>, badSends: set<nat>, badUpdates: set<nat>, id: nat)
    requires NoRepeats(ids) && (id in ids ==> HasRow(s.rows, id)) && Balanced(s, id)
    ensures Balanced(Dispatch(s, ids, badSends, badUpdates), id)
  {
    DispatchCounts(s, ids, badSends, badUpdates, id);
    DispatchAssigns(s, ids, badSends, badUpdates, id);
  }

  lemma ArriveBalances(s: State, video: Video, id: nat)
    requires Enabled(s, Arrive(video)) && Balanced(s, id)
    ensures Balanced(Apply(s, Arrive(video)), id)
  {
    var after := Insert(s.rows, video);
    if i :| 0 <= i < |s.rows| && s.rows[i].id == id && s.rows[i].transcoding.Some? {
      assert s.rows[i] in after;
      var j :| 0 <= j < |after| && after[j] == s.rows[i];
      assert after[j].id == id;
    }
    if j :| 0 <= j < |after| && after[j].id == id && after[j].transcoding.Some? {
      assert after[j] in after && after[j] != video;
      var i :| 0 <= i < |s.rows| && s.rows[i] == after[j];
      assert s.rows[i].id == id;
    }
  }

  /** Every send is accounted for: a video was sent once if it is past waiting, once more for each of its updates that
      failed, and once more for each time a retried task came back to it. So without these no video is sent twice. */
  lemma {:induction false} SendsAreAccountedFor(steps: seq<Step>, id: nat)
    requires ValidRun(steps)
    ensures Balanced(Exec(steps), id)
  {
    if steps != [] {
      var n := |steps| - 1;
      var s := Exec(steps[..n]);
      SendsAreAccountedFor(steps[..n], id);
      RunIsSound(steps[..n]);
      match steps[n]
      case Arrive(video) => ArriveBalances(s, video, id);
      case MarkUploaded(other) => SameAssigned(s.rows, SetUploaded(s.rows, other), id);
      case Run(badSends, badUpdates) =>
        PickingIsSound(s);
        DispatchBalances(s.(picked := Oldest(s.rows)), Oldest(s.rows), badSends, badUpdates, id);
      case Retry(badSends, badUpdates) => DispatchBalances(s, s.picked, badSends, badUpdates, id);
      case Monitor(results, badUpdates) => SameAssigned(s.rows, PollAll(s.rows, results, badUpdates), id);
    }
  }

  /** Only retries come back to a video that is past waiting. */
  lemma OnlyRetriesResend(s: State, step: Step, id: nat)
    requires Sound(s) && Enabled(s, step) && !step.Retry?
    ensures Count(Apply(s, step).again, id) == Count(s.again, id)
  {
    if step.Run? {
      OldestOnce(s.rows);
      DispatchCounts(s.(picked := Oldest(s.rows)), Oldest(s.rows), step.badSends, step.badUpdates, id);
      forall i | 0 <= i < |s.rows| && s.rows[i].id == id && id in Oldest(s.rows)
        ensures s.rows[i].transcoding.None?
      {
        OldestAreWaiting(s.rows, i);
      }
    }
  }

  // ----- First come, first served -----

  /** The video waits at row `t` behind `ahead` older ones. */
  predicate StandsAt(rows: seq<Video>, t: nat, id: nat, createdAt: real, ahead: nat) {
    t < |rows| && rows[t].id == id && rows[t].createdAt == createdAt && Waiting(rows[t]) && Ahead(rows, t) == ahead
  }

  ghost predicate Stands(rows: seq<Video>, id: nat, createdAt: real, ahead: nat) {
    exists t :: StandsAt(rows, t, id, createdAt, ahead)
  }

  /** No error, no retry, and nothing older than the video starts to wait. */
  predicate Fair(s: State, step: Step, createdAt: real) {
    match step
    case Arrive(video) => video.createdAt > createdAt
    case MarkUploaded(id) => forall v :: v in s.rows && v.id == id ==> v.uploaded || v.createdAt > createdAt
    case Run(badSends, badUpdates) => badSends == {} && badUpdates == {}
    case Retry(_, _) => false
    case Monitor(_, _) => true
  }

  lemma {:induction false} SameQueue(rows: seq<Video>, after: seq<Video>)
    requires |rows| == |after|
    requires forall i :: 0 <= i < |rows| ==> after[i].id == rows[i].id && Waiting(after[i]) == Waiting(rows[i])
    ensures Queue(rows) == Queue(after)
  {
    if rows != [] {
      SameQueue(rows[..|rows| - 1], after[..|rows| - 1]);
    }
  }

  lemma {:induction false} InsertKeepsOlder(rows: seq<Video>, v: Video, t: nat)
    requires ByAge(rows) && t < |rows| && rows[t].createdAt < v.createdAt
    ensures Insert(rows, v)[..t + 1] == rows[..t + 1]
  {
    var n := |rows| - 1;
    if rows[n].createdAt >= v.createdAt {
      InsertKeepsOlder(rows[..n], v, t);
    }
  }

  /** Taking the head of the queue moves everyone else up. */
  lemma {:induction false} HeadLeaves(rows: seq<Video>, task: nat)
    requires UniqueIds(rows) && Queue(rows) != []
    ensures Queue(SetScheduled(rows, Queue(rows)[0], task)) == Queue(rows)[1..]
  {
    var n, id := |rows| - 1, Queue(rows)[0];
    var after := SetScheduled(rows, id, task);
    assert after[..n] == SetScheduled(rows[..n], id, task);
    var w := QueueHoldsWaiting(rows, 0);
    if Queue(rows[..n]) == [] {
      assert w == n;
      SameQueue(rows[..n], after[..n]);
    } else {
      assert Queue(rows[..n])[0] == id;
      var u := QueueHoldsWaiting(rows[..n], 0);
      HeadLeaves(rows[..n], task);
    }
  }

  /** Dispatching the first `k` of the queue, with no error, leaves the rest of it. */
  lemma {:induction false} DispatchShortens(s: State, k: nat)
    requires UniqueIds(s.rows) && k <= |Queue(s.rows)|
    ensures Queue(Dispatch(s, Queue(s.rows)[..k], {}, {}).rows) == Queue(s.rows)[k..]
  {
    if k > 0 {
      var ids := Queue(s.rows)[..k];
      assert ids[..k - 1] == Queue(s.rows)[..k - 1];
      DispatchShortens(s, k - 1);
      var before := Dispatch(s, ids[..k - 1], {}, {});
      forall i | 0 <= i < |s.rows|
        ensures before.rows[i].id == s.rows[i].id
      {
        DispatchChanges(s, ids[..k - 1], {}, {}, i);
      }
      HeadLeaves(before.rows, |before.sent|);
    }
  }

  /** What is dispatched of the older rows does not depend on the newer ones. */
  lemma {:induction false} DispatchOfOlder(s: State, ids: seq<nat>, t: nat)
    requires t <= |s.rows|
    ensures var all, older := Dispatch(s, ids, {}, {}), Dispatch(s.(rows := s.rows[..t]), ids, {}, {});
            all.rows[..t] == older.rows && all.sent == older.sent
  {
    if ids != [] {
      DispatchOfOlder(s, ids[..|ids| - 1], t);
    }
  }

  lemma RunMovesUp(s: State, t: nat, id: nat, createdAt: real, ahead: nat)
    requires Sound(s) && StandsAt(s.rows, t, id, createdAt, ahead)
    ensures var after := Apply(s, Run({}, {}));
            if ahead < LIMIT then Assigned(after.rows, id) else StandsAt(after.rows, t, id, createdAt, ahead - LIMIT)
  {
    PlaceInQueue(s.rows, t);
    var s' := s.(picked := Oldest(s.rows));
    DispatchChanges(s', Oldest(s.rows), {}, {}, t);
    PicksTheOldest(s.rows, t);
    if ahead < LIMIT {
      assert Apply(s, Run({}, {})).rows[t].id == id;
    } else {
      var older := s'.(rows := s.rows[..t]);
      assert Oldest(s.rows) == Queue(older.rows)[..LIMIT];
      DispatchOfOlder(s', Oldest(s.rows), t);
      DispatchShortens(older, LIMIT);
    }
  }

  lemma ArrivalKeepsPlace(rows: seq<Video>, video: Video, t: nat)
    requires ByAge(rows) && t < |rows| && rows[t].createdAt < video.createdAt
    ensures Insert(rows, video)[..t] == rows[..t] && Insert(rows, video)[t] == rows[t]
  {
    var after := Insert(rows, video);
    InsertKeepsOlder(rows, video, t);
    assert after[..t] == after[..t + 1][..t] == rows[..t + 1][..t] == rows[..t];
    assert after[t] == after[..t + 1][t] == rows[..t + 1][t];
  }

  lemma FairStepKeepsPlace(s: State, step: Step, t: nat, id: nat, createdAt: real, ahead: nat)
    requires Sound(s) && Enabled(s, step) && Fair(s, step, createdAt) && !step.Run?
    requires StandsAt(s.rows, t, id, createdAt, ahead)
    ensures StandsAt(Apply(s, step).rows, t, id, createdAt, ahead)
  {
    var after := Apply(s, step).rows;
    match step
    case Arrive(video) => ArrivalKeepsPlace(s.rows, video, t);
    case MarkUploaded(other) =>
      forall i | 0 <= i <= t
        ensures after[i] == s.rows[i]
      {
        assert s.rows[i] in s.rows && s.rows[i].createdAt <= createdAt;
      }
      assert after[..t] == s.rows[..t];
    case Monitor(_, _) => SameQueue(s.rows[..t], after[..t]);
  }

  lemma PlaceAfterStep(s: State, step: Step, id: nat, createdAt: real, ahead: nat)
    requires Sound(s) && Enabled(s, step) && Fair(s, step, createdAt) && Stands(s.rows, id, createdAt, ahead)
    ensures var after := Apply(s, step).rows;
            if step.Run? && ahead < LIMIT then Assigned(after, id)
            else Stands(after, id, createdAt, if step.Run? then ahead - LIMIT else ahead)
  {
    var t: nat :| StandsAt(s.rows, t, id, createdAt, ahead);
    if step.Run? {
      RunMovesUp(s, t, id, createdAt, ahead);
    } else {
      FairStepKeepsPlace(s, step, t, id, createdAt, ahead);
    }
  }

  function Runs(steps: seq<Step>, m: nat): nat
    requires m <= |steps|
    decreases |steps|
  {
    if |steps| == m then 0 else Runs(steps[..|steps| - 1], m) + ToNat(steps[|steps| - 1].Run?)
  }

  predicate FairSince(steps: seq<Step>, m: nat, createdAt: real)
    requires ValidRun(steps) && m <= |steps|
    decreases |steps|
  {
    |steps| == m ||
    (FairSince(steps[..|steps| - 1], m, createdAt) &&
     Fair(Exec(steps[..|steps| - 1]), steps[|steps| - 1], createdAt))
  }

  lemma FairStepLosesNothing(s: State, step: Step, createdAt: real, id: nat)
    requires Sound(s) && Fair(s, step, createdAt)
    ensures Count(Apply(s, step).lost, id) == Count(s.lost, id)
  {
    if step.Run? {
      OldestOnce(s.rows);
      DispatchCounts(s.(picked := Oldest(s.rows)), Oldest(s.rows), {}, {}, id);
    }
  }

  lemma StepKeepsAssigned(steps: seq<Step>, step: Step, id: nat)
    requires ValidRun(steps) && Enabled(Exec(steps), step) && Assigned(Exec(steps).rows, id)
    ensures Assigned(Apply(Exec(steps), step).rows, id)
  {
    var i :| 0 <= i < |Exec(steps).rows| && Exec(steps).rows[i].id == id && Exec(steps).rows[i].transcoding.Some?;
    StatusOnlyAdvances(steps, step, i);
    var after := Apply(Exec(steps), step).rows;
    var j :| 0 <= j < |after| && SameVideo(Exec(steps).rows[i], after[j])
             && Advances(Exec(steps).rows[i].transcoding, after[j].transcoding);
    assert after[j].id == id && after[j].transcoding.Some?;
  }

  /** Where a video that waited behind `r` others stands after some runs. */
  ghost predicate InTurn(rows: seq<Video>, id: nat, createdAt: real, r: nat, runs: nat) {
    if 10 * runs <= r then Stands(rows, id, createdAt, r - 10 * runs) else Assigned(rows, id)
  }

  lemma FairStepKeepsCounts(steps: seq<Step>, step: Step, id: nat, createdAt: real)
    requires ValidRun(steps) && Enabled(Exec(steps), step) && Fair(Exec(steps), step, createdAt)
    ensures Count(Apply(Exec(steps), step).lost, id) == Count(Exec(steps).lost, id)
    ensures Count(Apply(Exec(steps), step).again, id) == Count(Exec(steps).again, id)
  {
    RunIsSound(steps);
    FairStepLosesNothing(Exec(steps), step, createdAt, id);
    OnlyRetriesResend(Exec(steps), step, id);
  }

  lemma TurnOfOneWaiting(s: State, step: Step, id: nat, createdAt: real, r: nat, runs: nat)
    requires Sound(s) && Enabled(s, step) && Fair(s, step, createdAt)
    requires 10 * runs <= r && InTurn(s.rows, id, createdAt, r, runs)
    ensures InTurn(Apply(s, step).rows, id, createdAt, r, runs + ToNat(step.Run?))
  {
    PlaceAfterStep(s, step, id, createdAt, r - 10 * runs);
  }

  lemma StepKeepsTurn(steps: seq<Step>, step: Step, id: nat, createdAt: real, r: nat, runs: nat)
    requires ValidRun(steps) && Enabled(Exec(steps), step) && Fair(Exec(steps), step, createdAt)
    requires InTurn(Exec(steps).rows, id, createdAt, r, runs)
    ensures InTurn(Apply(Exec(steps), step).rows, id, createdAt, r, runs + ToNat(step.Run?))
  {
    RunIsSound(steps);
    if 10 * runs <= r {
      TurnOfOneWaiting(Exec(steps), step, id, createdAt, r, runs);
    } else {
      StepKeepsAssigned(steps, step, id);
    }
  }

  lemma {:induction false} FairRunKeepsCounts(steps: seq<Step>, m: nat, id: nat, createdAt: real)
    requires ValidRun(steps) && m <= |steps| && ValidRun(steps[..m]) && FairSince(steps, m, createdAt)
    ensures Count(Exec(steps).lost, id) == Count(Exec(steps[..m]).lost, id)
    ensures Count(Exec(steps).again, id) == Count(Exec(steps[..m]).again, id)
  {
    if |steps| == m {
      assert steps[..m] == steps;
    } else {
      var n := |steps| - 1;
      assert steps[..n][..m] == steps[..m];
      assert FairSince(steps[..n], m, createdAt) && Fair(Exec(steps[..n]), steps[n], createdAt);
      FairRunKeepsCounts(steps[..n], m, id, createdAt);
      FairStepKeepsCounts(steps[..n], steps[n], id, createdAt);
    }
  }

  /** A video with `r` older ones waiting is sent in run `r / 10 + 1` from then on, no sooner and no later, however many
      newer videos come in between. */
  lemma {:induction false} TurnComes(steps: seq<Step>, m: nat, id: nat, createdAt: real, r: nat)
    requires ValidRun(steps) && m <= |steps| && ValidRun(steps[..m])
    requires Stands(Exec(steps[..m]).rows, id, createdAt, r) && FairSince(steps, m, createdAt)
    ensures InTurn(Exec(steps).rows, id, createdAt, r, Runs(steps, m))
  {
    if |steps| == m {
      assert steps[..m] == steps;
    } else {
      var n := |steps| - 1;
      assert steps[..n][..m] == steps[..m];
      assert FairSince(steps[..n], m, createdAt) && Fair(Exec(steps[..n]), steps[n], createdAt);
      assert ValidRun(steps[..n]) && Enabled(Exec(steps[..n]), steps[n]);
      TurnComes(steps[..n], m, id, createdAt, r);
      StepKeepsTurn(steps[..n], steps[n], id, createdAt, r, Runs(steps[..n], m));
      assert Runs(steps, m) == Runs(steps[..n], m) + ToNat(steps[n].Run?);
    }
  }

  lemma StandingIsUnassigned(rows: seq<Video>, id: nat, createdAt: real, ahead: nat)
    requires UniqueIds(rows) && Stands(rows, id, createdAt, ahead)
    ensures !Assigned(rows, id)
  {
    var t: nat :| StandsAt(rows, t, id, createdAt, ahead);
    forall i | 0 <= i < |rows|
      ensures !(rows[i].id == id && rows[i].transcoding.Some?)
    {
      assert i != t ==> rows[i].id != rows[t].id;
    }
  }

  /** The same, counted in sends. */
  lemma SentInItsTurn(steps: seq<Step>, m: nat, id: nat, createdAt: real, r: nat)
    requires ValidRun(steps) && m <= |steps| && ValidRun(steps[..m])
    requires Stands(Exec(steps[..m]).rows, id, createdAt, r) && FairSince(steps, m, createdAt)
    ensures Count(Exec(steps).sent, id) == Count(Exec(steps[..m]).sent, id) + ToNat(Runs(steps, m) >= r / 10 + 1)
  {
    TurnComes(steps, m, id, createdAt, r);
    FairRunKeepsCounts(steps, m, id, createdAt);
    SendsAreAccountedFor(steps, id);
    SendsAreAccountedFor(steps[..m], id);
    RunIsSound(steps);
    RunIsSound(steps[..m]);
    StandingIsUnassigned(Exec(steps[..m]).rows, id, createdAt, r);
    if 10 * Runs(steps, m) <= r {
      StandingIsUnassigned(Exec(steps).rows, id, createdAt, r - 10 * Runs(steps, m));
    }
  }

  // ----- The job -----

  class TranscodingDag {
    var rows: seq<Video>
    var sent: seq<nat>
    /** What the query leaves for the scheduling task. */
    var picked: seq<nat>
    ghost var lost: seq<nat>
    ghost var again: seq<nat>

    ghost function Snapshot(): State
      reads this
    {
      State.State(rows, sent, lost, again, picked)
    }

    constructor ()
      ensures Snapshot() == State([], [], [], [], [])
    {
      rows, sent, picked, lost, again := [], [], [], [], [];
    }

    method GetVideosNeedingTranscoding() returns (count: nat)
      modifies this`picked
      ensures picked == Oldest(rows) && count == |picked| <= 10
      ensures forall id :: id in picked ==> AwaitsTranscoding(rows, id)
      ensures count < 10 ==> forall id :: AwaitsTranscoding(rows, id) ==> id in picked
    {
      var videos: seq<nat> := [];
      var i := 0;
      while i < |rows| && |videos| < LIMIT
        invariant i <= |rows| && |videos| <= LIMIT
        invariant videos == Queue(rows[..i])
      {
        assert rows[..i + 1][..i] == rows[..i];
        if Waiting(rows[i]) {
          videos := videos + [rows[i].id];
        }
        i := i + 1;
      }
      assert rows == rows[..i] + rows[i..];
      QueueConcat(rows[..i], rows[i..]);
      picked := videos;
      count := |videos|;
      PicksWaiting(rows);
    }

    /** After the query this is the rest of a run; started over, it is a retry. */
    method ScheduleTranscodingTasks(badSends: set<nat>, badUpdates: set<nat>) returns (scheduledCount: nat)
      modifies this`rows, this`sent, this`lost, this`again
      ensures Snapshot() == Dispatch(old(Snapshot()), picked, badSends, badUpdates)
      ensures scheduledCount + |lost| - |old(lost)| == |sent| - |old(sent)|
      ensures |rows| == |old(rows)| && forall i :: 0 <= i < |rows| ==>
                var v := old(rows)[i];
                if v.id in picked && v.id !in badSends && v.id !in badUpdates then
                  && rows[i] == v.(transcoding := Some(Scheduled), task := rows[i].task) && rows[i].task.Some?
                  && |old(sent)| <= rows[i].task.value < |sent| && sent[rows[i].task.value] == v.id
                else rows[i] == v
    {
      scheduledCount := 0;
      for n := 0 to |picked|
        invariant Snapshot() == Dispatch(old(Snapshot()), picked[..n], badSends, badUpdates)
        invariant scheduledCount + |lost| - |old(lost)| == |sent| - |old(sent)|
      {
        assert picked[..n + 1][..n] == picked[..n];
        assert again + [] == again;
        var video := picked[n];
        if video in badSends {
          continue;
        }
        var task := |sent|;
        sent := sent + [video];
        if video in badUpdates {
          lost := lost + [video];
          continue;
        }
        again := again + if Assigned(rows, video) then [video] else [];
        rows := SetScheduled(rows, video, task);
        scheduledCount := scheduledCount + 1;
      }
      assert picked[..|picked|] == picked;
      forall i | 0 <= i < |old(rows)|
        ensures var v, w := old(rows)[i], rows[i];
                if v.id in picked && v.id !in badSends && v.id !in badUpdates then
                  && w == v.(transcoding := Some(Scheduled), task := w.task) && w.task.Some?
                  && |old(sent)| <= w.task.value < |sent| && sent[w.task.value] == v.id
                else w == v
      {
        DispatchChanges(old(Snapshot()), picked, badSends, badUpdates, i);
      }
    }

    /** One poll, row by row. An outcome is counted before its update, which may fail. */
    method MonitorTranscodingProgress(results: map<nat, bool>, badUpdates: set<nat>)
      returns (completed: nat, failed: nat)
      modifies this`rows
      ensures rows == PollAll(old(rows), results, badUpdates)
      ensures completed == |Polled(old(rows), results, true)| && failed == |Polled(old(rows), results, false)|
      ensures |rows| == |old(rows)| && forall i :: 0 <= i < |rows| ==>
                var v := old(rows)[i];
                if v.transcoding in {Some(Scheduled), Some(Processing)} && v.task.Some? && v.task.value in results &&
                   v.id !in badUpdates then
                  && rows[i] == v.(transcoding := rows[i].transcoding)
                  && (rows[i].transcoding == Some(Completed) <==> results[v.task.value])
                  && (rows[i].transcoding == Some(Failed) <==> !results[v.task.value])
                else rows[i] == v
    {
      completed, failed := 0, 0;
      assert old(rows)[..0] == [];
      for i := 0 to |rows|
        invariant |rows| == |old(rows)|
        invariant forall k :: 0 <= k < |rows| ==>
                    rows[k] == if k < i then Poll(old(rows)[k], results, badUpdates) else old(rows)[k]
        invariant completed == |Polled(old(rows)[..i], results, true)|
        invariant failed == |Polled(old(rows)[..i], results, false)|
      {
        assert old(rows)[..i + 1][..i] == old(rows)[..i];
        var video := rows[i];
        if InProgress(video) && video.task.Some? && video.task.value in results {
          if results[video.task.value] {
            completed := completed + 1;
            if video.id !in badUpdates {
              rows := rows[i := video.(transcoding := Some(Completed))];
            }
          } else {
            failed := failed + 1;
            if video.id !in badUpdates {
              rows := rows[i := video.(transcoding := Some(Failed))];
            }
          }
        }
      }
      assert old(rows)[..|rows|] == old(rows);
    }
  }

  /** The videos a poll finds done, with this outcome. */
  function Polled(rows: seq<Video>, results: map<nat, bool>, ok: bool): seq<Video> {
    if rows == [] then [] else
      var n := |rows| - 1;
      Polled(rows[..n], results, ok) +
      if Ready(rows[n], results) && results[rows[n].task.value] == ok then [rows[n]] else []
  }
}
