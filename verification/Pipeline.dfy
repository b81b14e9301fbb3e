/** The episode download protocol: feed polls, download workers, user requeues, failed statements
    and crashes, in any order, over the queue, the episode table and the object store. */
module Pipeline {
  import opened Queue
  import opened Paths
  import opened Podcasts
  import Q = QueueRuns

  /** How far the handler of a received download task has got. */
  datatype Phase =
    | Received
    | Loaded(guid: string)             // the episode row was read; the download is next
    | Writing(guid: string)            // the object was created or truncated
    | Saved(guid: string, length: nat) // the copy came to its end
    | SaveFailed(guid: string)
    | Finished(ok: bool)               // the handler returned; the write-back is next

  datatype State = State(
    q: Q.State,
    episodes: map<string, Episode>,
    objects: map<string, Object>,
    phases: map<nat, Phase>,     // the download workers that are handling a task
    pend: map<string, nat>,      // history: the task pushed in the transaction that last set pending
    wrote: set<nat>,             // history: the tasks of which a receive has written a status
    unsettled: set<string>)      // history: episodes whose object was truncated by a receive that has
                                 // not written a status since

  datatype Event =
    | Create(episode: Episode, visibleAt: int, createdAt: int)
    | Requeue(guid: string, visibleAt: int, createdAt: int)
    | Receive(worker: nat, askedAt: int, leasedAt: int)
    | Load(worker: nat)
    | LoadFails(worker: nat)
    | OpenFails(worker: nat)
    | Truncate(worker: nat)
    | CopyEnds(worker: nat, length: nat)
    | CopyFails(worker: nat, length: nat)
    | WriteStatus(worker: nat)
    | WriteFails(worker: nat)
    | WriteBack(worker: nat, now: int)
    | WriteBackFails(worker: nat)
    | Crash
    | SaveImage(podcastGuid: string, image: Object)
    | Elsewhere(e: Q.Event)      // the other queues, and the passing of time

  ghost function EmptyAt(clock: int): State {
    State(Q.EmptyAt(clock), map[], map[], map[], map[], {}, {})
  }

  /** The queue event of the write-back: complete after success, return after an error. */
  ghost function Ending(s: State, w: nat, now: int): Q.Event
    requires w in s.phases && s.phases[w].Finished?
  {
    if s.phases[w].ok then Q.Complete(w) else Q.Return(w, now)
  }

  ghost predicate Enabled(s: State, e: Event) {
    match e
    case Create(ep, visibleAt, createdAt) =>
      // the primary key is free; parsed GUIDs are UUIDs
      && ep.guid !in s.episodes && Clean(ep.guid) && Clean(ep.podcastGuid)
      && s.q.clock <= visibleAt <= createdAt
    case Requeue(guid, visibleAt, createdAt) => guid in s.episodes && s.q.clock <= visibleAt <= createdAt
    case Receive(w, askedAt, leasedAt) => Q.Enabled(s.q, Q.Pop(w, DOWNLOAD_QUEUE, askedAt, leasedAt))
    case Load(w) =>
      && w in s.phases && s.phases[w].Received?
      && w in s.q.holds && s.q.holds[w].data.Text?
      && s.q.holds[w].data.text in s.episodes
      && PathOf(s.episodes[s.q.holds[w].data.text]).Some?
    case LoadFails(w) => w in s.phases && s.phases[w].Received?
    case OpenFails(w) => w in s.phases && s.phases[w].Loaded?
    case Truncate(w) => w in s.phases && s.phases[w].Loaded? && Known(s, s.phases[w].guid)
    case CopyEnds(w, _) => w in s.phases && s.phases[w].Writing? && Known(s, s.phases[w].guid)
    case CopyFails(w, _) => w in s.phases && s.phases[w].Writing? && Known(s, s.phases[w].guid)
    case WriteStatus(w) =>
      && w in s.phases && (s.phases[w].Saved? || s.phases[w].SaveFailed?)
      && w in s.q.holds && s.phases[w].guid in s.episodes
    case WriteFails(w) => w in s.phases && (s.phases[w].Saved? || s.phases[w].SaveFailed?)
    case WriteBack(w, now) => w in s.phases && s.phases[w].Finished? && Q.Enabled(s.q, Ending(s, w, now))
    case WriteBackFails(w) => w in s.phases && s.phases[w].Finished? && w in s.q.holds
    case Crash => true
    case SaveImage(podcastGuid, _) => true
    case Elsewhere(e) =>
      && Q.Enabled(s.q, e)
      && match e
         case Push(queue, _, _, _) => queue != DOWNLOAD_QUEUE
         case Pop(_, queue, _, _) => queue != DOWNLOAD_QUEUE
         case Complete(w) => w !in s.phases
         case Return(w, _) => w !in s.phases
         case Drop(w) => w !in s.phases
         case Wait(_) => true
  }

  ghost predicate Known(s: State, guid: string) {
    guid in s.episodes && PathOf(s.episodes[guid]).Some?
  }

  ghost function PutObject(s: State, guid: string, o: Object): map<string, Object>
    requires Known(s, guid)
  {
    s.objects[PathOf(s.episodes[guid]).value := o]
  }

  /** One transaction sets an episode pending and pushes its download task. */
  ghost function Pended(s: State, episodes: map<string, Episode>, guid: string, visibleAt: int, createdAt: int): State
    requires s.q.clock <= visibleAt <= createdAt
  {
    s.(q := Q.Apply(s.q, Q.Push(DOWNLOAD_QUEUE, Text(guid), visibleAt, createdAt)),
       episodes := episodes,
       pend := s.pend[guid := |s.q.rows|])
  }

  ghost function Apply(s: State, e: Event): State
    requires Enabled(s, e)
  {
    match e
    case Create(ep, visibleAt, createdAt) =>
      Pended(s, s.episodes[ep.guid := ep.(status := Pending)], ep.guid, visibleAt, createdAt)
    case Requeue(guid, visibleAt, createdAt) =>
      Pended(s, WithStatus(s.episodes, guid, Pending), guid, visibleAt, createdAt)
    case Receive(w, askedAt, leasedAt) =>
      s.(q := Q.Apply(s.q, Q.Pop(w, DOWNLOAD_QUEUE, askedAt, leasedAt)), phases := s.phases[w := Received])
    case Load(w) => s.(phases := s.phases[w := Loaded(s.q.holds[w].data.text)])
    case LoadFails(w) => s.(phases := s.phases[w := Finished(false)])
    case OpenFails(w) => s.(phases := s.phases[w := SaveFailed(s.phases[w].guid)])
    case Truncate(w) =>
      var g := s.phases[w].guid;
      s.(objects := PutObject(s, g, Object(0, false)),
         phases := s.phases[w := Writing(g)],
         unsettled := s.unsettled + {g})
    case CopyEnds(w, n) =>
      var g := s.phases[w].guid;
      s.(objects := PutObject(s, g, Object(n, true)), phases := s.phases[w := Saved(g, n)])
    case CopyFails(w, n) =>
      var g := s.phases[w].guid;
      s.(objects := PutObject(s, g, Object(n, false)), phases := s.phases[w := SaveFailed(g)])
    case WriteStatus(w) =>
      var g := s.phases[w].guid;
      s.(episodes := if s.phases[w].Saved? then WithDownload(s.episodes, g, s.phases[w].length)
                     else WithStatus(s.episodes, g, Failed),
         phases := s.phases[w := Finished(s.phases[w].Saved?)],
         wrote := s.wrote + {s.q.holds[w].id},
         unsettled := s.unsettled - {g})
    case WriteFails(w) => s.(phases := s.phases[w := Finished(false)])
    case WriteBack(w, now) => s.(q := Q.Apply(s.q, Ending(s, w, now)), phases := s.phases - {w})
    case WriteBackFails(w) => s.(q := Q.Apply(s.q, Q.Drop(w)), phases := s.phases - {w})
    case Crash => s.(q := s.q.(holds := map[]), phases := map[])
    case SaveImage(podcastGuid, image) => s.(objects := s.objects[ImagePath(podcastGuid) := image])
    case Elsewhere(e) => s.(q := Q.Apply(s.q, e))
  }

  ghost predicate CanRun(s: State, es: seq<Event>)
    decreases |es|
  {
    es == [] || (Enabled(s, es[0]) && CanRun(Apply(s, es[0]), es[1..]))
  }

  ghost function Run(s: State, es: seq<Event>): State
    requires CanRun(s, es)
    decreases |es|
  {
    if es == [] then s else Run(Apply(s, es[0]), es[1..])
  }

  ghost predicate Along(s: State, es: seq<Event>, rule: (State, Event) -> bool)
    requires CanRun(s, es)
    decreases |es|
  {
    es == [] || (rule(s, es[0]) && Along(Apply(s, es[0]), es[1..], rule))
  }

  lemma {:induction false} RunOne(s: State, e: Event)
    requires Enabled(s, e)
    ensures CanRun(s, [e]) && Run(s, [e]) == Apply(s, e)
  {
  }

  lemma {:induction false} RunCons(s: State, e: Event, es: seq<Event>)
    requires Enabled(s, e) && CanRun(Apply(s, e), es)
    ensures CanRun(s, [e] + es) && Run(s, [e] + es) == Run(Apply(s, e), es)
  {
  }

  // ---- transactional outbox ----

  /** A copy in a worker's hands has its row's key, queue and data, even when it is out of date. */
  ghost predicate QueueShape(q: Q.State) {
    && (forall i :: 0 <= i < |q.rows| ==> q.rows[i].id == i)
    && (forall w :: w in q.holds ==>
          && q.holds[w].id < |q.rows|
          && !q.holds[w].deleted
          && q.holds[w].queue == q.rows[q.holds[w].id].queue
          && q.holds[w].data == q.rows[q.holds[w].id].data)
  }

  /** A handling worker holds a download task; what its handler has read and written fits that task. */
  ghost predicate PhaseFits(s: State, w: nat)
    requires w in s.phases
  {
    && w in s.q.holds
    && s.q.holds[w].queue == DOWNLOAD_QUEUE
    && match s.phases[w]
       case Received => true
       case Finished(ok) => ok ==> s.q.holds[w].id in s.wrote
       case _ => Known(s, s.phases[w].guid) && s.q.holds[w].data == Text(s.phases[w].guid)
  }

  ghost predicate PhasesFit(s: State) {
    && (forall w :: w in s.phases ==> PhaseFits(s, w))
    && (forall w :: w in s.q.holds && s.q.holds[w].queue == DOWNLOAD_QUEUE ==> w in s.phases)
  }

  /** A completed download task has had its status written. */
  ghost predicate WriteFits(s: State, i: nat) {
    && (i in s.wrote ==> i < |s.q.rows|)
    && (i < |s.q.rows| && s.q.rows[i].queue == DOWNLOAD_QUEUE && s.q.rows[i].deleted ==> i in s.wrote)
  }

  /** A pending episode has an undeleted download task carrying its GUID, the one pushed when
      pending was last set, and no receive of that task has written a status. */
  ghost predicate PendingHasTask(s: State, guid: string) {
    && guid in s.pend
    && s.pend[guid] < |s.q.rows|
    && s.pend[guid] !in s.wrote
    && var t := s.q.rows[s.pend[guid]];
       t.queue == DOWNLOAD_QUEUE && t.data == Text(guid) && !t.deleted
  }

  ghost predicate OutboxInv(s: State) {
    && QueueShape(s.q)
    && PhasesFit(s)
    && (forall i :: WriteFits(s, i))
    && (forall g :: g in s.episodes && s.episodes[g].status == Pending ==> PendingHasTask(s, g))
  }

  /** Rows keep their queue and data, and there are never fewer. */
  ghost predicate RowsKept(q: Q.State, q': Q.State) {
    && |q.rows| <= |q'.rows|
    && forall i :: 0 <= i < |q.rows| ==> q'.rows[i].queue == q.rows[i].queue && q'.rows[i].data == q.rows[i].data
  }

  lemma QueueStepKeepsShape(q: Q.State, e: Q.Event)
    requires QueueShape(q) && Q.Enabled(q, e)
    ensures QueueShape(Q.Apply(q, e)) && RowsKept(q, Q.Apply(q, e))
  {
  }

  lemma StepKeepsShape(s: State, e: Event)
    requires QueueShape(s.q) && Enabled(s, e)
    ensures QueueShape(Apply(s, e).q) && RowsKept(s.q, Apply(s, e).q)
  {
    match e
    case Create(ep, visibleAt, createdAt) =>
      QueueStepKeepsShape(s.q, Q.Push(DOWNLOAD_QUEUE, Text(ep.guid), visibleAt, createdAt));
    case Requeue(guid, visibleAt, createdAt) =>
      QueueStepKeepsShape(s.q, Q.Push(DOWNLOAD_QUEUE, Text(guid), visibleAt, createdAt));
    case Receive(w, askedAt, leasedAt) =>
      QueueStepKeepsShape(s.q, Q.Pop(w, DOWNLOAD_QUEUE, askedAt, leasedAt));
    case WriteBack(w, now) =>
      QueueStepKeepsShape(s.q, Ending(s, w, now));
    case WriteBackFails(w) =>
      QueueStepKeepsShape(s.q, Q.Drop(w));
    case Elsewhere(e) =>
      QueueStepKeepsShape(s.q, e);
    case _ =>
  }

  lemma StepKeepsHandlers(s: State, e: Event, w: nat)
    requires Enabled(s, e)
    requires w in s.q.holds && s.q.holds[w].queue == DOWNLOAD_QUEUE ==> w in s.phases
    requires w in Apply(s, e).q.holds && Apply(s, e).q.holds[w].queue == DOWNLOAD_QUEUE
    ensures w in Apply(s, e).phases
  {
  }

  lemma StepKeepsKnown(s: State, e: Event, guid: string)
    requires Enabled(s, e) && Known(s, guid)
    ensures Known(Apply(s, e), guid)
  {
  }

  /** A step that leaves a handler where it is leaves its copy and the tasks that have written. */
  lemma OthersKeepHold(s: State, e: Event, w: nat)
    requires Enabled(s, e) && w in s.phases && w in s.q.holds
    requires w in Apply(s, e).phases && Apply(s, e).phases[w] == s.phases[w]
    ensures w in Apply(s, e).q.holds && Apply(s, e).q.holds[w] == s.q.holds[w] && s.wrote <= Apply(s, e).wrote
  {
  }

  lemma StepKeepsPhase(s: State, e: Event, w: nat)
    requires Enabled(s, e) && w in Apply(s, e).phases
    requires w in s.phases ==> PhaseFits(s, w)
    ensures PhaseFits(Apply(s, e), w)
  {
    if w in s.phases {
      if Apply(s, e).phases[w] == s.phases[w] {
        OthersKeepHold(s, e, w);
      }
      if !s.phases[w].Received? && !s.phases[w].Finished? {
        StepKeepsKnown(s, e, s.phases[w].guid);
      }
    }
  }

  lemma StepKeepsPhases(s: State, e: Event)
    requires QueueShape(s.q) && PhasesFit(s) && Enabled(s, e)
    ensures PhasesFit(Apply(s, e))
  {
    forall w | w in Apply(s, e).q.holds && Apply(s, e).q.holds[w].queue == DOWNLOAD_QUEUE
      ensures w in Apply(s, e).phases
    {
      StepKeepsHandlers(s, e, w);
    }
    forall w | w in Apply(s, e).phases
      ensures PhaseFits(Apply(s, e), w)
    {
      StepKeepsPhase(s, e, w);
    }
  }

  lemma OnlyCompletionDeletes(q: Q.State, e: Q.Event, i: nat)
    requires QueueShape(q) && Q.Enabled(q, e)
    ensures i < |Q.Apply(q, e).rows| && Q.Apply(q, e).rows[i].deleted ==>
              i < |q.rows| && (q.rows[i].deleted || (e.Complete? && q.holds[e.worker].id == i))
  {
  }

  lemma StepKeepsWrite(s: State, e: Event, i: nat)
    requires QueueShape(s.q) && PhasesFit(s) && Enabled(s, e) && WriteFits(s, i)
    ensures WriteFits(Apply(s, e), i)
  {
    match e
    case WriteBack(w, now) =>
      assert PhaseFits(s, w);
      OnlyCompletionDeletes(s.q, Ending(s, w, now), i);
    case Elsewhere(e) =>
      OnlyCompletionDeletes(s.q, e, i);
    case _ =>
  }

  lemma StepKeepsPending(s: State, e: Event, guid: string)
    requires QueueShape(s.q) && PhasesFit(s) && (forall i :: WriteFits(s, i)) && Enabled(s, e)
    requires guid in s.episodes && s.episodes[guid].status == Pending ==> PendingHasTask(s, guid)
    requires guid in Apply(s, e).episodes && Apply(s, e).episodes[guid].status == Pending
    ensures PendingHasTask(Apply(s, e), guid)
  {
    if (e.Create? && e.episode.guid == guid) || (e.Requeue? && e.guid == guid) {
      assert WriteFits(s, |s.q.rows|);
    } else {
      var i := s.pend[guid];
      StepKeepsShape(s, e);
      StepKeepsWrite(s, e, i);
      if e.WriteStatus? {
        assert PhaseFits(s, e.worker);
      }
      assert i !in Apply(s, e).wrote;
    }
  }

  lemma StepKeepsOutbox(s: State, e: Event)
    requires OutboxInv(s) && Enabled(s, e)
    ensures OutboxInv(Apply(s, e))
  {
    StepKeepsShape(s, e);
    StepKeepsPhases(s, e);
    forall i
      ensures WriteFits(Apply(s, e), i)
    {
      StepKeepsWrite(s, e, i);
    }
    forall g | g in Apply(s, e).episodes && Apply(s, e).episodes[g].status == Pending
      ensures PendingHasTask(Apply(s, e), g)
    {
      StepKeepsPending(s, e, g);
    }
  }

  lemma {:induction false} RunKeepsOutbox(s: State, es: seq<Event>)
    requires OutboxInv(s) && CanRun(s, es)
    ensures OutboxInv(Run(s, es))
    decreases |es|
  {
    if es != [] {
      StepKeepsOutbox(s, es[0]);
      RunKeepsOutbox(Apply(s, es[0]), es[1..]);
    }
  }

  /** The row pushed by the last event of the run that set the episode pending. */
  ghost function LastPended(s: State, es: seq<Event>, guid: string, before: Option<nat>): Option<nat>
    requires CanRun(s, es)
    decreases |es|
  {
    if es == [] then before else
    var sets := (es[0].Create? && es[0].episode.guid == guid) || (es[0].Requeue? && es[0].guid == guid);
    LastPended(Apply(s, es[0]), es[1..], guid, if sets then Some(|s.q.rows|) else before)
  }

  /** How many status writes of the run are made by a receive of the task. */
  ghost function StatusWrites(s: State, es: seq<Event>, task: nat): nat
    requires CanRun(s, es)
    decreases |es|
  {
    if es == [] then 0 else
    (if es[0].WriteStatus? && s.q.holds[es[0].worker].id == task then 1 else 0)
    + StatusWrites(Apply(s, es[0]), es[1..], task)
  }

  /** The history in the state is the history of the run. */
  lemma {:induction false} HistoryIsRight(s: State, es: seq<Event>, guid: string, task: nat)
    requires CanRun(s, es)
    ensures LastPended(s, es, guid, if guid in s.pend then Some(s.pend[guid]) else None) ==
              if guid in Run(s, es).pend then Some(Run(s, es).pend[guid]) else None
    ensures task in Run(s, es).wrote <==> task in s.wrote || StatusWrites(s, es, task) > 0
    decreases |es|
  {
    if es != [] {
      HistoryIsRight(Apply(s, es[0]), es[1..], guid, task);
    }
  }

  /** Transactional outbox, for any number of download workers and any lateness of theirs: whatever
      polls, downloads, requeues, failures and crashes there have been, a pending episode's last
      pending-setting transaction pushed a download task with its GUID which is not deleted, and no
      receive of that task has written a status. */
  lemma {:induction false} Outbox(clock: int, es: seq<Event>, guid: string)
    requires CanRun(EmptyAt(clock), es)
    requires var s := Run(EmptyAt(clock), es); guid in s.episodes && s.episodes[guid].status == Pending
    ensures var s, pushed := Run(EmptyAt(clock), es), LastPended(EmptyAt(clock), es, guid, None);
            && pushed.Some?
            && var i := pushed.value;
               && i < |s.q.rows|
               && s.q.rows[i].queue == DOWNLOAD_QUEUE && s.q.rows[i].data == Text(guid) && !s.q.rows[i].deleted
               && StatusWrites(EmptyAt(clock), es, i) == 0
  {
    var s := Run(EmptyAt(clock), es);
    RunKeepsOutbox(EmptyAt(clock), es);
    assert PendingHasTask(s, guid);
    HistoryIsRight(EmptyAt(clock), es, guid, s.pend[guid]);
  }
}
