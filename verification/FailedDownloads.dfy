/** What a failing download shows. The documentation promises one try and five retries, and then the
    status failed: when that is so, over whole runs. */
module FailedDownloads {
  import opened Queue
  import opened Podcasts
  import opened Pipeline
  import opened StoredDownloads
  import Q = QueueRuns

  ghost predicate IsRequeue(e: Event, guid: string) {
    e.Requeue? && e.guid == guid
  }

  ghost predicate NoRequeue(es: seq<Event>, guid: string) {
    forall k :: 0 <= k < |es| ==> !IsRequeue(es[k], guid)
  }

  ghost predicate IsTaskOf(t: Task, guid: string) {
    t.queue == DOWNLOAD_QUEUE && t.data == Text(guid)
  }

  /** Until somebody requeues it, an episode has the one task with which it was created. */
  ghost predicate OnlyTask(s: State, guid: string) {
    if guid in s.episodes then
      && guid in s.pend && s.pend[guid] < |s.q.rows|
      && forall i :: 0 <= i < |s.q.rows| ==> (IsTaskOf(s.q.rows[i], guid) <==> i == s.pend[guid])
    else
      forall i :: 0 <= i < |s.q.rows| ==> !IsTaskOf(s.q.rows[i], guid)
  }

  /** The status that the last write of the run by a receive of the task wrote. */
  ghost function LastWrite(s: State, es: seq<Event>, task: nat, shown: Status): Status
    requires CanRun(s, es)
    decreases |es|
  {
    if es == [] then shown else LastWrite(Apply(s, es[0]), es[1..], task, Writes(s, es[0], task, shown))
  }

  ghost function Writes(s: State, e: Event, task: nat, shown: Status): Status
    requires Enabled(s, e)
  {
    if e.WriteStatus? && s.q.holds[e.worker].id == task
    then if s.phases[e.worker].Saved? then Success else Failed
    else shown
  }

  lemma NewRows(s: State, e: Event, i: nat)
    requires QueueShape(s.q) && Enabled(s, e) && |s.q.rows| <= i < |Apply(s, e).q.rows|
    ensures i == |s.q.rows|
    ensures Apply(s, e).q.rows[i].queue == DOWNLOAD_QUEUE ==>
              && (e.Create? || e.Requeue?)
              && Apply(s, e).q.rows[i].data == Text(if e.Create? then e.episode.guid else e.guid)
  {
  }

  lemma StepKeepsOnlyTask(s: State, e: Event, guid: string)
    requires QueueShape(s.q) && OnlyTask(s, guid) && Enabled(s, e) && !IsRequeue(e, guid)
    ensures OnlyTask(Apply(s, e), guid)
    ensures guid in s.episodes ==> guid in Apply(s, e).episodes && Apply(s, e).pend[guid] == s.pend[guid]
    ensures guid !in s.episodes && guid in Apply(s, e).episodes ==>
              && Apply(s, e).episodes[guid].status == Pending && Apply(s, e).pend[guid] == |s.q.rows|
  {
    var s' := Apply(s, e);
    StepKeepsShape(s, e);
    forall i: nat | i < |s'.q.rows|
      ensures IsTaskOf(s'.q.rows[i], guid) <==>
                if i < |s.q.rows| then IsTaskOf(s.q.rows[i], guid) else e.Create? && e.episode.guid == guid
    {
      if i >= |s.q.rows| {
        NewRows(s, e, i);
      }
    }
  }

  /** An episode's status is written by receives of its task, and by nothing else. */
  lemma StepShows(s: State, e: Event, guid: string)
    requires OutboxInv(s) && OnlyTask(s, guid) && Enabled(s, e) && !IsRequeue(e, guid) && guid in s.episodes
    ensures guid in Apply(s, e).episodes
    ensures Apply(s, e).episodes[guid].status == Writes(s, e, s.pend[guid], s.episodes[guid].status)
  {
    if e.WriteStatus? {
      assert PhaseFits(s, e.worker);
      assert s.phases[e.worker].guid == guid <==> IsTaskOf(s.q.rows[s.q.holds[e.worker].id], guid);
    }
  }

  lemma {:induction false} RunShows(s: State, es: seq<Event>, guid: string)
    requires OutboxInv(s) && OnlyTask(s, guid) && CanRun(s, es) && NoRequeue(es, guid) && guid in s.episodes
    ensures var s' := Run(s, es);
            && OnlyTask(s', guid) && guid in s'.episodes && s'.pend[guid] == s.pend[guid]
            && s'.episodes[guid].status == LastWrite(s, es, s.pend[guid], s.episodes[guid].status)
    decreases |es|
  {
    if es != [] {
      assert !IsRequeue(es[0], guid);
      StepKeepsOnlyTask(s, es[0], guid);
      StepShows(s, es[0], guid);
      StepKeepsOutbox(s, es[0]);
      NoRequeueLater(es, guid);
      RunShows(Apply(s, es[0]), es[1..], guid);
    }
  }

  lemma NoRequeueLater(es: seq<Event>, guid: string)
    requires es != [] && NoRequeue(es, guid)
    ensures NoRequeue(es[1..], guid)
  {
    assert forall k :: 0 <= k < |es[1..]| ==> es[1..][k] == es[k + 1];
  }

  /** The same from before the episode's creation: none of the earlier writes is its task's. */
  lemma {:induction false} RunShowsCreated(s: State, es: seq<Event>, guid: string)
    requires OutboxInv(s) && OnlyTask(s, guid) && CanRun(s, es) && NoRequeue(es, guid) && guid !in s.episodes
    ensures var s' := Run(s, es);
            && OnlyTask(s', guid)
            && (guid in s'.episodes ==>
                  && s'.pend[guid] >= |s.q.rows|
                  && s'.episodes[guid].status == LastWrite(s, es, s'.pend[guid], Pending))
    decreases |es|
  {
    if es != [] {
      var s1 := Apply(s, es[0]);
      assert !IsRequeue(es[0], guid);
      StepKeepsOnlyTask(s, es[0], guid);
      StepKeepsShape(s, es[0]);
      StepKeepsOutbox(s, es[0]);
      NoRequeueLater(es, guid);
      if guid in s1.episodes {
        RunShows(s1, es[1..], guid);
      } else {
        RunShowsCreated(s1, es[1..], guid);
      }
    }
  }

  lemma {:induction false} PendingExactly(s: State, es: seq<Event>, task: nat, shown: Status)
    requires CanRun(s, es)
    ensures LastWrite(s, es, task, shown) == Pending <==> shown == Pending && StatusWrites(s, es, task) == 0
    decreases |es|
  {
    if es != [] {
      PendingExactly(Apply(s, es[0]), es[1..], task, Writes(s, es[0], task, shown));
    }
  }

  /** Whatever fails, crashes or overlaps: an episode that nobody has requeued has one task, and shows
      what the last status write of a receive of that task wrote, failed or success. It shows pending
      exactly as long as none of them has written a status, however many receives there have been. */
  lemma {:induction false} ShowsLastWrite(clock: int, es: seq<Event>, guid: string)
    requires CanRun(EmptyAt(clock), es) && NoRequeue(es, guid) && guid in Run(EmptyAt(clock), es).episodes
    ensures var s, pushed := Run(EmptyAt(clock), es), LastPended(EmptyAt(clock), es, guid, None);
            && pushed.Some?
            && (forall i :: 0 <= i < |s.q.rows| ==> (IsTaskOf(s.q.rows[i], guid) <==> i == pushed.value))
            && s.episodes[guid].status == LastWrite(EmptyAt(clock), es, pushed.value, Pending)
            && (s.episodes[guid].status == Pending <==> StatusWrites(EmptyAt(clock), es, pushed.value) == 0)
  {
    RunShowsCreated(EmptyAt(clock), es, guid);
    var task := Run(EmptyAt(clock), es).pend[guid];
    HistoryIsRight(EmptyAt(clock), es, guid, task);
    PendingExactly(EmptyAt(clock), es, task, Pending);
  }

  // ---- the promise fails ----

  /** Nobody is at work, and the one task there is has been received so often; its episode is pending. */
  ghost predicate Tried(s: State, receives: nat) {
    && s.phases == map[] && s.q.holds == map[]
    && |s.q.rows| == 1
    && s.q.rows[0] == Task(0, DOWNLOAD_QUEUE, s.q.rows[0].createdAt, s.q.rows[0].visibleAfter, receives, Text("a"), false)
    && "a" in s.episodes && s.episodes["a"].status == Pending
  }

  /** One more receive, of which the handler ends before the download. */
  lemma TryOnce(s: State, receives: nat, at: int)
    requires Tried(s, receives) && receives <= MAX_RECEIVES && at > s.q.clock && at > s.q.rows[0].visibleAfter
    ensures Enabled(s, Receive(0, at, at))
    ensures var s1 := Apply(s, Receive(0, at, at));
            && Enabled(s1, LoadFails(0))
            && var s2 := Apply(s1, LoadFails(0));
               && Enabled(s2, WriteBack(0, at))
               && Tried(Apply(s2, WriteBack(0, at)), receives + 1)
  {
    assert Eligible(s.q.rows[0], DOWNLOAD_QUEUE, at);
    var s2 := Apply(Apply(s, Receive(0, at, at)), LoadFails(0));
    assert s2.q.holds == map[0 := Leased(s.q.rows[0], at)] && s2.phases == map[0 := Finished(false)];
    assert Apply(s2, WriteBack(0, at)).q.holds == map[] && Apply(s2, WriteBack(0, at)).phases == map[];
  }

  lemma {:induction false} TryToTheEnd(s: State, receives: nat) returns (es: seq<Event>)
    requires Tried(s, receives) && receives <= MAX_RECEIVES + 1
    ensures CanRun(s, es) && Along(s, es, OneDownloader) && Along(s, es, Calm) && NoRequeue(es, "a")
    ensures Tried(Run(s, es), MAX_RECEIVES + 1)
    decreases MAX_RECEIVES + 1 - receives
  {
    if receives == MAX_RECEIVES + 1 {
      es := [];
      assert CanRun(s, es) && Run(s, es) == s && Along(s, es, OneDownloader) && Along(s, es, Calm);
    } else {
      var at := (if s.q.clock > s.q.rows[0].visibleAfter then s.q.clock else s.q.rows[0].visibleAfter) + 1;
      TryOnce(s, receives, at);
      var s1 := Apply(s, Receive(0, at, at));
      var s2 := Apply(s1, LoadFails(0));
      var rest := TryToTheEnd(Apply(s2, WriteBack(0, at)), receives + 1);
      es := RunStepCalmly(s2, WriteBack(0, at), rest);
      es := RunStepCalmly(s1, LoadFails(0), es);
      es := RunStepCalmly(s, Receive(0, at, at), es);
    }
  }

  /** A run with one download worker, without a crash and without a failed status write, that uses up
      the receives of an episode's task on errors before the download, such as credentials that cannot
      be decrypted any more: nothing is ever delivered again, and the episode shows pending. */
  lemma ExhaustedIsReached() returns (es: seq<Event>)
    ensures CanRun(EmptyAt(0), es) && Along(EmptyAt(0), es, OneDownloader) && Along(EmptyAt(0), es, Calm)
    ensures NoRequeue(es, "a")
    ensures var s := Run(EmptyAt(0), es);
            && "a" in s.episodes && s.episodes["a"].status == Pending && s.phases == map[]
            && |s.q.rows| == 1 && IsTaskOf(s.q.rows[0], "a") && s.q.rows[0].receiveCount == 6 && !s.q.rows[0].deleted
            && forall at :: FirstEligible(s.q.rows, DOWNLOAD_QUEUE, at).None?
  {
    var ep := Episode("a", "p", "t", "", "u", 0, "audio/mpeg", 0, 0, Unset);
    var s := Apply(EmptyAt(0), Create(ep, 0, 0));
    assert Tried(s, 0);
    var rest := TryToTheEnd(s, 0);
    es := RunStepCalmly(EmptyAt(0), Create(ep, 0, 0), rest);
  }
}
