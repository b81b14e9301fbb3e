/** When the status says success, the file is there: the download protocol with one download
    worker and the local object store. */
module StoredDownloads {
  import opened Queue
  import opened Paths
  import opened Podcasts
  import opened Pipeline

  /** One sequential download worker: it receives only when it is not handling a task. */
  ghost predicate OneDownloader(s: State, e: Event) {
    e.Receive? ==> s.phases == map[]
  }

  /** Status writes commit, and the process does not stop while a handler is at work. */
  ghost predicate Calm(s: State, e: Event) {
    !e.WriteFails? && (e.Crash? ==> forall w :: w in s.phases ==> s.phases[w].Finished?)
  }

  /** The handler has the object open, or has left it and not yet written the status. */
  ghost predicate HasTouched(p: Phase, guid: string) {
    match p
    case Writing(g) => g == guid
    case Saved(g, _) => g == guid
    case SaveFailed(g) => g == guid
    case _ => false
  }

  ghost predicate SuccessIsStored(s: State, guid: string) {
    guid in s.episodes && s.episodes[guid].status == Success && guid !in s.unsettled ==>
      Stored(s.episodes[guid], s.objects)
  }

  ghost predicate CopyInHand(s: State, w: nat)
    requires w in s.phases
  {
    match s.phases[w]
    case Writing(g) => g in s.unsettled
    case Saved(g, n) =>
      && g in s.unsettled && Known(s, g)
      && var path := PathOf(s.episodes[g]).value;
         path in s.objects && s.objects[path] == Object(n, true)
    case _ => true
  }

  ghost predicate StoredInv(s: State) {
    && WellKeyed(s.episodes)
    && (forall v, w :: v in s.phases && w in s.phases ==> v == w)
    && (forall w :: w in s.phases ==> CopyInHand(s, w))
    && (forall g :: SuccessIsStored(s, g))
  }

  /** Writing one episode's object leaves every other episode's object alone. */
  lemma WriteElsewhere(s: State, written: string, guid: string)
    requires WellKeyed(s.episodes) && Known(s, written)
    ensures guid != written && Known(s, guid) ==>
              PathOf(s.episodes[guid]).value != PathOf(s.episodes[written]).value
  {
    if guid != written && Known(s, guid) {
      var a, b := s.episodes[guid], s.episodes[written];
      EpisodePathsDistinct(a.podcastGuid, a.guid, MimeToExt(a.mime).value, b.podcastGuid, b.guid, MimeToExt(b.mime).value);
    }
  }

  lemma ImageElsewhere(e: Episode, podcastGuid: string)
    requires PathOf(e).Some?
    ensures PathOf(e).value != ImagePath(podcastGuid)
  {
    ImagePathsApart(e.podcastGuid, e.guid, e.mime, podcastGuid);
  }

  lemma StepKeepsKeys(s: State, e: Event)
    requires WellKeyed(s.episodes) && Enabled(s, e)
    ensures WellKeyed(Apply(s, e).episodes)
  {
    var after := Apply(s, e).episodes;
    forall g | g in after
      ensures after[g].guid == g && Clean(g) && Clean(after[g].podcastGuid)
    {
      assert g in s.episodes || (e.Create? && g == e.episode.guid);
    }
  }

  lemma StepKeepsOne(s: State, e: Event)
    requires (forall v, w :: v in s.phases && w in s.phases ==> v == w) && Enabled(s, e) && OneDownloader(s, e)
    ensures var s' := Apply(s, e); forall v, w :: v in s'.phases && w in s'.phases ==> v == w
  {
  }

  lemma StepKeepsCopy(s: State, e: Event, w: nat)
    requires StoredInv(s) && Enabled(s, e) && OneDownloader(s, e) && w in Apply(s, e).phases
    ensures CopyInHand(Apply(s, e), w)
  {
    if e.SaveImage? && w in s.phases && s.phases[w].Saved? {
      ImageElsewhere(s.episodes[s.phases[w].guid], e.podcastGuid);
    }
  }

  lemma StepKeepsSuccess(s: State, e: Event, guid: string)
    requires StoredInv(s) && Enabled(s, e)
    ensures SuccessIsStored(Apply(s, e), guid)
  {
    assert SuccessIsStored(s, guid);
    match e
    case Truncate(w) => WriteElsewhere(s, s.phases[w].guid, guid);
    case CopyEnds(w, _) => WriteElsewhere(s, s.phases[w].guid, guid);
    case CopyFails(w, _) => WriteElsewhere(s, s.phases[w].guid, guid);
    case WriteStatus(w) => assert CopyInHand(s, w);
    case SaveImage(podcastGuid, _) =>
      if guid in s.episodes && PathOf(s.episodes[guid]).Some? {
        ImageElsewhere(s.episodes[guid], podcastGuid);
      }
    case _ =>
  }

  lemma StepKeepsStored(s: State, e: Event)
    requires StoredInv(s) && Enabled(s, e) && OneDownloader(s, e)
    ensures StoredInv(Apply(s, e))
  {
    StepKeepsKeys(s, e);
    StepKeepsOne(s, e);
    forall w | w in Apply(s, e).phases
      ensures CopyInHand(Apply(s, e), w)
    {
      StepKeepsCopy(s, e, w);
    }
    forall g
      ensures SuccessIsStored(Apply(s, e), g)
    {
      StepKeepsSuccess(s, e, g);
    }
  }

  /** An unsettled object is in the hands of the handler at work. */
  ghost predicate TouchedNow(s: State, guid: string) {
    exists w :: w in s.phases && HasTouched(s.phases[w], guid)
  }

  lemma StepKeepsTouched(s: State, e: Event, guid: string)
    requires (forall v, w :: v in s.phases && w in s.phases ==> v == w)
    requires Enabled(s, e) && OneDownloader(s, e) && Calm(s, e)
    requires guid in s.unsettled ==> TouchedNow(s, guid)
    ensures guid in Apply(s, e).unsettled ==> TouchedNow(Apply(s, e), guid)
  {
    var s' := Apply(s, e);
    if guid in s'.unsettled {
      if e.Truncate? && s.phases[e.worker].guid == guid {
        assert e.worker in s'.phases && HasTouched(s'.phases[e.worker], guid);
      } else {
        var w :| w in s.phases && HasTouched(s.phases[w], guid);
        assert w in s'.phases && HasTouched(s'.phases[w], guid);
      }
    }
  }

  lemma {:induction false} RunKeepsStored(s: State, es: seq<Event>)
    requires StoredInv(s) && CanRun(s, es) && Along(s, es, OneDownloader)
    ensures StoredInv(Run(s, es))
    decreases |es|
  {
    if es != [] {
      StepKeepsStored(s, es[0]);
      RunKeepsStored(Apply(s, es[0]), es[1..]);
    }
  }

  lemma {:induction false} RunKeepsTouched(s: State, es: seq<Event>, guid: string)
    requires StoredInv(s) && CanRun(s, es) && Along(s, es, OneDownloader) && Along(s, es, Calm)
    requires guid in s.unsettled ==> TouchedNow(s, guid)
    ensures guid in Run(s, es).unsettled ==> TouchedNow(Run(s, es), guid)
    decreases |es|
  {
    if es != [] {
      StepKeepsTouched(s, es[0], guid);
      StepKeepsStored(s, es[0]);
      RunKeepsTouched(Apply(s, es[0]), es[1..], guid);
    }
  }

  /** With one download worker, whatever fails or crashes: a success episode whose object is not
      all there was truncated by a receive that has not written a status since. */
  lemma {:induction false} SuccessOrUnsettled(clock: int, es: seq<Event>, guid: string)
    requires CanRun(EmptyAt(clock), es) && Along(EmptyAt(clock), es, OneDownloader)
    requires var s := Run(EmptyAt(clock), es); guid in s.episodes && s.episodes[guid].status == Success
    ensures var s := Run(EmptyAt(clock), es);
            Stored(s.episodes[guid], s.objects) || guid in s.unsettled
  {
    RunKeepsStored(EmptyAt(clock), es);
    assert SuccessIsStored(Run(EmptyAt(clock), es), guid);
  }

  /** Success means stored: if moreover status writes commit and no crash hits a handler at work,
      then between tasks every success episode has its object complete and its bytes right, also
      after requeues during a download. */
  lemma {:induction false} SuccessMeansStored(clock: int, es: seq<Event>, guid: string)
    requires CanRun(EmptyAt(clock), es) && Along(EmptyAt(clock), es, OneDownloader) && Along(EmptyAt(clock), es, Calm)
    requires var s := Run(EmptyAt(clock), es);
             s.phases == map[] && guid in s.episodes && s.episodes[guid].status == Success
    ensures var s := Run(EmptyAt(clock), es); Stored(s.episodes[guid], s.objects)
  {
    SuccessOrUnsettled(clock, es, guid);
    RunKeepsTouched(EmptyAt(clock), es, guid);
  }

  /** A free worker's next task is for an episode the store knows. */
  ghost predicate NextIs(s: State, w: nat, at: int, guid: string) {
    && s.phases == map[]
    && Enabled(s, Receive(w, at, at))
    && s.q.rows[FirstEligible(s.q.rows, DOWNLOAD_QUEUE, at).value].data == Text(guid)
    && Known(s, guid)
  }

  ghost predicate NextIsDone(s: State, w: nat, at: int, guid: string) {
    NextIs(s, w, at, guid) && s.episodes[guid].status == Success
  }

  /** Why a crash is excluded: when the free worker's next task is for a success episode, receiving
      it, opening the object and crashing leaves the episode at success with an empty, incomplete
      object and nobody at work on it. */
  lemma {:induction false} TruncateAndCrash(s: State, w: nat, guid: string)
    requires w in s.phases && s.phases[w] == Loaded(guid) && Known(s, guid)
    ensures var es := [Truncate(w)] + ([Crash] + []);
            && CanRun(s, es)
            && var s' := Run(s, es);
               s'.phases == map[] && s'.episodes == s.episodes && !Stored(s'.episodes[guid], s'.objects)
  {
    var s1 := Apply(s, Truncate(w));
    var s2 := Apply(s1, Crash);
    assert CanRun(s2, []) && Run(s2, []) == s2;
    RunCons(s1, Crash, []);
    RunCons(s, Truncate(w), [Crash] + []);
  }

  lemma {:induction false} CrashUnstores(s: State, w: nat, at: int, guid: string)
    requires NextIsDone(s, w, at, guid)
    ensures var es := [Receive(w, at, at), Load(w), Truncate(w), Crash];
            && CanRun(s, es)
            && var s' := Run(s, es);
               && s'.phases == map[]
               && guid in s'.episodes
               && s'.episodes[guid].status == Success
               && !Stored(s'.episodes[guid], s'.objects)
  {
    var s1 := Apply(s, Receive(w, at, at));
    var ending := [Truncate(w)] + ([Crash] + []);
    TruncateAndCrash(Apply(s1, Load(w)), w, guid);
    RunCons(s1, Load(w), ending);
    RunCons(s, Receive(w, at, at), [Load(w)] + ending);
    assert [Receive(w, at, at)] + ([Load(w)] + ending) == [Receive(w, at, at), Load(w), Truncate(w), Crash];
  }

  lemma RunStepCalmly(s: State, e: Event, es: seq<Event>) returns (es': seq<Event>)
    requires Enabled(s, e) && OneDownloader(s, e) && Calm(s, e)
    requires var s' := Apply(s, e); CanRun(s', es) && Along(s', es, OneDownloader) && Along(s', es, Calm)
    ensures es' == [e] + es && CanRun(s, es') && Run(s, es') == Run(Apply(s, e), es)
    ensures Along(s, es', OneDownloader) && Along(s, es', Calm)
  {
    es' := [e] + es;
    assert es'[1..] == es;
  }

  /** The events of a download that goes well. */
  ghost function Download(w: nat, at: int, length: nat): seq<Event> {
    [Receive(w, at, at)] + ([Load(w)] + ([Truncate(w)] +
    ([CopyEnds(w, length)] + ([WriteStatus(w)] + ([WriteBack(w, at)] + [])))))
  }

  /** The state such a download leaves. */
  ghost function Downloaded(s: State, w: nat, at: int, guid: string, length: nat): State
    requires NextIs(s, w, at, guid) && QueueShape(s.q)
  {
    var i := FirstEligible(s.q.rows, DOWNLOAD_QUEUE, at).value;
    s.(q := s.q.(rows := s.q.rows[i := Leased(s.q.rows[i], at).(deleted := true)],
                 clock := at,
                 log := s.q.log + [Q.Receive(i, at, at)]),
       episodes := WithDownload(s.episodes, guid, length),
       objects := PutObject(s, guid, Object(length, true)),
       wrote := s.wrote + {i},
       unsettled := s.unsettled - {guid})
  }

  /** The state after a handler that has read its episode has saved the file and written success. */
  ghost function SavedWell(s: State, w: nat, guid: string, length: nat): State
    requires w in s.phases && w in s.q.holds && Known(s, guid)
  {
    s.(episodes := WithDownload(s.episodes, guid, length),
       objects := PutObject(s, guid, Object(length, true)),
       phases := s.phases[w := Finished(true)],
       wrote := s.wrote + {s.q.holds[w].id},
       unsettled := s.unsettled - {guid})
  }

  lemma SavedWellIs(s: State, w: nat, guid: string, length: nat)
    requires w in s.phases && s.phases[w] == Loaded(guid) && w in s.q.holds && Known(s, guid)
    ensures Enabled(s, Truncate(w))
    ensures var s1 := Apply(s, Truncate(w));
            && Enabled(s1, CopyEnds(w, length))
            && var s2 := Apply(s1, CopyEnds(w, length));
               Enabled(s2, WriteStatus(w)) && Apply(s2, WriteStatus(w)) == SavedWell(s, w, guid, length)
  {
  }

  lemma SaveGoesWell(s: State, w: nat, guid: string, length: nat, rest: seq<Event>) returns (es: seq<Event>)
    requires w in s.phases && s.phases[w] == Loaded(guid) && w in s.q.holds && Known(s, guid)
    requires var s' := SavedWell(s, w, guid, length);
             CanRun(s', rest) && Along(s', rest, OneDownloader) && Along(s', rest, Calm)
    ensures es == [Truncate(w)] + ([CopyEnds(w, length)] + ([WriteStatus(w)] + rest))
    ensures CanRun(s, es) && Along(s, es, OneDownloader) && Along(s, es, Calm)
    ensures Run(s, es) == Run(SavedWell(s, w, guid, length), rest)
  {
    var s1 := Apply(s, Truncate(w));
    var s2 := Apply(s1, CopyEnds(w, length));
    SavedWellIs(s, w, guid, length);
    es := RunStepCalmly(s2, WriteStatus(w), rest);
    es := RunStepCalmly(s1, CopyEnds(w, length), es);
    es := RunStepCalmly(s, Truncate(w), es);
  }

  /** The state after the free worker has received its next task and read the episode. */
  ghost function InHand(s: State, w: nat, at: int, guid: string): State
    requires NextIs(s, w, at, guid)
  {
    s.(q := Q.Apply(s.q, Q.Pop(w, DOWNLOAD_QUEUE, at, at)), phases := map[w := Loaded(guid)])
  }

  lemma ReceiveAndLoad(s: State, w: nat, at: int, guid: string, rest: seq<Event>) returns (es: seq<Event>)
    requires NextIs(s, w, at, guid)
    requires var s' := InHand(s, w, at, guid);
             CanRun(s', rest) && Along(s', rest, OneDownloader) && Along(s', rest, Calm)
    ensures es == [Receive(w, at, at)] + ([Load(w)] + rest)
    ensures CanRun(s, es) && Along(s, es, OneDownloader) && Along(s, es, Calm)
    ensures Run(s, es) == Run(InHand(s, w, at, guid), rest)
  {
    var s1 := Apply(s, Receive(w, at, at));
    assert Apply(s1, Load(w)) == InHand(s, w, at, guid);
    es := RunStepCalmly(s1, Load(w), rest);
    es := RunStepCalmly(s, Receive(w, at, at), es);
  }

  lemma WriteBackGoesWell(s: State, w: nat, at: int, guid: string, length: nat)
    requires NextIs(s, w, at, guid) && QueueShape(s.q)
    ensures var saved := SavedWell(InHand(s, w, at, guid), w, guid, length);
            Enabled(saved, WriteBack(w, at)) && Apply(saved, WriteBack(w, at)) == Downloaded(s, w, at, guid, length)
  {
    var saved, done := SavedWell(InHand(s, w, at, guid), w, guid, length), Downloaded(s, w, at, guid, length);
    assert saved.phases[w] == Finished(true);
    assert done.q.holds == saved.q.holds - {w};
    assert done.phases == saved.phases - {w};
  }

  /** The free worker's next task, when its download goes well, leaves its episode a success with
      the object stored and the task completed, and touches no other episode and no other row. */
  lemma {:induction false} DownloadGoesWell(s: State, w: nat, at: int, guid: string, length: nat)
    requires NextIs(s, w, at, guid) && QueueShape(s.q)
    ensures var es := Download(w, at, length);
            && CanRun(s, es) && Along(s, es, OneDownloader) && Along(s, es, Calm)
            && Run(s, es) == Downloaded(s, w, at, guid, length)
  {
    var read := InHand(s, w, at, guid);
    var saved := SavedWell(read, w, guid, length);
    var done := Downloaded(s, w, at, guid, length);
    WriteBackGoesWell(s, w, at, guid, length);
    assert CanRun(done, []) && Run(done, []) == done;
    var es := RunStepCalmly(saved, WriteBack(w, at), []);
    es := SaveGoesWell(read, w, guid, length, es);
    es := ReceiveAndLoad(s, w, at, guid, es);
  }

  ghost function ParsedExample(): Episode {
    Episode("a", "p", "t", "", "u", 0, "audio/mpeg", 0, 0, Unset)
  }

  ghost function CreatedExample(): State {
    State(Q.State([NewTask(0, DOWNLOAD_QUEUE, Text("a"), 0, 0)], map[], 0, []),
          map["a" := ParsedExample().(status := Pending)], map[], map[], map["a" := 0], {}, {})
  }

  /** Two tasks for one pending episode, as a requeue before the first download leaves. */
  ghost function RequeuedExample(): State {
    var tasks := [NewTask(0, DOWNLOAD_QUEUE, Text("a"), 0, 0), NewTask(1, DOWNLOAD_QUEUE, Text("a"), 0, 0)];
    State(Q.State(tasks, map[], 0, []),
          map["a" := ParsedExample().(status := Pending)], map[], map[], map["a" := 1], {}, {})
  }

  lemma ExampleDownloads()
    ensures QueueShape(RequeuedExample().q) && NextIs(RequeuedExample(), 0, 1, "a")
    ensures NextIsDone(Downloaded(RequeuedExample(), 0, 1, "a", 5), 0, 2, "a")
  {
    var s := RequeuedExample();
    assert Eligible(s.q.rows[0], DOWNLOAD_QUEUE, 1);
    var s' := Downloaded(s, 0, 1, "a", 5);
    assert s'.q.rows[0].deleted && s'.q.rows[1] == s.q.rows[1];
    assert Eligible(s'.q.rows[1], DOWNLOAD_QUEUE, 2);
  }

  lemma CreatedIsReached()
    ensures var e := Create(ParsedExample(), 0, 0);
            Enabled(EmptyAt(0), e) && Apply(EmptyAt(0), e) == CreatedExample()
  {
    var s := Apply(EmptyAt(0), Create(ParsedExample(), 0, 0));
    assert s.q == CreatedExample().q;
  }

  lemma RequeuedIsReached()
    ensures var e := Requeue("a", 0, 0);
            Enabled(CreatedExample(), e) && Apply(CreatedExample(), e) == RequeuedExample()
  {
    var s := Apply(CreatedExample(), Requeue("a", 0, 0));
    assert s.q == RequeuedExample().q;
    assert s.episodes == RequeuedExample().episodes;
  }

  /** A success episode can be next in the queue: the requeue of a pending episode leaves two tasks
      for it, and the first of them may go well. */
  lemma RequeueGivesNextIsDone() returns (es: seq<Event>)
    ensures CanRun(EmptyAt(0), es) && Along(EmptyAt(0), es, OneDownloader) && Along(EmptyAt(0), es, Calm)
    ensures NextIsDone(Run(EmptyAt(0), es), 0, 2, "a")
  {
    ExampleDownloads();
    CreatedIsReached();
    RequeuedIsReached();
    DownloadGoesWell(RequeuedExample(), 0, 1, "a", 5);
    es := RunStepCalmly(CreatedExample(), Requeue("a", 0, 0), Download(0, 1, 5));
    es := RunStepCalmly(EmptyAt(0), Create(ParsedExample(), 0, 0), es);
  }
}
