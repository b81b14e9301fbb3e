/** The handlers that change a download's status: the download worker of
    pkg/downloadworker/downloadworker.go and the requeue of pkg/webserver/handlers.go. */
module DownloadWorker {
  import opened Queue
  import opened Paths
  import opened Podcasts
  import opened Pipeline
  import W = QueueWorkers

  /** What one run of the handler meets: whether the episode, podcast and credentials can be read,
      whether the file opens and the copy ends, with how many bytes, and whether the status write commits. */
  datatype Attempt = Attempt(
    episodeReads: bool,
    podcastReads: bool,
    credentialsRead: bool,
    opens: bool,
    copies: bool,
    length: nat,
    statusCommits: bool)

  /** Everything before the download goes well. */
  ghost predicate GetsToDownload(episodes: map<string, Episode>, data: Payload, a: Attempt) {
    && data.Text? && a.episodeReads && data.text in episodes
    && a.podcastReads && a.credentialsRead
    && PathOf(episodes[data.text]).Some?
  }

  /** The steps of the protocol that one run of the handler takes. */
  ghost function HandlerEvents(episodes: map<string, Episode>, data: Payload, w: nat, a: Attempt): seq<Event> {
    if !GetsToDownload(episodes, data, a) then [LoadFails(w)] else
    [Load(w)] +
    (if a.opens then [Truncate(w)] + ([CopyEvent(w, a)] + [StatusEvent(w, a)])
     else [OpenFails(w)] + [StatusEvent(w, a)])
  }

  /** The episode rows after the status write of a download that was saved or failed. */
  ghost function EpisodesAfter(episodes: map<string, Episode>, guid: string, saved: bool, a: Attempt)
    : map<string, Episode>
    requires guid in episodes
  {
    if !a.statusCommits then episodes
    else if saved then WithDownload(episodes, guid, a.length)
    else WithStatus(episodes, guid, Failed)
  }

  /** The episode rows, the object and the handler's result that an attempt at a download leaves. */
  ghost predicate Leaves(s: State, s': State, w: nat, guid: string, a: Attempt)
    requires Known(s, guid)
  {
    && s'.objects == (if a.opens then PutObject(s, guid, Object(a.length, a.copies)) else s.objects)
    && s'.episodes == EpisodesAfter(s.episodes, guid, a.opens && a.copies, a)
    && w in s'.phases
    && s'.phases[w] == Finished(a.opens && a.copies && a.statusCommits)
  }

  ghost function StatusEvent(w: nat, a: Attempt): Event {
    if a.statusCommits then WriteStatus(w) else WriteFails(w)
  }

  ghost function CopyEvent(w: nat, a: Attempt): Event {
    if a.copies then CopyEnds(w, a.length) else CopyFails(w, a.length)
  }

  lemma {:induction false} StatusWriteRuns(s: State, w: nat, guid: string, saved: bool, a: Attempt)
    requires w in s.phases && w in s.q.holds && guid in s.episodes
    requires s.phases[w] == if saved then Saved(guid, a.length) else SaveFailed(guid)
    ensures CanRun(s, [StatusEvent(w, a)])
    ensures var s' := Run(s, [StatusEvent(w, a)]);
            && s'.objects == s.objects
            && s'.episodes == EpisodesAfter(s.episodes, guid, saved, a)
            && w in s'.phases
            && s'.phases[w] == Finished(saved && a.statusCommits)
  {
  }

  lemma {:induction false} OpenFailsRuns(s: State, w: nat, guid: string, a: Attempt)
    requires w in s.phases && w in s.q.holds && Known(s, guid) && s.phases[w] == Loaded(guid) && !a.opens
    ensures var es := [OpenFails(w)] + [StatusEvent(w, a)];
            CanRun(s, es) && Leaves(s, Run(s, es), w, guid, a)
  {
    StatusWriteRuns(Apply(s, OpenFails(w)), w, guid, false, a);
    RunCons(s, OpenFails(w), [StatusEvent(w, a)]);
  }

  lemma {:induction false} CopyRuns(s: State, w: nat, guid: string, a: Attempt)
    requires w in s.phases && w in s.q.holds && Known(s, guid) && s.phases[w] == Loaded(guid) && a.opens
    ensures var es := [Truncate(w)] + ([CopyEvent(w, a)] + [StatusEvent(w, a)]);
            CanRun(s, es) && Leaves(s, Run(s, es), w, guid, a)
  {
    var s1 := Apply(s, Truncate(w));
    var s2 := Apply(s1, CopyEvent(w, a));
    assert s2.objects == PutObject(s, guid, Object(a.length, a.copies));
    StatusWriteRuns(s2, w, guid, a.copies, a);
    RunCons(s1, CopyEvent(w, a), [StatusEvent(w, a)]);
    RunCons(s, Truncate(w), [CopyEvent(w, a)] + [StatusEvent(w, a)]);
  }

  lemma {:induction false} HandlerRuns(s: State, w: nat, a: Attempt)
    requires w in s.phases && s.phases[w].Received? && w in s.q.holds
    ensures var es := HandlerEvents(s.episodes, s.q.holds[w].data, w, a);
            && CanRun(s, es)
            && var s' := Run(s, es);
               if GetsToDownload(s.episodes, s.q.holds[w].data, a)
               then Leaves(s, s', w, s.q.holds[w].data.text, a)
               else s'.episodes == s.episodes && s'.objects == s.objects
                    && w in s'.phases && s'.phases[w] == Finished(false)
  {
    var data := s.q.holds[w].data;
    if !GetsToDownload(s.episodes, data, a) {
      RunOne(s, LoadFails(w));
    } else {
      var s1 := Apply(s, Load(w));
      if a.opens {
        CopyRuns(s1, w, data.text, a);
        RunCons(s, Load(w), [Truncate(w)] + ([CopyEvent(w, a)] + [StatusEvent(w, a)]));
      } else {
        OpenFailsRuns(s1, w, data.text, a);
        RunCons(s, Load(w), [OpenFails(w)] + [StatusEvent(w, a)]);
      }
    }
  }

  /** The handler of a received task. It returns nil exactly when the file was saved and success was
      written; an error writes failed exactly when it is the download that failed and the write
      commits, and otherwise leaves the episode as it was. What it does is a run of the protocol's steps. */
  method HandleDownload(store: Store, data: Payload, a: Attempt, ghost s: State, ghost w: nat) returns (ok: bool)
    requires w in s.phases && s.phases[w].Received? && w in s.q.holds && s.q.holds[w].data == data
    requires s.episodes == store.episodes && s.objects == store.objects
    modifies store`episodes, store`objects
    ensures var es := HandlerEvents(s.episodes, data, w, a);
            && CanRun(s, es)
            && var s' := Run(s, es);
               s'.episodes == store.episodes && s'.objects == store.objects
               && w in s'.phases && s'.phases[w] == Finished(ok)
    ensures ok <==> GetsToDownload(old(store.episodes), data, a) && a.opens && a.copies && a.statusCommits
    ensures !data.Text? || !a.episodeReads || !a.podcastReads || !a.credentialsRead
            || data.text !in old(store.episodes) || MimeToExt(old(store.episodes)[data.text].mime).None? ==>
              !ok && store.episodes == old(store.episodes) && store.objects == old(store.objects)
    ensures data.Text? && a.episodeReads && a.podcastReads && a.credentialsRead
            && data.text in old(store.episodes) && MimeToExt(old(store.episodes)[data.text].mime).Some? ==>
              && (ok <==> a.opens && a.copies && a.statusCommits)
              && data.text in store.episodes
              && (a.statusCommits && !(a.opens && a.copies) ==> store.episodes[data.text].status == Failed)
              && (a.opens ==>
                    store.objects == old(store.objects)[
                      EpisodePath(old(store.episodes)[data.text].podcastGuid, old(store.episodes)[data.text].guid,
                                  MimeToExt(old(store.episodes)[data.text].mime).value) := Object(a.length, a.copies)])
    ensures ok ==> data.text in store.episodes && store.episodes[data.text].status == Success
                   && Stored(store.episodes[data.text], store.objects)
    ensures !ok && GetsToDownload(old(store.episodes), data, a) && !(a.opens && a.copies) && a.statusCommits ==>
              store.episodes == WithStatus(old(store.episodes), data.text, Failed)
    ensures !ok && !(GetsToDownload(old(store.episodes), data, a) && !(a.opens && a.copies) && a.statusCommits) ==>
              store.episodes == old(store.episodes)
  {
    HandlerRuns(s, w, a);
    if !data.Text? {
      return false;
    }
    var episodeGUID := data.text;
    if !a.episodeReads || episodeGUID !in store.episodes {
      return false;
    }
    var episode := store.episodes[episodeGUID];
    if !a.podcastReads {
      return false;
    }
    if !a.credentialsRead {
      return false;
    }
    var extension := MimeToExt(episode.mime);
    if extension.None? {
      return false;
    }
    var path := EpisodePath(episode.podcastGuid, episode.guid, extension.value);
    var n := store.SaveRemoteFile(path, a.opens, a.copies, a.length);
    if n.None? {
      var _ := store.UpdateEpisodeStatus(episodeGUID, Failed, None, a.statusCommits);
      return false;
    }
    ok := store.UpdateEpisodeStatus(episodeGUID, Success, Some(n.value), a.statusCommits);
  }

  /** Where the documentation's promise, that a download which keeps failing shows as failed, holds:
      a handler that returns an error on a pending episode shows it as failed exactly when it got as
      far as the download and the status write committed; otherwise the episode stays pending. */
  lemma {:induction false} ErrorShowsExactly(s: State, w: nat, a: Attempt, guid: string)
    requires w in s.phases && s.phases[w].Received? && w in s.q.holds && s.q.holds[w].data == Text(guid)
    requires guid in s.episodes && s.episodes[guid].status == Pending
    requires !(a.opens && a.copies && a.statusCommits && GetsToDownload(s.episodes, Text(guid), a))
    ensures CanRun(s, HandlerEvents(s.episodes, Text(guid), w, a))
    ensures var s' := Run(s, HandlerEvents(s.episodes, Text(guid), w, a));
            && guid in s'.episodes
            && (s'.episodes[guid].status == Failed <==>
                  && a.episodeReads && a.podcastReads && a.credentialsRead
                  && MimeToExt(s.episodes[guid].mime).Some? && a.statusCommits)
            && s'.episodes[guid].status in {Failed, Pending}
  {
    HandlerRuns(s, w, a);
  }

  /** The write-back of the runs is the one that the worker loop makes. */
  lemma EndingIsTheLoops(s: State, w: nat, t: W.Turn)
    requires w in s.phases && s.phases[w].Finished? && t.writeCommits && t.handled == s.phases[w].ok
    ensures Ending(s, w, t.writtenAt) == W.WriteBack(w, t)
  {
  }

  /** So the promise can fail: when the sixth receive of a pending episode's task ends before the
      download, the task is returned for good and the episode stays pending. */
  lemma {:induction false} ExhaustedCanStayPending(s: State, w: nat, guid: string, now: int)
    requires OutboxInv(s) && w in s.phases && s.phases[w].Received? && s.q.holds[w].data == Text(guid)
    requires guid in s.episodes && s.episodes[guid].status == Pending
    requires s.q.holds[w].receiveCount == MAX_RECEIVES + 1 && s.q.clock <= now
    ensures var es := [LoadFails(w)] + [WriteBack(w, now)];
            && CanRun(s, es)
            && var s' := Run(s, es);
               && guid in s'.episodes && s'.episodes[guid].status == Pending
               && s.q.holds[w].id < |s'.q.rows|
               && !s'.q.rows[s.q.holds[w].id].deleted
               && forall at :: !Eligible(s'.q.rows[s.q.holds[w].id], DOWNLOAD_QUEUE, at)
  {
    assert PhaseFits(s, w);
    RunOne(Apply(s, LoadFails(w)), WriteBack(w, now));
    RunCons(s, LoadFails(w), [WriteBack(w, now)]);
  }

  datatype Response = Rendered | NotFound | ServerError

  /** The user's requeue: the status and the fresh task in one transaction, or neither. It is the
      protocol's requeue step. */
  method RequeueDownload(store: Store, guid: string, rowReads: bool, visibleAt: int, createdAt: int, commits: bool,
                         ghost s: State)
    returns (r: Response)
    requires store.queue.Valid() && s.q.rows == store.queue.rows && s.episodes == store.episodes
    requires s.q.clock <= visibleAt <= createdAt
    modifies store`episodes, store.queue
    ensures store.queue.Valid()
    ensures r.Rendered? <==> rowReads && guid in old(store.episodes) && commits
    ensures r.NotFound? <==> rowReads && guid !in old(store.episodes)
    ensures !r.Rendered? ==> store.episodes == old(store.episodes) && store.queue.rows == old(store.queue.rows)
    ensures r.Rendered? ==>
              && Enabled(s, Requeue(guid, visibleAt, createdAt))
              && var s' := Apply(s, Requeue(guid, visibleAt, createdAt));
                 s'.episodes == store.episodes && s'.q.rows == store.queue.rows
    ensures r.Rendered? ==>
              && store.episodes == WithStatus(old(store.episodes), guid, Pending)
              && store.queue.rows == old(store.queue.rows)
                   + [NewTask(|old(store.queue.rows)|, "downloadWorker", Text(guid), visibleAt, createdAt)]
  {
    if !rowReads {
      return ServerError;
    }
    if guid !in store.episodes {
      return NotFound;
    }
    if !commits {
      return ServerError;
    }
    var _ := store.UpdateEpisodeStatus(guid, Pending, None, true);
    var _ := store.queue.PushQueueTask(DOWNLOAD_QUEUE, Text(guid), visibleAt, createdAt, true);
    assert store.episodes == WithStatus(old(store.episodes), guid, Pending);
    return Rendered;
  }
}
