/** Feed polls: pkg/feedworker/feedworker.go. What a poll creates, what it never touches, and when
    repeated polls come to rest. */
module FeedWorker {
  import opened Clock
  import opened Queue
  import opened Paths
  import opened Podcasts
  import opened Sets
  import opened Feed
  import P = Pipeline

  const MIN_CHECK_INTERVAL: int := 10 * MINUTE

  /** The two readings of the k-th push of a run, k being the row it makes. */
  datatype Readings = Readings(visibleAt: nat -> int, createdAt: nat -> int)

  // ---- one poll ----

  /** The episodes a poll creates, in order, and whether its loop ends without an error. */
  datatype Plan = Plan(created: seq<Episode>, ok: bool)

  /** The poll's loop: `existing` is the listing made before it, `stored` every primary key in the
      table, and `accepts` whether the transaction of an episode passes validation and commits. */
  ghost function PlanOf(eps: seq<Episode>, existing: set<string>, stored: set<string>, accepts: Episode -> bool): Plan {
    if eps == [] then Plan([], true)
    else if eps[0].guid in existing then PlanOf(eps[1..], existing, stored, accepts)
    else if eps[0].guid in stored || !accepts(eps[0]) then Plan([], false)
    else
      var rest := PlanOf(eps[1..], existing, stored + {eps[0].guid}, accepts);
      Plan([eps[0]] + rest.created, rest.ok)
  }

  ghost function WithCreated(episodes: map<string, Episode>, created: seq<Episode>): map<string, Episode> {
    if created == [] then episodes else
    var n := |created| - 1;
    WithCreated(episodes, created[..n])[created[n].guid := created[n].(status := Pending)]
  }

  ghost function WithTasks(rows: seq<Task>, created: seq<Episode>, at: Readings): seq<Task> {
    if created == [] then rows else
    var n := |created| - 1;
    var before := WithTasks(rows, created[..n], at);
    before + [NewTask(|before|, DOWNLOAD_QUEUE, Text(created[n].guid), at.visibleAt(|before|), at.createdAt(|before|))]
  }

  ghost predicate Has(eps: seq<Episode>, guid: string) {
    exists i :: 0 <= i < |eps| && eps[i].guid == guid
  }

  ghost predicate Distinct(eps: seq<Episode>) {
    forall i, j :: 0 <= i < j < |eps| ==> eps[i].guid != eps[j].guid
  }

  /** What the poll creates is new, distinct and parsed. */
  lemma {:induction false} PlanIsFresh(eps: seq<Episode>, existing: set<string>, stored: set<string>,
                                       accepts: Episode -> bool)
    ensures var created := PlanOf(eps, existing, stored, accepts).created;
            && Distinct(created)
            && forall i :: 0 <= i < |created| ==> created[i].guid !in stored && created[i] in eps
    decreases |eps|
  {
    if eps != [] {
      var created := PlanOf(eps, existing, stored, accepts).created;
      if eps[0].guid in existing {
        PlanIsFresh(eps[1..], existing, stored, accepts);
      } else if created != [] {
        PlanIsFresh(eps[1..], existing, stored + {eps[0].guid}, accepts);
        var rest := PlanOf(eps[1..], existing, stored + {eps[0].guid}, accepts).created;
        assert created == [eps[0]] + rest;
        forall i | 0 <= i < |created|
          ensures created[i].guid !in stored && created[i] in eps && (i > 0 ==> created[i].guid != eps[0].guid)
        {
          if i > 0 {
            assert created[i] == rest[i - 1];
          }
        }
        forall i, j | 0 <= i < j < |created|
          ensures created[i].guid != created[j].guid
        {
          if i > 0 {
            assert created[i] == rest[i - 1] && created[j] == rest[j - 1];
          }
        }
      }
    }
  }

  lemma HasInit(created: seq<Episode>, g: string)
    requires created != []
    ensures var n := |created| - 1;
            Has(created, g) <==> Has(created[..n], g) || g == created[n].guid
  {
  }

  lemma {:induction false} WithCreatedKeys(episodes: map<string, Episode>, created: seq<Episode>, g: string)
    ensures var after := WithCreated(episodes, created);
            && (g in after <==> g in episodes || Has(created, g))
            && (g in episodes && !Has(created, g) ==> after[g] == episodes[g])
  {
    if created != [] {
      HasInit(created, g);
      WithCreatedKeys(episodes, created[..|created| - 1], g);
    }
  }

  lemma {:induction false} WithCreatedValue(episodes: map<string, Episode>, created: seq<Episode>, i: nat)
    requires Distinct(created) && i < |created|
    ensures var after := WithCreated(episodes, created);
            created[i].guid in after && after[created[i].guid] == created[i].(status := Pending)
  {
    if i < |created| - 1 {
      WithCreatedValue(episodes, created[..|created| - 1], i);
    }
  }

  lemma {:induction false} WithCreatedSize(episodes: map<string, Episode>, created: seq<Episode>)
    requires Distinct(created) && forall i :: 0 <= i < |created| ==> created[i].guid !in episodes
    ensures |WithCreated(episodes, created)| == |episodes| + |created|
  {
    if created != [] {
      var n := |created| - 1;
      WithCreatedSize(episodes, created[..n]);
      WithCreatedKeys(episodes, created[..n], created[n].guid);
      assert !Has(created[..n], created[n].guid);
    }
  }

  lemma {:induction false} WithCreatedIs(episodes: map<string, Episode>, created: seq<Episode>)
    requires Distinct(created) && forall i :: 0 <= i < |created| ==> created[i].guid !in episodes
    ensures var after := WithCreated(episodes, created);
            && |after| == |episodes| + |created|
            && (forall g :: g in after <==> g in episodes || Has(created, g))
            && (forall g :: g in episodes ==> after[g] == episodes[g])
            && (forall i :: 0 <= i < |created| ==> after[created[i].guid] == created[i].(status := Pending))
  {
    var after := WithCreated(episodes, created);
    WithCreatedSize(episodes, created);
    forall g
      ensures g in after <==> g in episodes || Has(created, g)
      ensures g in episodes ==> after[g] == episodes[g]
    {
      WithCreatedKeys(episodes, created, g);
    }
    forall i | 0 <= i < |created|
      ensures created[i].guid in after && after[created[i].guid] == created[i].(status := Pending)
    {
      WithCreatedValue(episodes, created, i);
    }
  }

  lemma {:induction false} WithTasksIs(rows: seq<Task>, created: seq<Episode>, at: Readings)
    ensures var after := WithTasks(rows, created, at);
            && |after| == |rows| + |created|
            && after[..|rows|] == rows
            && (forall k :: |rows| <= k < |after| ==>
                  after[k] == NewTask(k, DOWNLOAD_QUEUE, Text(created[k - |rows|].guid), at.visibleAt(k), at.createdAt(k)))
  {
    if created != [] {
      WithTasksIs(rows, created[..|created| - 1], at);
    }
  }

  /** In every prefix of a poll: as many tasks pushed as rows created, each created row pending and
      carried by exactly one new task, and no row that was there before has changed. */
  lemma {:induction false} SyncConserves(episodes: map<string, Episode>, rows: seq<Task>, eps: seq<Episode>,
                                         existing: set<string>, accepts: Episode -> bool, at: Readings, k: nat)
    requires k <= |PlanOf(eps, existing, episodes.Keys, accepts).created|
    ensures var made := PlanOf(eps, existing, episodes.Keys, accepts).created[..k];
            var episodes', rows' := WithCreated(episodes, made), WithTasks(rows, made, at);
            && |episodes'| - |episodes| == |rows'| - |rows| == k
            && (forall g :: g in episodes ==> g in episodes' && episodes'[g] == episodes[g])
            && rows'[..|rows|] == rows
            && (forall g :: g in episodes' && g !in episodes ==> episodes'[g].status == Pending)
            && (forall g :: g in episodes' && g !in episodes <==>
                  exists i :: |rows| <= i < |rows'| && rows'[i].data == Text(g))
            && (forall i, j :: |rows| <= i < j < |rows'| ==> rows'[i].data != rows'[j].data)
  {
    var all := PlanOf(eps, existing, episodes.Keys, accepts).created;
    var made := all[..k];
    PlanIsFresh(eps, existing, episodes.Keys, accepts);
    WithCreatedIs(episodes, made);
    WithTasksIs(rows, made, at);
    var episodes', rows' := WithCreated(episodes, made), WithTasks(rows, made, at);
    forall g
      ensures g in episodes' && g !in episodes ==> episodes'[g].status == Pending
      ensures g in episodes' && g !in episodes <==> exists i :: |rows| <= i < |rows'| && rows'[i].data == Text(g)
    {
      TaskForCreated(rows, made, at, g);
      if Has(made, g) {
        var i :| 0 <= i < |made| && made[i].guid == g;
        assert made[i].guid !in episodes;
      }
    }
  }

  /** The new tasks carry the created GUIDs. */
  lemma {:induction false} TaskForCreated(rows: seq<Task>, created: seq<Episode>, at: Readings, guid: string)
    ensures var rows' := WithTasks(rows, created, at);
            Has(created, guid) <==> exists i :: |rows| <= i < |rows'| && rows'[i].data == Text(guid)
  {
    WithTasksIs(rows, created, at);
    var rows' := WithTasks(rows, created, at);
    if Has(created, guid) {
      var j :| 0 <= j < |created| && created[j].guid == guid;
      assert rows'[|rows| + j].data == Text(guid);
    }
    if i :| |rows| <= i < |rows'| && rows'[i].data == Text(guid) {
      assert created[i - |rows|].guid == guid;
    }
  }

  /** If the loop ends without an error, every parsed GUID is stored. */
  lemma {:induction false} SyncCovers(eps: seq<Episode>, existing: set<string>, stored: set<string>,
                                      accepts: Episode -> bool, guid: string)
    requires existing <= stored && PlanOf(eps, existing, stored, accepts).ok && Has(eps, guid)
    ensures guid in stored || Has(PlanOf(eps, existing, stored, accepts).created, guid)
    decreases |eps|
  {
    var i :| 0 <= i < |eps| && eps[i].guid == guid;
    if i > 0 {
      assert eps[1..][i - 1].guid == guid;
    }
    if eps[0].guid in existing {
      if i > 0 {
        SyncCovers(eps[1..], existing, stored, accepts, guid);
      }
    } else {
      var rest := PlanOf(eps[1..], existing, stored + {eps[0].guid}, accepts).created;
      var created := PlanOf(eps, existing, stored, accepts).created;
      assert created == [eps[0]] + rest;
      assert created[0].guid == eps[0].guid;
      if i > 0 {
        SyncCovers(eps[1..], existing, stored + {eps[0].guid}, accepts, guid);
        if Has(rest, guid) {
          var j :| 0 <= j < |rest| && rest[j].guid == guid;
          assert created[j + 1].guid == guid;
        }
      }
    }
  }

  // ---- repeated polls of a fixed feed ----

  ghost function ExistingOf(episodes: map<string, Episode>, podcastGuid: string): set<string> {
    set g | g in episodes && episodes[g].podcastGuid == podcastGuid
  }

  /** A feed that is polled for a podcast's key again and again, always parsed to the same episodes, of
      which validation accepts these. The parser takes an episode's podcast key from the feed, the poll
      takes the key it lists by from the podcast's row: nothing makes the two agree. */
  datatype Source = Source(podcastGuid: string, feed: seq<Episode>, valid: Episode -> bool)

  ghost function PollPlan(episodes: map<string, Episode>, src: Source): Plan {
    PlanOf(src.feed, ExistingOf(episodes, src.podcastGuid), episodes.Keys, src.valid)
  }

  ghost function AfterPoll(episodes: map<string, Episode>, src: Source): map<string, Episode> {
    WithCreated(episodes, PollPlan(episodes, src).created)
  }

  ghost function AfterPolls(episodes: map<string, Episode>, src: Source, n: nat): map<string, Episode> {
    if n == 0 then episodes else AfterPoll(AfterPolls(episodes, src, n - 1), src)
  }

  /** The GUIDs of the feed that the store does not have: the measure of the polls. */
  ghost function Missing(episodes: map<string, Episode>, feed: seq<Episode>): set<string> {
    set i | 0 <= i < |feed| && feed[i].guid !in episodes :: feed[i].guid
  }

  /** The GUID of this item is stored under another podcast. */
  ghost predicate Foreign(episodes: map<string, Episode>, src: Source, i: nat)
    requires i < |src.feed|
  {
    src.feed[i].guid in episodes && episodes[src.feed[i].guid].podcastGuid != src.podcastGuid
  }

  ghost predicate FirstOf(eps: seq<Episode>, i: nat) {
    i < |eps| && forall j :: 0 <= j < i ==> eps[j].guid != eps[i].guid
  }

  /** The item is the one with which its GUID would be created. */
  ghost predicate Candidate(episodes: map<string, Episode>, src: Source, i: nat) {
    FirstOf(src.feed, i) && src.feed[i].guid !in episodes
  }

  /** A creation with it passes validation and can be found by the polls that follow. */
  ghost predicate Lands(src: Source, i: nat)
    requires i < |src.feed|
  {
    src.valid(src.feed[i]) && src.feed[i].podcastGuid == src.podcastGuid
  }

  /** No item is stored under another podcast, and every item that is missing can be created. */
  ghost predicate CanSettle(episodes: map<string, Episode>, src: Source) {
    && (forall i :: 0 <= i < |src.feed| ==> !Foreign(episodes, src, i))
    && (forall i :: 0 <= i < |src.feed| && Candidate(episodes, src, i) ==> Lands(src, i))
  }

  /** What a poll creates, it creates with the first item of that GUID, and validly. */
  lemma {:induction false} PlanTakesFirst(eps: seq<Episode>, existing: set<string>, stored: set<string>,
                                          accepts: Episode -> bool, k: nat) returns (i: nat)
    requires k < |PlanOf(eps, existing, stored, accepts).created|
    ensures i < |eps| && eps[i] == PlanOf(eps, existing, stored, accepts).created[k]
    ensures existing <= stored ==> FirstOf(eps, i)
    ensures accepts(eps[i])
    decreases |eps|
  {
    if eps[0].guid in existing {
      var j := PlanTakesFirst(eps[1..], existing, stored, accepts, k);
      PlanIsFresh(eps[1..], existing, stored, accepts);
      i := j + 1;
      assert existing <= stored ==> eps[0].guid != eps[i].guid;
      FirstOfRest(eps, j);
    } else if k == 0 {
      i := 0;
    } else {
      var j := PlanTakesFirst(eps[1..], existing, stored + {eps[0].guid}, accepts, k - 1);
      PlanIsFresh(eps[1..], existing, stored + {eps[0].guid}, accepts);
      i := j + 1;
      FirstOfRest(eps, j);
    }
  }

  lemma FirstOfRest(eps: seq<Episode>, j: nat)
    requires eps != [] && j < |eps[1..]|
    ensures FirstOf(eps[1..], j) && eps[0].guid != eps[j + 1].guid ==> FirstOf(eps, j + 1)
  {
    assert forall m :: 0 < m <= j ==> eps[m] == eps[1..][m - 1];
  }

  lemma PollAdds(episodes: map<string, Episode>, src: Source)
    ensures var after, created := AfterPoll(episodes, src), PollPlan(episodes, src).created;
            && (forall g :: g in after <==> g in episodes || Has(created, g))
            && (forall g :: g in episodes ==> after[g] == episodes[g])
            && (forall i :: 0 <= i < |created| ==>
                  && created[i] in src.feed && created[i].guid !in episodes
                  && after[created[i].guid] == created[i].(status := Pending))
  {
    PlanIsFresh(src.feed, ExistingOf(episodes, src.podcastGuid), episodes.Keys, src.valid);
    WithCreatedIs(episodes, PollPlan(episodes, src).created);
  }

  /** A GUID that a poll has stored comes from its candidate in the feed. */
  lemma CreatedFromCandidate(episodes: map<string, Episode>, src: Source, guid: string) returns (i: nat)
    requires guid !in episodes && guid in AfterPoll(episodes, src)
    ensures i < |src.feed| && Candidate(episodes, src, i) && src.feed[i].guid == guid && src.valid(src.feed[i])
    ensures AfterPoll(episodes, src)[guid] == src.feed[i].(status := Pending)
  {
    PollAdds(episodes, src);
    var created := PollPlan(episodes, src).created;
    var k :| 0 <= k < |created| && created[k].guid == guid;
    i := PlanTakesFirst(src.feed, ExistingOf(episodes, src.podcastGuid), episodes.Keys, src.valid, k);
  }

  /** A poll is at rest exactly when it skips every item. */
  lemma {:induction false} RestsExactly(eps: seq<Episode>, existing: set<string>, stored: set<string>,
                                        accepts: Episode -> bool)
    ensures PlanOf(eps, existing, stored, accepts) == Plan([], true) <==>
              forall i :: 0 <= i < |eps| ==> eps[i].guid in existing
    decreases |eps|
  {
    if eps != [] {
      if eps[0].guid in existing {
        RestsExactly(eps[1..], existing, stored, accepts);
        assert forall i :: 0 < i < |eps| ==> eps[i] == eps[1..][i - 1];
        assert forall i :: 0 <= i < |eps[1..]| ==> eps[1..][i] == eps[i + 1];
      }
    }
  }

  /** A poll that comes to an item it can create, before any it cannot, creates it. */
  lemma {:induction false} PlanProgress(eps: seq<Episode>, existing: set<string>, stored: set<string>,
                                        accepts: Episode -> bool, k: nat)
    requires k < |eps| && eps[k].guid !in existing && eps[k].guid !in stored && accepts(eps[k])
    requires forall i :: 0 <= i < k ==> eps[i].guid in existing
    ensures var created := PlanOf(eps, existing, stored, accepts).created; created != [] && created[0] == eps[k]
    decreases |eps|
  {
    if k > 0 {
      assert forall i :: 0 <= i < k - 1 ==> eps[1..][i] == eps[i + 1];
      PlanProgress(eps[1..], existing, stored, accepts, k - 1);
    }
  }

  /** With a foreign GUID in the feed, every poll ends in an error. */
  lemma {:induction false} ForeignAborts(eps: seq<Episode>, existing: set<string>, stored: set<string>,
                                         accepts: Episode -> bool, k: nat)
    requires k < |eps| && eps[k].guid in stored && eps[k].guid !in existing
    ensures !PlanOf(eps, existing, stored, accepts).ok
    decreases |eps|
  {
    if k > 0 {
      assert eps[1..][k - 1] == eps[k];
      ForeignAborts(eps[1..], existing, stored, accepts, k - 1);
      ForeignAborts(eps[1..], existing, stored + {eps[0].guid}, accepts, k - 1);
    }
  }

  /** If every missing item lands, a poll leaves it so. */
  lemma PollKeepsSettling(episodes: map<string, Episode>, src: Source)
    requires CanSettle(episodes, src)
    ensures CanSettle(AfterPoll(episodes, src), src)
  {
    var after := AfterPoll(episodes, src);
    PollAdds(episodes, src);
    forall i: nat | i < |src.feed|
      ensures !Foreign(after, src, i) && (Candidate(after, src, i) ==> Candidate(episodes, src, i))
    {
      assert !Foreign(episodes, src, i);
      if src.feed[i].guid !in episodes && src.feed[i].guid in after {
        var k := CreatedFromCandidate(episodes, src, src.feed[i].guid);
        assert Lands(src, k);
      }
    }
  }

  lemma FirstMissing(episodes: map<string, Episode>, src: Source) returns (k: nat)
    requires Missing(episodes, src.feed) != {}
    ensures k < |src.feed| && Candidate(episodes, src, k)
    ensures forall i :: 0 <= i < k ==> src.feed[i].guid in episodes
  {
    var g :| g in Missing(episodes, src.feed);
    k := 0;
    while src.feed[k].guid in episodes
      invariant k < |src.feed| && exists i :: k <= i < |src.feed| && src.feed[i].guid !in episodes
      invariant forall i :: 0 <= i < k ==> src.feed[i].guid in episodes
      decreases |src.feed| - k
    {
      k := k + 1;
    }
  }

  /** A poll takes something off the missing GUIDs until none is left, and then it rests. */
  lemma PollShrinks(episodes: map<string, Episode>, src: Source)
    requires CanSettle(episodes, src)
    ensures var after := AfterPoll(episodes, src);
            && CanSettle(after, src)
            && if Missing(episodes, src.feed) == {}
               then after == episodes && PollPlan(episodes, src) == Plan([], true)
               else Missing(after, src.feed) < Missing(episodes, src.feed)
  {
    PollKeepsSettling(episodes, src);
    PollAdds(episodes, src);
    var existing := ExistingOf(episodes, src.podcastGuid);
    forall i: nat | i < |src.feed|
      ensures src.feed[i].guid in episodes <==> src.feed[i].guid in existing
      ensures src.feed[i].guid in episodes <==> src.feed[i].guid !in Missing(episodes, src.feed)
    {
      assert !Foreign(episodes, src, i);
    }
    if Missing(episodes, src.feed) == {} {
      RestsExactly(src.feed, existing, episodes.Keys, src.valid);
    } else {
      var k := FirstMissing(episodes, src);
      assert Lands(src, k);
      PlanProgress(src.feed, existing, episodes.Keys, src.valid, k);
      var created := PollPlan(episodes, src).created;
      assert Has(created, created[0].guid) && created[0].guid in Missing(episodes, src.feed);
      assert created[0].guid !in Missing(AfterPoll(episodes, src), src.feed);
    }
  }

  lemma {:induction false} PollsShrink(episodes: map<string, Episode>, src: Source, n: nat)
    requires CanSettle(episodes, src)
    ensures var after := AfterPolls(episodes, src, n);
            && CanSettle(after, src)
            && (Missing(after, src.feed) == {} || |Missing(after, src.feed)| + n <= |Missing(episodes, src.feed)|)
  {
    if n > 0 {
      PollsShrink(episodes, src, n - 1);
      var before := AfterPolls(episodes, src, n - 1);
      PollShrinks(before, src);
      if Missing(before, src.feed) != {} {
        ProperSubsetSize(Missing(AfterPoll(before, src), src.feed), Missing(before, src.feed));
      }
    }
  }

  /** No poll takes a GUID away from another podcast. */
  lemma {:induction false} ForeignStays(episodes: map<string, Episode>, src: Source, n: nat, k: nat)
    requires k < |src.feed| && Foreign(episodes, src, k)
    ensures Foreign(AfterPolls(episodes, src, n), src, k)
  {
    if n > 0 {
      ForeignStays(episodes, src, n - 1, k);
      PollAdds(AfterPolls(episodes, src, n - 1), src);
    }
  }

  /** An item that cannot land stays missing or becomes foreign, so no poll makes the feed settle. */
  lemma PollKeepsUnsettled(episodes: map<string, Episode>, src: Source)
    requires !CanSettle(episodes, src)
    ensures !CanSettle(AfterPoll(episodes, src), src)
  {
    var after := AfterPoll(episodes, src);
    PollAdds(episodes, src);
    if k :| 0 <= k < |src.feed| && Foreign(episodes, src, k) {
      assert Foreign(after, src, k);
    } else {
      var k: nat :| k < |src.feed| && Candidate(episodes, src, k) && !Lands(src, k);
      if src.feed[k].guid in after {
        var i := CreatedFromCandidate(episodes, src, src.feed[k].guid);
        assert i == k;
        assert Foreign(after, src, k);
      } else {
        assert Candidate(after, src, k);
      }
    }
  }

  lemma {:induction false} PollsKeepUnsettled(episodes: map<string, Episode>, src: Source, n: nat)
    requires !CanSettle(episodes, src)
    ensures !CanSettle(AfterPolls(episodes, src, n), src)
  {
    if n > 0 {
      PollsKeepUnsettled(episodes, src, n - 1);
      PollKeepsUnsettled(AfterPolls(episodes, src, n - 1), src);
    }
  }

  /** A poll at rest has nothing left that cannot land. */
  lemma RestIsSettled(episodes: map<string, Episode>, src: Source)
    requires PollPlan(episodes, src) == Plan([], true)
    ensures CanSettle(episodes, src)
  {
    RestsExactly(src.feed, ExistingOf(episodes, src.podcastGuid), episodes.Keys, src.valid);
  }

  /** Polling a fixed feed over and over, with no other failures than refused validation, comes to rest,
      in a poll that succeeds and adds nothing, exactly when no GUID of the feed is stored under another
      podcast and the first item of each missing GUID is valid and carries the key that is polled for.
      GUIDs may repeat inside the feed. It takes at most as many polls as GUIDs were missing. */
  lemma {:induction false} PollsConverge(episodes: map<string, Episode>, src: Source)
    ensures CanSettle(episodes, src) <==> exists n: nat :: PollPlan(AfterPolls(episodes, src, n), src) == Plan([], true)
    ensures CanSettle(episodes, src) ==>
              var rest := AfterPolls(episodes, src, |Missing(episodes, src.feed)|);
              && Missing(rest, src.feed) == {}
              && PollPlan(rest, src) == Plan([], true)
              && AfterPoll(rest, src) == rest
  {
    if CanSettle(episodes, src) {
      var n := |Missing(episodes, src.feed)|;
      PollsShrink(episodes, src, n);
      PollShrinks(AfterPolls(episodes, src, n), src);
    } else {
      forall n: nat
        ensures PollPlan(AfterPolls(episodes, src, n), src) != Plan([], true)
      {
        PollsKeepUnsettled(episodes, src, n);
        if PollPlan(AfterPolls(episodes, src, n), src) == Plan([], true) {
          RestIsSettled(AfterPolls(episodes, src, n), src);
        }
      }
    }
  }

  ghost predicate ParsedFor(feed: seq<Episode>, feedGuid: string) {
    forall i :: 0 <= i < |feed| ==> feed[i].podcastGuid == feedGuid
  }

  /** For a parsed feed, whose episodes all carry the feed's own key, and validation that accepts them:
      polls come to rest exactly when no GUID is stored under another podcast, and the feed's key is the
      polled one or nothing is missing. */
  lemma SettlesByKeys(episodes: map<string, Episode>, src: Source, feedGuid: string)
    requires ParsedFor(src.feed, feedGuid) && forall i :: 0 <= i < |src.feed| ==> src.valid(src.feed[i])
    ensures CanSettle(episodes, src) <==>
              && (forall i :: 0 <= i < |src.feed| ==> !Foreign(episodes, src, i))
              && (feedGuid == src.podcastGuid || Missing(episodes, src.feed) == {})
  {
    if Missing(episodes, src.feed) != {} {
      var k := FirstMissing(episodes, src);
    } else {
      forall i: nat | i < |src.feed|
        ensures !Candidate(episodes, src, i)
      {
        assert src.feed[i].guid !in Missing(episodes, src.feed);
      }
    }
  }

  /** A feed whose key has changed, as it does when a publisher adds a podcast GUID, aborts in every
      poll after the one that meets its first missing item. */
  lemma {:induction false} MovedFeedAborts(episodes: map<string, Episode>, src: Source, k: nat, n: nat)
    requires k < |src.feed| && src.feed[k].guid !in episodes && src.valid(src.feed[k])
    requires src.feed[k].podcastGuid != src.podcastGuid && n >= 1
    requires forall i :: 0 <= i < k ==> src.feed[i].guid in ExistingOf(episodes, src.podcastGuid)
    ensures !PollPlan(AfterPolls(episodes, src, n), src).ok
  {
    var after := AfterPolls(episodes, src, 1);
    assert after == AfterPoll(AfterPolls(episodes, src, 0), src) == AfterPoll(episodes, src);
    PlanProgress(src.feed, ExistingOf(episodes, src.podcastGuid), episodes.Keys, src.valid, k);
    PollAdds(episodes, src);
    assert Foreign(after, src, k);
    AfterPollsShift(episodes, src, n - 1);
    ForeignStays(after, src, n - 1, k);
    var at := AfterPolls(episodes, src, n);
    ForeignAborts(src.feed, ExistingOf(at, src.podcastGuid), at.Keys, src.valid, k);
  }

  lemma {:induction false} AfterPollsShift(episodes: map<string, Episode>, src: Source, n: nat)
    ensures AfterPolls(episodes, src, n + 1) == AfterPolls(AfterPoll(episodes, src), src, n)
  {
    if n > 0 {
      AfterPollsShift(episodes, src, n - 1);
    }
  }

  /** Such a feed: one new item, under a key of its own. Its GUID is nowhere stored, and yet every poll
      after the first fails. */
  lemma MovedFeedExample(n: nat) returns (src: Source)
    requires n >= 1
    ensures |src.feed| == 1 && src.valid(src.feed[0]) && !Foreign(map[], src, 0)
    ensures !PollPlan(AfterPolls(map[], src, n), src).ok
  {
    src := Source("old", [Episode("a", "new", "t", "", "u", 0, "audio/mpeg", 0, 0, Unset)], (e: Episode) => true);
    MovedFeedAborts(map[], src, 0, n);
  }

  // ---- a poll is a run of the protocol's create steps ----

  ghost predicate ReadingsOrdered(at: Readings, from: nat, clock: int) {
    && clock <= at.visibleAt(from)
    && forall k {:trigger at.createdAt(k)} :: from <= k ==> at.visibleAt(k) <= at.createdAt(k) <= at.visibleAt(k + 1)
  }

  lemma CreateStep(s: P.State, ep: Episode, at: Readings)
    requires ep.guid !in s.episodes && Clean(ep.guid) && Clean(ep.podcastGuid)
    requires ReadingsOrdered(at, |s.q.rows|, s.q.clock)
    ensures var row := |s.q.rows|;
            var e := P.Create(ep, at.visibleAt(row), at.createdAt(row));
            && P.Enabled(s, e)
            && var s' := P.Apply(s, e);
               && s'.episodes == s.episodes[ep.guid := ep.(status := Pending)]
               && s'.q.rows == s.q.rows + [NewTask(row, DOWNLOAD_QUEUE, Text(ep.guid), at.visibleAt(row), at.createdAt(row))]
               && s'.q.clock == at.createdAt(row) <= at.visibleAt(row + 1)
  {
  }

  /** The state that creating these episodes one after the other leads to. */
  ghost predicate IsAfterCreates(s: P.State, s': P.State, created: seq<Episode>, at: Readings) {
    && s'.episodes == WithCreated(s.episodes, created)
    && s'.q.rows == WithTasks(s.q.rows, created, at)
    && |s'.q.rows| == |s.q.rows| + |created|
    && s'.q.clock <= at.visibleAt(|s'.q.rows|)
  }

  /** The protocol's create step for this episode, at the readings of the row it makes. */
  ghost predicate IsCreateStep(a: P.State, b: P.State, ep: Episode, at: Readings) {
    var row := |a.q.rows|;
    var e := P.Create(ep, at.visibleAt(row), at.createdAt(row));
    P.Enabled(a, e) && b == P.Apply(a, e)
  }

  /** After any prefix of a poll's creations, the next one is that step. */
  lemma CreationIsAStep(s: P.State, s1: P.State, created: seq<Episode>, ep: Episode, at: Readings) returns (s2: P.State)
    requires IsAfterCreates(s, s1, created, at) && ReadingsOrdered(at, |s.q.rows|, s.q.clock)
    requires ep.guid !in s.episodes && !Has(created, ep.guid) && Clean(ep.guid) && Clean(ep.podcastGuid)
    ensures IsCreateStep(s1, s2, ep, at) && IsAfterCreates(s, s2, created + [ep], at)
    ensures P.OutboxInv(s1) ==> P.OutboxInv(s2)
  {
    WithCreatedKeys(s.episodes, created, ep.guid);
    CreateStep(s1, ep, at);
    assert (created + [ep])[..|created|] == created;
    var row := |s1.q.rows|;
    var e := P.Create(ep, at.visibleAt(row), at.createdAt(row));
    s2 := P.Apply(s1, e);
    if P.OutboxInv(s1) {
      P.StepKeepsOutbox(s1, e);
    }
  }

  /** So a poll, and every prefix of one, keeps the outbox: each new episode is pending and has its
      task, and no pending episode has lost its own. */
  lemma {:induction false} PollKeepsOutbox(s: P.State, created: seq<Episode>, n: nat, at: Readings) returns (s': P.State)
    requires Distinct(created) && n <= |created| && P.OutboxInv(s)
    requires forall i :: 0 <= i < |created| ==>
               created[i].guid !in s.episodes && Clean(created[i].guid) && Clean(created[i].podcastGuid)
    requires ReadingsOrdered(at, |s.q.rows|, s.q.clock)
    ensures IsAfterCreates(s, s', created[..n], at) && P.OutboxInv(s')
    decreases n
  {
    s' := s;
    if n > 0 {
      var before := PollKeepsOutbox(s, created, n - 1, at);
      var ep := created[n - 1];
      assert !Has(created[..n - 1], ep.guid);
      s' := CreationIsAStep(s, before, created[..n - 1], ep, at);
      assert created[..n - 1] + [ep] == created[..n];
    }
  }

  // ---- the handler ----

  /** What processing one podcast meets. A feed that cannot be fetched or parsed has no episodes at
      all; items that could not be parsed are just missing from it. */
  datatype PollEnv = PollEnv(
    dueAt: int,
    credentialsRead: bool,
    parsed: Option<seq<Episode>>,
    lists: bool,
    accepts: Episode -> bool,
    at: Readings,
    now: int,
    timesCommit: bool)

  datatype Snapshot = Snapshot(podcasts: map<string, Podcast>, episodes: map<string, Episode>, rows: seq<Task>)

  ghost predicate Keyed(episodes: map<string, Episode>) {
    forall g :: g in episodes ==> episodes[g].guid == g
  }

  /** What processing a podcast does: nothing if its feed or its episodes cannot be had; otherwise
      its plan, and after a plan without error the podcast's times. */
  ghost predicate Polled(a: Snapshot, b: Snapshot, podcast: Podcast, env: PollEnv, ok: bool) {
    if !env.credentialsRead || env.parsed.None? || !env.lists then !ok && b == a else
    var feed := env.parsed.value;
    var plan := PlanOf(feed, ExistingOf(a.episodes, podcast.guid), a.episodes.Keys, env.accepts);
    && b.episodes == WithCreated(a.episodes, plan.created)
    && b.rows == WithTasks(a.rows, plan.created, env.at)
    && (ok <==> plan.ok && env.timesCommit)
    && b.podcasts ==
         if ok && podcast.guid in a.podcasts
         then a.podcasts[podcast.guid := a.podcasts[podcast.guid].(
                lastCheckedAt := Some(env.now),
                lastEpisodeAt := if feed == [] then None else Some(feed[|feed| - 1].publishedAt))]
         else a.podcasts
  }

  ghost function Snap(store: Store): Snapshot
    reads store, store.queue
  {
    Snapshot(store.podcasts, store.episodes, store.queue.rows)
  }

  /** One transaction: the episode row and its download task, or neither. The primary key must be free. */
  method CreateWithTask(store: Store, ep: Episode, commits: bool, at: Readings) returns (ok: bool)
    requires Keyed(store.episodes) && store.queue.Valid()
    modifies store`episodes, store.queue
    ensures Keyed(store.episodes) && store.queue.Valid()
    ensures ok <==> commits && ep.guid !in old(store.episodes)
    ensures !ok ==> store.episodes == old(store.episodes) && store.queue.rows == old(store.queue.rows)
    ensures ok ==> store.episodes == old(store.episodes)[ep.guid := ep]
                   && store.episodes.Keys == old(store.episodes).Keys + {ep.guid}
    ensures ok ==> var row := |old(store.queue.rows)|;
                   store.queue.rows == old(store.queue.rows)
                     + [NewTask(row, DOWNLOAD_QUEUE, Text(ep.guid), at.visibleAt(row), at.createdAt(row))]
  {
    if !commits || ep.guid in store.episodes {
      return false;
    }
    store.episodes := store.episodes[ep.guid := ep];
    var row := |store.queue.rows|;
    ok := store.queue.PushQueueTask(DOWNLOAD_QUEUE, Text(ep.guid), at.visibleAt(row), at.createdAt(row), true);
  }

  /** The plan is what has been made so far and what the plan for the rest of the feed will make. */
  ghost predicate OnPlan(plan: Plan, made: seq<Episode>, rest: seq<Episode>, existing: set<string>, stored: set<string>,
                         accepts: Episode -> bool) {
    var more := PlanOf(rest, existing, stored, accepts);
    plan == Plan(made + more.created, more.ok)
  }

  lemma PlanStep(plan: Plan, made: seq<Episode>, rest: seq<Episode>, existing: set<string>, stored: set<string>,
                 accepts: Episode -> bool)
    requires rest != [] && OnPlan(plan, made, rest, existing, stored, accepts)
    ensures var ep := rest[0];
            if ep.guid in existing then OnPlan(plan, made, rest[1..], existing, stored, accepts)
            else if ep.guid in stored || !accepts(ep) then plan == Plan(made, false)
            else OnPlan(plan, made + [ep], rest[1..], existing, stored + {ep.guid}, accepts)
  {
  }

  lemma ListingHas(eps: seq<Episode>, episodes: map<string, Episode>, podcastGuid: string, guid: string)
    requires Keyed(episodes) && IsListing(eps, episodes, podcastGuid)
    ensures guid in ExistingOf(episodes, podcastGuid) <==> exists i :: 0 <= i < |eps| && eps[i].guid == guid
  {
  }

  lemma {:induction false} MadeOneMore(episodes: map<string, Episode>, rows: seq<Task>, made: seq<Episode>,
                                       ep: Episode, at: Readings)
    ensures WithCreated(episodes, made + [ep]) == WithCreated(episodes, made)[ep.guid := ep.(status := Pending)]
    ensures var before := WithTasks(rows, made, at);
            WithTasks(rows, made + [ep], at) ==
              before + [NewTask(|before|, DOWNLOAD_QUEUE, Text(ep.guid), at.visibleAt(|before|), at.createdAt(|before|))]
  {
  }

  /** The nested loop over the parsed and the listed episodes: it carries out the plan. */
  method CreateNew(store: Store, episodes: seq<Episode>, existingEpisodes: seq<Episode>, podcastGuid: string,
                   accepts: Episode -> bool, at: Readings) returns (ok: bool, ghost made: seq<Episode>)
    requires Keyed(store.episodes) && store.queue.Valid()
    requires IsListing(existingEpisodes, store.episodes, podcastGuid)
    modifies store`episodes, store.queue
    ensures Keyed(store.episodes) && store.queue.Valid()
    ensures Plan(made, ok) ==
              PlanOf(episodes, ExistingOf(old(store.episodes), podcastGuid), old(store.episodes.Keys), accepts)
    ensures store.episodes == WithCreated(old(store.episodes), made)
    ensures store.queue.rows == WithTasks(old(store.queue.rows), made, at)
  {
    ghost var existing := ExistingOf(store.episodes, podcastGuid);
    ghost var plan := PlanOf(episodes, existing, store.episodes.Keys, accepts);
    made := [];
    for k := 0 to |episodes|
      invariant Keyed(store.episodes) && store.queue.Valid()
      invariant store.episodes == WithCreated(old(store.episodes), made)
      invariant store.queue.rows == WithTasks(old(store.queue.rows), made, at)
      invariant OnPlan(plan, made, episodes[k..], existing, store.episodes.Keys, accepts)
    {
      var ep := episodes[k];
      PlanStep(plan, made, episodes[k..], existing, store.episodes.Keys, accepts);
      assert episodes[k..][1..] == episodes[k + 1..];
      var known := false;
      for i := 0 to |existingEpisodes|
        invariant !known
        invariant forall j :: 0 <= j < i ==> existingEpisodes[j].guid != ep.guid
      {
        if existingEpisodes[i].guid == ep.guid {
          known := true;
          break;
        }
      }
      ListingHas(existingEpisodes, old(store.episodes), podcastGuid, ep.guid);
      if known {
        continue;
      }
      MadeOneMore(old(store.episodes), old(store.queue.rows), made, ep, at);
      var committed := CreateWithTask(store, ep.(status := Pending), accepts(ep), at);
      if !committed {
        return false, made;
      }
      made := made + [ep];
    }
    assert episodes[|episodes|..] == [] && made + [] == made;
    ok := true;
  }

  method ProcessPodcast(store: Store, podcast: Podcast, env: PollEnv) returns (ok: bool)
    requires Keyed(store.episodes) && store.queue.Valid()
    modifies store`podcasts, store`episodes, store.queue
    ensures Keyed(store.episodes) && store.queue.Valid()
    ensures Polled(old(Snap(store)), Snap(store), podcast, env, ok)
    ensures !env.credentialsRead || env.parsed.None? || !env.lists ==> !ok && Snap(store) == old(Snap(store))
    ensures !ok ==> store.podcasts == old(store.podcasts)
    ensures ok && podcast.guid in old(store.podcasts) ==>
              && env.timesCommit && podcast.guid in store.podcasts
              && store.podcasts[podcast.guid].lastCheckedAt == Some(env.now)
              && (SortedByDate(env.parsed.value) ==>
                    IsLatest(store.podcasts[podcast.guid].lastEpisodeAt, env.parsed.value))
  {
    if !env.credentialsRead || env.parsed.None? || !env.lists {
      return false;
    }
    var episodes := env.parsed.value;
    var existingEpisodes := store.ListEpisodes(podcast.guid);
    ghost var made;
    ok, made := CreateNew(store, episodes, existingEpisodes, podcast.guid, env.accepts, env.at);
    if !ok {
      return false;
    }
    var lastEpisodeAt := None;
    if |episodes| > 0 {
      lastEpisodeAt := Some(episodes[|episodes| - 1].publishedAt);
    }
    assert SortedByDate(episodes) ==> IsLatest(lastEpisodeAt, episodes) by {
      if SortedByDate(episodes) {
        LastIsLatest(episodes, episodes);
      }
    }
    ok := store.UpdatePodcastTimes(podcast.guid, Some(env.now), lastEpisodeAt, env.timesCommit);
  }

  /** The last check is less than this long ago. */
  ghost predicate CheckedWithin(podcast: Podcast, age: int, now: int) {
    podcast.lastCheckedAt.Some? && now - podcast.lastCheckedAt.value < age
  }

  ghost predicate Handled(a: Snapshot, b: Snapshot, podcast: Podcast, env: PollEnv, ok: bool) {
    if CheckedWithin(podcast, 600 * SECOND, env.dueAt) then b == a && ok else Polled(a, b, podcast, env, ok)
  }

  /** A podcast checked within the last ten minutes is skipped; one that fails is counted and does
      not keep the others from being polled. */
  method HandleFeedTask(store: Store, lists: bool, envOf: string -> PollEnv)
    returns (ok: bool, ghost pods: seq<Podcast>, ghost snaps: seq<Snapshot>, ghost oks: seq<bool>)
    requires Keyed(store.episodes) && store.queue.Valid()
    requires forall g :: g in store.podcasts ==> store.podcasts[g].guid == g
    modifies store`podcasts, store`episodes, store.queue
    ensures Keyed(store.episodes) && store.queue.Valid()
    ensures |snaps| == |pods| + 1 && |oks| == |pods|
    ensures snaps[0] == old(Snap(store)) && snaps[|pods|] == Snap(store)
    ensures if lists then IsPodcastListing(pods, old(store.podcasts)) else pods == []
    ensures forall k :: 0 <= k < |pods| ==> Handled(snaps[k], snaps[k + 1], pods[k], envOf(pods[k].guid), oks[k])
    ensures ok <==> lists && false !in oks
  {
    snaps := [Snap(store)];
    oks := [];
    pods := [];
    if !lists {
      return false, pods, snaps, oks;
    }
    var listed := store.ListPodcasts();
    pods := listed;
    var errs := 0;
    for k := 0 to |listed|
      invariant Keyed(store.episodes) && store.queue.Valid()
      invariant |snaps| == k + 1 && |oks| == k && snaps[0] == old(Snap(store)) && snaps[k] == Snap(store)
      invariant forall j :: 0 <= j < k ==> Handled(snaps[j], snaps[j + 1], pods[j], envOf(pods[j].guid), oks[j])
      invariant errs == 0 <==> false !in oks
    {
      var pod := listed[k];
      var env := envOf(pod.guid);
      var processed := true;
      if pod.lastCheckedAt.None? || pod.lastCheckedAt.value + MIN_CHECK_INTERVAL <= env.dueAt {
        processed := ProcessPodcast(store, pod, env);
        if !processed {
          errs := errs + 1;
        }
      }
      snaps := snaps + [Snap(store)];
      oks := oks + [processed];
    }
    ok := errs == 0;
  }
}
