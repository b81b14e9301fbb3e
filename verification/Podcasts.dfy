/** The rows of pkg/podcasts/podcast.go and the object store, as one store that handlers change. */
module Podcasts {
  import opened Queue
  import opened Paths

  /** The status column; a parsed episode has none yet. */
  datatype Status = Unset | Pending | Failed | Success

  datatype Episode = Episode(
    guid: string,
    podcastGuid: string,
    title: string,
    description: string,
    downloadUrl: string,
    bytes: int,
    mime: string,
    durationSecs: int,
    publishedAt: int,
    status: Status)

  datatype Category = Category(name: string, sub: Option<Category>)

  datatype Podcast = Podcast(
    guid: string,
    title: string,
    author: string,
    description: string,
    language: string,
    link: string,
    categories: seq<Category>,
    isExplicit: bool,
    imageUrl: string,
    feedUrl: string,
    lastCheckedAt: Option<int>,
    lastEpisodeAt: Option<int>)

  /** A stored file: how many bytes it has, and whether the copy into it came to its end. */
  datatype Object = Object(length: nat, complete: bool)

  const DOWNLOAD_QUEUE: string := "downloadWorker"

  function PathOf(e: Episode): (p: Option<string>)
    ensures p.None? <==> MimeToExt(e.mime).None?
  {
    var ext := MimeToExt(e.mime);
    if ext.None? then None else Some(EpisodePath(e.podcastGuid, e.guid, ext.value))
  }

  /** Episodes of the parser: a UUID for a key, a UUID for the podcast. */
  ghost predicate WellKeyed(episodes: map<string, Episode>) {
    forall g :: g in episodes ==> episodes[g].guid == g && Clean(g) && Clean(episodes[g].podcastGuid)
  }

  /** The object an episode points at is all there, and the episode's byte count is its length. */
  ghost predicate Stored(e: Episode, objects: map<string, Object>) {
    var p := PathOf(e);
    p.Some? && p.value in objects && objects[p.value].complete && objects[p.value].length == e.bytes
  }

  function WithStatus(episodes: map<string, Episode>, guid: string, status: Status): map<string, Episode>
    requires guid in episodes
  {
    episodes[guid := episodes[guid].(status := status)]
  }

  function WithDownload(episodes: map<string, Episode>, guid: string, bytes: int): map<string, Episode>
    requires guid in episodes
  {
    episodes[guid := episodes[guid].(status := Success, bytes := bytes)]
  }

  /** The rows of a podcast, each once: what listing its episodes answers. */
  ghost predicate IsListing(eps: seq<Episode>, episodes: map<string, Episode>, podcastGuid: string) {
    && (forall e :: e in eps ==> e.guid in episodes && episodes[e.guid] == e && e.podcastGuid == podcastGuid)
    && (forall g :: g in episodes && episodes[g].podcastGuid == podcastGuid ==> episodes[g] in eps)
    && (forall i, j :: 0 <= i < j < |eps| ==> eps[i].guid != eps[j].guid)
  }

  /** ORDER BY published_at DESC. */
  ghost predicate NewestFirst(eps: seq<Episode>) {
    forall i, j :: 0 <= i < j < |eps| ==> eps[i].publishedAt >= eps[j].publishedAt
  }

  /** Where an episode goes in a listing. */
  method ListingPoint(eps: seq<Episode>, e: Episode) returns (k: nat)
    requires NewestFirst(eps)
    ensures k <= |eps| && NewestFirst(eps[..k] + [e] + eps[k..])
  {
    k := 0;
    while k < |eps| && eps[k].publishedAt >= e.publishedAt
      invariant k <= |eps|
      invariant forall i :: 0 <= i < k ==> eps[i].publishedAt >= e.publishedAt
    {
      k := k + 1;
    }
  }

  lemma ListingInserts(eps: seq<Episode>, episodes: map<string, Episode>, podcastGuid: string, e: Episode, k: nat)
    requires IsListing(eps, episodes, podcastGuid) && k <= |eps|
    requires e.guid !in episodes && e.podcastGuid == podcastGuid
    ensures IsListing(eps[..k] + [e] + eps[k..], episodes[e.guid := e], podcastGuid)
  {
  }

  /** The rows of the podcast table, each once, in an order that is left open. */
  ghost predicate IsPodcastListing(pods: seq<Podcast>, podcasts: map<string, Podcast>) {
    && (forall p :: p in pods ==> p.guid in podcasts && podcasts[p.guid] == p)
    && (forall g :: g in podcasts ==> podcasts[g] in pods)
    && (forall i, j :: 0 <= i < j < |pods| ==> pods[i].guid != pods[j].guid)
  }

  class Store {
    const queue: QueueTable
    var podcasts: map<string, Podcast>
    var episodes: map<string, Episode>
    var objects: map<string, Object>

    constructor (queue: QueueTable)
      ensures this.queue == queue && podcasts == map[] && episodes == map[] && objects == map[]
    {
      this.queue := queue;
      podcasts := map[];
      episodes := map[];
      objects := map[];
    }

    /** Updates the status, and the byte count when one is given, of the row with this key. */
    method UpdateEpisodeStatus(guid: string, status: Status, fileBytes: Option<int>, commits: bool) returns (ok: bool)
      modifies this`episodes
      ensures ok <==> commits
      ensures !ok || guid !in old(episodes) ==> episodes == old(episodes)
      ensures ok && guid in old(episodes) ==>
                && episodes.Keys == old(episodes).Keys
                && (forall g :: g in episodes && g != guid ==> episodes[g] == old(episodes)[g])
                && episodes[guid] ==
                     old(episodes)[guid].(status := status,
                                          bytes := if fileBytes.Some? then fileBytes.value else old(episodes)[guid].bytes)
    {
      if !commits {
        return false;
      }
      if guid in episodes {
        var updated := episodes[guid].(status := status);
        if fileBytes.Some? {
          updated := updated.(bytes := fileBytes.value);
        }
        episodes := episodes[guid := updated];
      }
      return true;
    }

    /** Answers the query for a podcast's episodes, newest first. */
    method ListEpisodes(podcastGuid: string) returns (eps: seq<Episode>)
      requires forall g :: g in episodes ==> episodes[g].guid == g
      ensures IsListing(eps, episodes, podcastGuid) && NewestFirst(eps)
    {
      eps := [];
      var left := episodes.Keys;
      while left != {}
        invariant left <= episodes.Keys
        invariant IsListing(eps, map g | g in episodes && g !in left :: episodes[g], podcastGuid) && NewestFirst(eps)
        decreases left
      {
        var g :| g in left;
        ghost var before := map h | h in episodes && h !in left :: episodes[h];
        left := left - {g};
        assert (map h | h in episodes && h !in left :: episodes[h]) == before[g := episodes[g]];
        if episodes[g].podcastGuid == podcastGuid {
          var k := ListingPoint(eps, episodes[g]);
          ListingInserts(eps, before, podcastGuid, episodes[g], k);
          eps := eps[..k] + [episodes[g]] + eps[k..];
        }
      }
      assert (map g | g in episodes && g !in left :: episodes[g]) == episodes;
    }

    method ListPodcasts() returns (pods: seq<Podcast>)
      requires forall g :: g in podcasts ==> podcasts[g].guid == g
      ensures IsPodcastListing(pods, podcasts)
    {
      pods := [];
      var left := podcasts.Keys;
      while left != {}
        invariant left <= podcasts.Keys
        invariant IsPodcastListing(pods, map g | g in podcasts && g !in left :: podcasts[g])
        decreases left
      {
        var g :| g in left;
        left := left - {g};
        pods := pods + [podcasts[g]];
      }
      assert (map g | g in podcasts && g !in left :: podcasts[g]) == podcasts;
    }

    method UpdatePodcastTimes(guid: string, lastCheckedAt: Option<int>, lastEpisodeAt: Option<int>, commits: bool)
      returns (ok: bool)
      modifies this`podcasts
      ensures ok <==> commits
      ensures podcasts == if ok && guid in old(podcasts)
                          then old(podcasts)[guid := old(podcasts)[guid].(lastCheckedAt := lastCheckedAt,
                                                                         lastEpisodeAt := lastEpisodeAt)]
                          else old(podcasts)
    {
      if commits && guid in podcasts {
        podcasts := podcasts[guid := podcasts[guid].(lastCheckedAt := lastCheckedAt, lastEpisodeAt := lastEpisodeAt)];
      }
      return commits;
    }

    /** The local driver: creates or truncates the file, then copies into it what the request
        answers. `length` bytes have arrived when the copy ends or fails. */
    method SaveRemoteFile(path: string, opens: bool, copies: bool, length: nat) returns (n: Option<nat>)
      modifies this`objects
      ensures n == if opens && copies then Some(length) else None
      ensures objects == if opens then old(objects)[path := Object(length, copies)] else old(objects)
    {
      if !opens {
        return None;
      }
      objects := objects[path := Object(0, false)];
      if !copies {
        objects := objects[path := Object(length, false)];
        return None;
      }
      objects := objects[path := Object(length, true)];
      return Some(length);
    }
  }
}
