/** Feed ingest and feed generation: pkg/podcasts/feed.go. A feed is the in-memory record that the
    XML library parses into and prints from. */
module Feed {
  import opened Clock
  import opened Queue
  import opened Paths
  import opened Podcasts

  datatype Enclosure = Enclosure(length: int, declaredType: string, url: string)

  datatype Item = Item(
    title: string,
    description: Option<string>,
    enclosure: Enclosure,
    guidText: string,
    pubDate: Option<int>,
    duration: string)

  datatype FeedCategory = FeedCategory(text: string, sub: Option<FeedCategory>)

  datatype FeedRecord = FeedRecord(
    podcastGuid: string,
    atomHref: string,
    title: string,
    description: string,
    link: string,
    language: string,
    author: string,
    categories: seq<FeedCategory>,
    isExplicit: bool,
    imageHref: string,
    items: seq<Item>)

  /** Foreign functions: version 5 UUIDs of a text, RFC 3339 dates, and parsed durations. */
  datatype Library = Library(uuid: string -> string, rfc3339: int -> string, seconds: string -> int)

  /** UUIDs are written with hexadecimal digits and '-'. */
  ghost predicate UuidsAreHex(lib: Library) {
    forall text :: IsUuidText(lib.uuid(text))
  }

  const TITLE_LIMIT: nat := 500
  const DESCRIPTION_LIMIT: nat := 10000

  function Truncate(s: string, limit: nat): (r: string)
    ensures r <= s && |r| <= limit
    ensures r == s <==> |s| <= limit
  {
    if |s| > limit then s[..limit] else s
  }

  /** The text that a feed's key is the UUID of. */
  function FeedText(feed: FeedRecord): string {
    if feed.podcastGuid != "" then feed.podcastGuid
    else if feed.atomHref != "" then feed.atomHref
    else if feed.link != "" then feed.link
    else feed.title
  }

  function FeedGUID(lib: Library, feed: FeedRecord): string {
    lib.uuid(FeedText(feed))
  }

  /** The text that an item's key is the UUID of. */
  function EpisodeText(lib: Library, item: Item): string {
    if item.guidText != "" then item.guidText else
    var date := if item.pubDate.Some? then lib.rfc3339(item.pubDate.value) else "";
    item.title + (if date == "" then item.enclosure.url else date)
  }

  function EpisodeGUID(lib: Library, item: Item): string {
    lib.uuid(EpisodeText(lib, item))
  }

  ghost predicate Collide(lib: Library, a: string, b: string) {
    a != b && lib.uuid(a) == lib.uuid(b)
  }

  /** Up to collisions of the UUID, an item's key is that of its GUID, whatever else changes; without
      one it is that of the title and the date, whatever the URL; and without a date, of the title and
      the URL. */
  lemma EpisodeKeys(lib: Library, a: Item, b: Item)
    ensures var x, y := EpisodeText(lib, a), EpisodeText(lib, b);
            && (EpisodeGUID(lib, a) == EpisodeGUID(lib, b) <==> x == y || Collide(lib, x, y))
            && (a.guidText != "" ==> EpisodeGUID(lib, a) == lib.uuid(a.guidText))
            && (a.guidText == "" && a.pubDate.None? ==> EpisodeGUID(lib, a) == lib.uuid(a.title + a.enclosure.url))
            && (a.guidText != "" && b.guidText != "" ==> (x == y <==> a.guidText == b.guidText))
            && (a.guidText == b.guidText == "" && a.title == b.title && a.pubDate == b.pubDate ==>
                  (x == y <==> a.enclosure.url == b.enclosure.url
                               || (a.pubDate.Some? && lib.rfc3339(a.pubDate.value) != "")))
  {
    var u, v := a.title + a.enclosure.url, a.title + b.enclosure.url;
    assert u[|a.title|..] == a.enclosure.url && v[|a.title|..] == b.enclosure.url;
  }

  /** Podcast GUID, self link, link and title, in the order in which they identify a feed. */
  function Identifiers(feed: FeedRecord): seq<string> {
    [feed.podcastGuid, feed.atomHref, feed.link, feed.title]
  }

  /** The first identifier that the feed has, or else its empty title. */
  predicate Identifies(feed: FeedRecord, i: nat) {
    && i < 4
    && (Identifiers(feed)[i] != "" || i == 3)
    && (i > 0 ==> feed.podcastGuid == "") && (i > 1 ==> feed.atomHref == "") && (i > 2 ==> feed.link == "")
  }

  /** Up to collisions of the UUID, two feeds get the same key exactly when the first identifier that
      each of them has is the same. So a feed's key changes when it gets an earlier identifier. */
  lemma FeedKeys(lib: Library, a: FeedRecord, b: FeedRecord, i: nat, j: nat)
    requires Identifies(a, i) && Identifies(b, j)
    ensures var x, y := Identifiers(a)[i], Identifiers(b)[j];
            FeedGUID(lib, a) == FeedGUID(lib, b) <==> x == y || Collide(lib, x, y)
  {
    FirstIdentifies(a, i);
    FirstIdentifies(b, j);
  }

  lemma FirstIdentifies(feed: FeedRecord, i: nat)
    requires Identifies(feed, i)
    ensures FeedText(feed) == Identifiers(feed)[i]
  {
  }

  // ---- ingest ----

  datatype ParseError = NoDownloadURL(guid: string) | NoMimeType(guid: string)

  datatype Parsed = Accepted(episode: Episode) | Rejected(error: ParseError)

  function ParseItem(lib: Library, item: Item, podcastGuid: string): Parsed {
    var mime := DetectMIMEType(item.enclosure.declaredType, item.enclosure.url);
    if item.enclosure.url == "" then Rejected(NoDownloadURL(EpisodeGUID(lib, item)))
    else if mime.None? then Rejected(NoMimeType(EpisodeGUID(lib, item)))
    else Accepted(Episode(
      EpisodeGUID(lib, item),
      podcastGuid,
      Truncate(item.title, TITLE_LIMIT),
      Truncate(if item.description.Some? then item.description.value else "", DESCRIPTION_LIMIT),
      item.enclosure.url,
      0,
      mime.value,
      lib.seconds(item.duration),
      if item.pubDate.Some? then item.pubDate.value else ZERO_TIME,
      Unset))
  }

  /** The accepted items, in feed order. */
  ghost function AcceptedOf(lib: Library, items: seq<Item>, podcastGuid: string): seq<Episode> {
    if items == [] then [] else
    var n := |items| - 1;
    var p := ParseItem(lib, items[n], podcastGuid);
    AcceptedOf(lib, items[..n], podcastGuid) + (if p.Accepted? then [p.episode] else [])
  }

  ghost function RejectedOf(lib: Library, items: seq<Item>, podcastGuid: string): seq<ParseError> {
    if items == [] then [] else
    var n := |items| - 1;
    var p := ParseItem(lib, items[n], podcastGuid);
    RejectedOf(lib, items[..n], podcastGuid) + (if p.Rejected? then [p.error] else [])
  }

  /** Every item is either accepted or recorded as an error. */
  lemma {:induction false} ItemsPartition(lib: Library, items: seq<Item>, podcastGuid: string)
    ensures |AcceptedOf(lib, items, podcastGuid)| + |RejectedOf(lib, items, podcastGuid)| == |items|
  {
    if items != [] {
      ItemsPartition(lib, items[..|items| - 1], podcastGuid);
    }
  }

  /** There is something to download, of a type that the enclosure declares or the URL ends in. */
  ghost predicate Storable(item: Item) {
    && item.enclosure.url != ""
    && (MimeToExt(item.enclosure.declaredType).Some? || ExtToMime(LastPart(item.enclosure.url)).Some?)
  }

  /** The declared type counts if it is supported, otherwise the URL's extension does. */
  ghost predicate HasType(item: Item, mime: string) {
    if MimeToExt(item.enclosure.declaredType).Some? then mime == item.enclosure.declaredType
    else ExtToMime(LastPart(item.enclosure.url)) == Some(mime)
  }

  /** The first bytes of the text, as many of them as fit. */
  ghost predicate IsCut(s: string, text: string, limit: nat) {
    s <= text && |s| == (if |text| <= limit then |text| else limit)
  }

  ghost predicate IsEpisodeOf(lib: Library, e: Episode, item: Item, podcastGuid: string) {
    && e.guid == EpisodeGUID(lib, item) && e.podcastGuid == podcastGuid
    && HasType(item, e.mime) && e.downloadUrl == item.enclosure.url
    && IsCut(e.title, item.title, 500)
    && (if item.description.Some? then IsCut(e.description, item.description.value, 10000) else e.description == "")
    && (if item.pubDate.Some? then e.publishedAt == item.pubDate.value else e.publishedAt == ZERO_TIME)
    && e.durationSecs == lib.seconds(item.duration) && e.bytes == 0 && e.status.Unset?
  }

  ghost predicate IsErrorOf(lib: Library, error: ParseError, item: Item) {
    if item.enclosure.url == "" then error == NoDownloadURL(EpisodeGUID(lib, item))
    else error == NoMimeType(EpisodeGUID(lib, item))
  }

  /** Which items are accepted, and as what. */
  lemma ParsedExactly(lib: Library, item: Item, podcastGuid: string)
    ensures var p := ParseItem(lib, item, podcastGuid);
            && (p.Accepted? <==> Storable(item))
            && (p.Accepted? ==> IsEpisodeOf(lib, p.episode, item, podcastGuid))
            && (p.Rejected? ==> IsErrorOf(lib, p.error, item))
  {
  }

  /** Every item that can be stored has its episode, and every other item its error. */
  lemma {:induction false} ItemHasResult(lib: Library, items: seq<Item>, podcastGuid: string, i: nat)
    requires i < |items|
    ensures if Storable(items[i])
            then exists e :: e in AcceptedOf(lib, items, podcastGuid) && IsEpisodeOf(lib, e, items[i], podcastGuid)
            else exists r :: r in RejectedOf(lib, items, podcastGuid) && IsErrorOf(lib, r, items[i])
    decreases |items|
  {
    var n := |items| - 1;
    ParsedExactly(lib, items[i], podcastGuid);
    if i == n {
      var p := ParseItem(lib, items[n], podcastGuid);
      if Storable(items[i]) {
        assert p.episode in AcceptedOf(lib, items, podcastGuid);
      } else {
        assert p.error in RejectedOf(lib, items, podcastGuid);
      }
    } else {
      ItemHasResult(lib, items[..n], podcastGuid, i);
      if Storable(items[i]) {
        var e :| e in AcceptedOf(lib, items[..n], podcastGuid) && IsEpisodeOf(lib, e, items[i], podcastGuid);
        assert e in AcceptedOf(lib, items, podcastGuid);
      } else {
        var r :| r in RejectedOf(lib, items[..n], podcastGuid) && IsErrorOf(lib, r, items[i]);
        assert r in RejectedOf(lib, items, podcastGuid);
      }
    }
  }

  lemma {:induction false} AcceptedFrom(lib: Library, items: seq<Item>, podcastGuid: string, e: Episode) returns (i: nat)
    requires e in AcceptedOf(lib, items, podcastGuid)
    ensures i < |items| && Storable(items[i]) && IsEpisodeOf(lib, e, items[i], podcastGuid)
    decreases |items|
  {
    i := |items| - 1;
    if e in AcceptedOf(lib, items[..i], podcastGuid) {
      i := AcceptedFrom(lib, items[..i], podcastGuid, e);
    } else {
      ParsedExactly(lib, items[i], podcastGuid);
    }
  }

  lemma {:induction false} ItemsHaveResults(lib: Library, items: seq<Item>, podcastGuid: string, episodes: seq<Episode>)
    requires multiset(episodes) == multiset(AcceptedOf(lib, items, podcastGuid))
    ensures forall i :: 0 <= i < |items| && Storable(items[i]) ==>
              exists e :: e in episodes && IsEpisodeOf(lib, e, items[i], podcastGuid)
    ensures forall i :: 0 <= i < |items| && !Storable(items[i]) ==>
              exists r :: r in RejectedOf(lib, items, podcastGuid) && IsErrorOf(lib, r, items[i])
  {
    forall i | 0 <= i < |items| && Storable(items[i])
      ensures exists e :: e in episodes && IsEpisodeOf(lib, e, items[i], podcastGuid)
    {
      ItemHasResult(lib, items, podcastGuid, i);
      var e :| e in AcceptedOf(lib, items, podcastGuid) && IsEpisodeOf(lib, e, items[i], podcastGuid);
      assert e in multiset(episodes);
    }
    forall i | 0 <= i < |items| && !Storable(items[i])
      ensures exists r :: r in RejectedOf(lib, items, podcastGuid) && IsErrorOf(lib, r, items[i])
    {
      ItemHasResult(lib, items, podcastGuid, i);
    }
  }

  lemma EpisodeIsStorable(lib: Library, item: Item, podcastGuid: string, e: Episode)
    requires Storable(item) && IsEpisodeOf(lib, e, item, podcastGuid)
    ensures PathOf(e).Some? && WithinBounds(e)
    ensures UuidsAreHex(lib) ==> IsUuidText(e.guid) && Clean(e.guid)
  {
    TablesAreInverse(e.mime, LastPart(item.enclosure.url));
    if UuidsAreHex(lib) {
      assert e.guid == lib.uuid(EpisodeText(lib, item));
      UuidIsKept(e.guid);
    }
  }

  /** What is accepted can be stored and downloaded: it is the episode of a storable item, its type is
      supported, its texts are within bounds, its URL is there, and its key is a UUID. */
  lemma {:induction false} AcceptedIsStorable(lib: Library, items: seq<Item>, podcastGuid: string, e: Episode)
    requires e in AcceptedOf(lib, items, podcastGuid)
    ensures exists i :: 0 <= i < |items| && Storable(items[i]) && IsEpisodeOf(lib, e, items[i], podcastGuid)
    ensures e.podcastGuid == podcastGuid && PathOf(e).Some? && WithinBounds(e) && e.downloadUrl != ""
    ensures UuidsAreHex(lib) ==> IsUuidText(e.guid) && Clean(e.guid)
  {
    var i := AcceptedFrom(lib, items, podcastGuid, e);
    EpisodeIsStorable(lib, items[i], podcastGuid, e);
  }

  ghost predicate WithinBounds(e: Episode) {
    |e.title| <= 500 && |e.description| <= 10000
  }

  ghost predicate SortedByDate(eps: seq<Episode>) {
    forall i, j :: 0 <= i < j < |eps| ==> eps[i].publishedAt <= eps[j].publishedAt
  }

  /** Where an episode goes in a sorted sequence. */
  method InsertionPoint(sorted: seq<Episode>, e: Episode) returns (k: nat)
    requires SortedByDate(sorted)
    ensures k <= |sorted|
    ensures forall i :: 0 <= i < k ==> sorted[i].publishedAt <= e.publishedAt
    ensures forall i :: k <= i < |sorted| ==> e.publishedAt <= sorted[i].publishedAt
  {
    k := 0;
    while k < |sorted| && sorted[k].publishedAt < e.publishedAt
      invariant k <= |sorted|
      invariant forall i :: 0 <= i < k ==> sorted[i].publishedAt <= e.publishedAt
    {
      k := k + 1;
    }
  }

  lemma InsertedIsPermuted(rest: seq<Episode>, e: Episode, k: nat)
    requires k <= |rest|
    ensures multiset(rest[..k] + [e] + rest[k..]) == multiset(rest) + multiset{e}
  {
    assert rest == rest[..k] + rest[k..];
  }

  /** The library's sort, of which no more is used than that it sorts. */
  method SortFunc(eps: seq<Episode>) returns (sorted: seq<Episode>)
    ensures SortedByDate(sorted) && multiset(sorted) == multiset(eps)
  {
    sorted := [];
    for k := 0 to |eps|
      invariant SortedByDate(sorted) && multiset(sorted) == multiset(eps[..k])
    {
      var at := InsertionPoint(sorted, eps[k]);
      InsertedIsPermuted(sorted, eps[k], at);
      assert eps[..k + 1] == eps[..k] + [eps[k]];
      sorted := sorted[..at] + [eps[k]] + sorted[at..];
    }
    assert eps[..|eps|] == eps;
  }

  /** The loop over the items. */
  method ParseItems(lib: Library, items: seq<Item>, podcastGuid: string)
    returns (episodes: seq<Episode>, errs: seq<ParseError>)
    ensures episodes == AcceptedOf(lib, items, podcastGuid) && errs == RejectedOf(lib, items, podcastGuid)
  {
    episodes, errs := [], [];
    for k := 0 to |items|
      invariant episodes == AcceptedOf(lib, items[..k], podcastGuid)
      invariant errs == RejectedOf(lib, items[..k], podcastGuid)
    {
      var item := items[k];
      assert items[..k + 1][..k] == items[..k];
      var desc := "";
      if item.description.Some? {
        desc := item.description.value;
      }
      var pub := ZERO_TIME;
      if item.pubDate.Some? {
        pub := item.pubDate.value;
      }
      if item.enclosure.url == "" {
        errs := errs + [NoDownloadURL(EpisodeGUID(lib, item))];
        continue;
      }
      var mimeType := DetectMIMEType(item.enclosure.declaredType, item.enclosure.url);
      if mimeType.None? {
        errs := errs + [NoMimeType(EpisodeGUID(lib, item))];
        continue;
      }
      var episode := Episode(EpisodeGUID(lib, item), podcastGuid, Truncate(item.title, TITLE_LIMIT),
                             Truncate(desc, DESCRIPTION_LIMIT), item.enclosure.url, 0, mimeType.value,
                             lib.seconds(item.duration), pub, Unset);
      episodes := episodes + [episode];
    }
    assert items[..|items|] == items;
  }

  method EpisodesFromFeed(lib: Library, feed: FeedRecord, podcastGuid: string)
    returns (episodes: seq<Episode>, errs: seq<ParseError>)
    ensures SortedByDate(episodes)
    ensures multiset(episodes) == multiset(AcceptedOf(lib, feed.items, podcastGuid))
    ensures errs == RejectedOf(lib, feed.items, podcastGuid)
    ensures |episodes| + |errs| == |feed.items|
    ensures forall i :: 0 <= i < |feed.items| && Storable(feed.items[i]) ==>
              exists e :: e in episodes && IsEpisodeOf(lib, e, feed.items[i], podcastGuid)
    ensures forall i :: 0 <= i < |feed.items| && !Storable(feed.items[i]) ==>
              exists r :: r in errs && IsErrorOf(lib, r, feed.items[i])
  {
    var parsed;
    parsed, errs := ParseItems(lib, feed.items, podcastGuid);
    ItemsPartition(lib, feed.items, podcastGuid);
    episodes := SortFunc(parsed);
    assert |episodes| == |multiset(episodes)| == |multiset(parsed)| == |parsed|;
    ItemsHaveResults(lib, feed.items, podcastGuid, episodes);
  }

  /** The latest publish time of some episodes, if there are any. */
  ghost predicate IsLatest(latest: Option<int>, eps: seq<Episode>) {
    if eps == [] then latest.None? else
    && latest.Some?
    && (exists e :: e in eps && e.publishedAt == latest.value)
    && (forall e :: e in eps ==> e.publishedAt <= latest.value)
  }

  /** Of sorted episodes, the last one is the latest. */
  lemma LastIsLatest(sorted: seq<Episode>, eps: seq<Episode>)
    requires SortedByDate(sorted) && multiset(sorted) == multiset(eps)
    ensures IsLatest(if sorted == [] then None else Some(sorted[|sorted| - 1].publishedAt), eps)
  {
    assert |sorted| == |multiset(sorted)| == |multiset(eps)| == |eps|;
    if sorted != [] {
      var last := sorted[|sorted| - 1];
      assert last in multiset(sorted);
      assert last in eps;
      forall e | e in eps
        ensures e.publishedAt <= last.publishedAt
      {
        assert e in multiset(eps);
        var i :| 0 <= i < |sorted| && sorted[i] == e;
      }
    }
  }

  /** The podcast's last-episode time is the latest publish time of what was accepted. */
  method PodcastFromFeed(lib: Library, feedUrl: string, feed: FeedRecord)
    returns (podcast: Podcast, episodes: seq<Episode>, errs: seq<ParseError>)
    ensures podcast.guid == FeedGUID(lib, feed) && podcast.feedUrl == feedUrl && podcast.lastCheckedAt.None?
    ensures IsLatest(podcast.lastEpisodeAt, AcceptedOf(lib, feed.items, podcast.guid))
    ensures podcast.categories == CategoriesOf(feed.categories)
    ensures SortedByDate(episodes) && multiset(episodes) == multiset(AcceptedOf(lib, feed.items, podcast.guid))
    ensures errs == RejectedOf(lib, feed.items, podcast.guid)
    ensures podcast.title == Truncate(feed.title, TITLE_LIMIT)
    ensures podcast.description == Truncate(feed.description, DESCRIPTION_LIMIT)
    ensures podcast.author == (if feed.author != "" then feed.author else "unknown")
    ensures podcast.language == feed.language && podcast.link == feed.link && podcast.isExplicit == feed.isExplicit
    ensures podcast.imageUrl == feed.imageHref
  {
    var guid := FeedGUID(lib, feed);
    episodes, errs := EpisodesFromFeed(lib, feed, guid);
    LastIsLatest(episodes, AcceptedOf(lib, feed.items, guid));
    var lastEpisodeAt := None;
    if |episodes| > 0 {
      lastEpisodeAt := Some(episodes[|episodes| - 1].publishedAt);
    }
    var author := "unknown";
    if feed.author != "" {
      author := feed.author;
    }
    var categories := FeedCategories(feed.categories);
    podcast := Podcast(guid, Truncate(feed.title, TITLE_LIMIT), author, Truncate(feed.description, DESCRIPTION_LIMIT),
                       feed.language, feed.link, categories, feed.isExplicit, feed.imageHref, feedUrl, None,
                       lastEpisodeAt);
  }

  // ---- categories ----

  ghost function CategoriesOf(cats: seq<FeedCategory>): seq<Category> {
    if cats == [] then [] else
    var n := |cats| - 1;
    var c := cats[n];
    CategoriesOf(cats[..n]) +
    (if c.text == "" then []
     else
       var sub := if c.sub.Some? && c.sub.value.text != "" then Some(Category(c.sub.value.text, None)) else None;
       [Category(c.text, sub)])
  }

  /** Every named category is kept, in its place, with its sub-category if that is named. */
  lemma {:induction false} NamedAreKept(cats: seq<FeedCategory>, i: nat)
    requires i < |cats| && forall k :: 0 <= k < |cats| ==> cats[k].text != ""
    ensures |CategoriesOf(cats)| == |cats|
    ensures var c, sub := CategoriesOf(cats)[i], cats[i].sub;
            && c.name == cats[i].text
            && (sub.Some? && sub.value.text != "" ==> c.sub == Some(Category(sub.value.text, None)))
            && (sub.None? || sub.value.text == "" ==> c.sub.None?)
    decreases |cats|
  {
    var n := |cats| - 1;
    if n > 0 {
      NamedAreKept(cats[..n], if i < n then i else 0);
    }
  }

  /** A category without a name is as if it were not there. */
  lemma {:induction false} UnnamedAreSkipped(before: seq<FeedCategory>, c: FeedCategory, after: seq<FeedCategory>)
    requires c.text == ""
    ensures CategoriesOf(before + [c] + after) == CategoriesOf(before + after)
    decreases |after|
  {
    if after == [] {
      assert (before + [c] + after)[..|before|] == before && before + after == before;
    } else {
      var n := |after| - 1;
      UnnamedAreSkipped(before, c, after[..n]);
      assert (before + [c] + after)[..|before| + 1 + n] == before + [c] + after[..n];
      assert (before + after)[..|before| + n] == before + after[..n];
    }
  }

  method FeedCategories(feedCats: seq<FeedCategory>) returns (cats: seq<Category>)
    ensures cats == CategoriesOf(feedCats)
  {
    cats := [];
    for k := 0 to |feedCats|
      invariant cats == CategoriesOf(feedCats[..k])
    {
      var c := feedCats[k];
      assert feedCats[..k + 1][..k] == feedCats[..k];
      if c.text != "" {
        var cat := Category(c.text, None);
        if c.sub.Some? && c.sub.value.text != "" {
          cat := cat.(sub := Some(Category(c.sub.value.text, None)));
        }
        cats := cats + [cat];
      }
    }
    assert feedCats[..|feedCats|] == feedCats;
  }

  ghost function FeedCategoriesOf(cats: seq<Category>): seq<FeedCategory> {
    if cats == [] then [] else
    var n := |cats| - 1;
    var c := cats[n];
    FeedCategoriesOf(cats[..n]) +
    (if c.name == "" then []
     else
       var sub := if c.sub.Some? && c.sub.value.name != "" then Some(FeedCategory(c.sub.value.name, None)) else None;
       [FeedCategory(c.name, sub)])
  }

  /** Named, with at most one level of sub-category, itself named. */
  ghost predicate Flat(c: Category) {
    c.name != "" && (c.sub.Some? ==> c.sub.value.name != "" && c.sub.value.sub.None?)
  }

  lemma {:induction false} ParsedCategoriesAreFlat(cats: seq<FeedCategory>, c: Category)
    requires c in CategoriesOf(cats)
    ensures Flat(c)
    decreases |cats|
  {
    var n := |cats| - 1;
    if c in CategoriesOf(cats[..n]) {
      ParsedCategoriesAreFlat(cats[..n], c);
    }
  }

  lemma {:induction false} CategoryCounts(cats: seq<Category>)
    ensures |FeedCategoriesOf(cats)| <= |cats|
    ensures |CategoriesOf(FeedCategoriesOf(cats))| <= |FeedCategoriesOf(cats)|
    ensures forall c :: c in CategoriesOf(FeedCategoriesOf(cats)) ==> Flat(c)
    decreases |cats|
  {
    if cats != [] {
      CategoryCounts(cats[..|cats| - 1]);
    }
    CategoriesShrink(FeedCategoriesOf(cats));
    forall c | c in CategoriesOf(FeedCategoriesOf(cats))
      ensures Flat(c)
    {
      ParsedCategoriesAreFlat(FeedCategoriesOf(cats), c);
    }
  }

  lemma {:induction false} CategoriesShrink(cats: seq<FeedCategory>)
    ensures |CategoriesOf(cats)| <= |cats|
    decreases |cats|
  {
    if cats != [] {
      CategoriesShrink(cats[..|cats| - 1]);
    }
  }

  lemma {:induction false} FlatCategoriesSurvive(cats: seq<Category>)
    requires forall c :: c in cats ==> Flat(c)
    ensures CategoriesOf(FeedCategoriesOf(cats)) == cats
    decreases |cats|
  {
    if cats != [] {
      var n := |cats| - 1;
      FlatCategoriesSurvive(cats[..n]);
      var out := FeedCategoriesOf(cats);
      assert cats[n] in cats;
      assert |out| >= 1 && out[..|out| - 1] == FeedCategoriesOf(cats[..n]);
      assert cats == cats[..n] + [cats[n]];
    }
  }

  /** Categories survive generation and ingest exactly when they are flat, as parsed ones are. */
  lemma {:induction false} CategoriesRoundTrip(cats: seq<Category>)
    ensures CategoriesOf(FeedCategoriesOf(cats)) == cats <==> forall c :: c in cats ==> Flat(c)
  {
    if forall c :: c in cats ==> Flat(c) {
      FlatCategoriesSurvive(cats);
    } else {
      CategoryCounts(cats);
    }
  }

  lemma {:induction false} ParsedCategoriesSurvive(feedCats: seq<FeedCategory>)
    ensures CategoriesOf(FeedCategoriesOf(CategoriesOf(feedCats))) == CategoriesOf(feedCats)
  {
    forall c | c in CategoriesOf(feedCats)
      ensures Flat(c)
    {
      ParsedCategoriesAreFlat(feedCats, c);
    }
    CategoriesRoundTrip(CategoriesOf(feedCats));
  }

  // ---- generation ----

  function DownloadLink(baseUrl: string, guid: string): (url: string)
    ensures url != ""
  {
    baseUrl + "/feeds/episodes/" + guid + "/download"
  }

  function ItemOf(baseUrl: string, e: Episode): Item {
    Item(e.title, Some(e.description), Enclosure(e.bytes, e.mime, DownloadLink(baseUrl, e.guid)), e.guid,
         Some(e.publishedAt), "")
  }

  ghost function Successes(eps: seq<Episode>): seq<Episode> {
    if eps == [] then [] else
    var n := |eps| - 1;
    Successes(eps[..n]) + (if eps[n].status == Success then [eps[n]] else [])
  }

  ghost function ItemsOf(baseUrl: string, eps: seq<Episode>): seq<Item> {
    if eps == [] then [] else
    var n := |eps| - 1;
    ItemsOf(baseUrl, eps[..n]) + [ItemOf(baseUrl, eps[n])]
  }

  /** Exactly the success episodes, each as often as it is there. */
  lemma {:induction false} SuccessesAre(eps: seq<Episode>, e: Episode)
    ensures multiset(Successes(eps))[e] == if e.status == Success then multiset(eps)[e] else 0
    decreases |eps|
  {
    if eps != [] {
      var n := |eps| - 1;
      SuccessesAre(eps[..n], e);
      assert eps == eps[..n] + [eps[n]];
    }
  }

  /** In their order. */
  lemma {:induction false} SuccessesInOrder(before: seq<Episode>, after: seq<Episode>)
    ensures Successes(before + after) == Successes(before) + Successes(after)
    decreases |after|
  {
    if after == [] {
      assert before + after == before && Successes(before) + [] == Successes(before);
    } else {
      var n := |after| - 1;
      SuccessesInOrder(before, after[..n]);
      assert (before + after)[..|before| + n] == before + after[..n];
    }
  }

  /** Links of distinct episodes differ. */
  lemma LinksDiffer(baseUrl: string, guid: string, guid': string)
    ensures DownloadLink(baseUrl, guid) == DownloadLink(baseUrl, guid') <==> guid == guid'
  {
    var before := |baseUrl + "/feeds/episodes/"|;
    var a, b := DownloadLink(baseUrl, guid), DownloadLink(baseUrl, guid');
    assert |a| == before + |guid| + 9 && |b| == before + |guid'| + 9;
    assert a[before..before + |guid|] == guid && b[before..before + |guid'|] == guid';
  }

  /** The item by which a listener finds the episode's file. */
  ghost predicate IsItemOf(baseUrl: string, item: Item, e: Episode) {
    && item.title == e.title && item.description == Some(e.description) && item.pubDate == Some(e.publishedAt)
    && item.guidText == e.guid
    && item.enclosure == Enclosure(e.bytes, e.mime, baseUrl + "/feeds/episodes/" + e.guid + "/download")
  }

  lemma {:induction false} ItemsAre(baseUrl: string, eps: seq<Episode>, k: nat)
    requires k < |eps|
    ensures |ItemsOf(baseUrl, eps)| == |eps| && IsItemOf(baseUrl, ItemsOf(baseUrl, eps)[k], eps[k])
    decreases |eps|
  {
    var n := |eps| - 1;
    if n > 0 {
      ItemsAre(baseUrl, eps[..n], if k < n then k else 0);
    }
  }

  lemma {:induction false} NextSuccess(baseUrl: string, eps: seq<Episode>, k: nat)
    requires k < |eps|
    ensures ItemsOf(baseUrl, Successes(eps[..k + 1])) ==
            ItemsOf(baseUrl, Successes(eps[..k])) + (if eps[k].status == Success then [ItemOf(baseUrl, eps[k])] else [])
  {
    var before := Successes(eps[..k]);
    assert eps[..k + 1][..k] == eps[..k];
    assert before + [] == before && ItemsOf(baseUrl, before) + [] == ItemsOf(baseUrl, before);
    assert (before + [eps[k]])[..|before|] == before;
  }

  method FeedFromPodcast(baseUrl: string, pod: Podcast, eps: seq<Episode>) returns (feed: FeedRecord)
    ensures feed.items == ItemsOf(baseUrl, Successes(eps)) && |feed.items| == |Successes(eps)|
    ensures forall k :: 0 <= k < |feed.items| ==> IsItemOf(baseUrl, feed.items[k], Successes(eps)[k])
    ensures feed.categories == FeedCategoriesOf(pod.categories)
    ensures feed.title == pod.title && feed.description == pod.description && feed.link == pod.link
    ensures feed.language == pod.language && feed.isExplicit == pod.isExplicit
    ensures feed.podcastGuid == "" && feed.atomHref == baseUrl + "/feeds/" + pod.guid
    ensures feed.imageHref == baseUrl + "/feeds/" + pod.guid + "/image" && feed.author == ""
  {
    var categories: seq<FeedCategory> := [];
    for k := 0 to |pod.categories|
      invariant categories == FeedCategoriesOf(pod.categories[..k])
    {
      var cat := pod.categories[k];
      assert pod.categories[..k + 1][..k] == pod.categories[..k];
      if cat.name == "" {
        continue;
      }
      var iCat := FeedCategory(cat.name, None);
      if cat.sub.Some? && cat.sub.value.name != "" {
        iCat := iCat.(sub := Some(FeedCategory(cat.sub.value.name, None)));
      }
      categories := categories + [iCat];
    }
    assert pod.categories[..|pod.categories|] == pod.categories;

    var items: seq<Item> := [];
    for k := 0 to |eps|
      invariant items == ItemsOf(baseUrl, Successes(eps[..k]))
    {
      var ep := eps[k];
      NextSuccess(baseUrl, eps, k);
      if ep.status != Success {
        continue;
      }
      items := items + [ItemOf(baseUrl, ep)];
    }
    assert eps[..|eps|] == eps;
    forall k | 0 <= k < |Successes(eps)|
      ensures |items| == |Successes(eps)| && IsItemOf(baseUrl, items[k], Successes(eps)[k])
    {
      ItemsAre(baseUrl, Successes(eps), k);
    }

    feed := FeedRecord("", baseUrl + "/feeds/" + pod.guid, pod.title, pod.description, pod.link, pod.language, "",
                       categories, pod.isExplicit, baseUrl + "/feeds/" + pod.guid + "/image", items);
  }

  // ---- re-ingesting a generated feed ----

  /** What a listener sees of an episode. */
  datatype Shown = Shown(title: string, description: string, mime: string, publishedAt: int)

  function ShownOf(e: Episode): Shown {
    Shown(e.title, e.description, e.mime, e.publishedAt)
  }

  ghost function AllShown(eps: seq<Episode>): seq<Shown> {
    seq(|eps|, i requires 0 <= i < |eps| => ShownOf(eps[i]))
  }

  ghost predicate CanComeBack(e: Episode) {
    MimeToExt(e.mime).Some? && WithinBounds(e)
  }

  /** The link has no extension of its own, so only the declared type can make it accepted. */
  lemma LinkHasNoType(baseUrl: string, guid: string)
    ensures ExtToMime(LastPart(DownloadLink(baseUrl, guid))).None?
  {
  }

  lemma ItemComesBack(lib: Library, baseUrl: string, podcastGuid: string, e: Episode)
    ensures var p := ParseItem(lib, ItemOf(baseUrl, e), podcastGuid);
            && (p.Accepted? <==> MimeToExt(e.mime).Some?)
            && (p.Accepted? ==> (ShownOf(p.episode) == ShownOf(e) <==> WithinBounds(e)))
            && (p.Accepted? && e.guid != "" ==> p.episode.guid == lib.uuid(e.guid))
  {
    LinkHasNoType(baseUrl, e.guid);
  }

  predicate Supported(e: Episode) {
    MimeToExt(e.mime).Some?
  }

  ghost predicate AllSupported(eps: seq<Episode>) {
    forall i :: 0 <= i < |eps| ==> Supported(eps[i])
  }

  lemma LastSupported(eps: seq<Episode>)
    requires eps != []
    ensures AllSupported(eps) <==> AllSupported(eps[..|eps| - 1]) && Supported(eps[|eps| - 1])
  {
  }

  lemma LastRejected(lib: Library, baseUrl: string, podcastGuid: string, eps: seq<Episode>)
    requires eps != []
    ensures var n := |eps| - 1;
            RejectedOf(lib, ItemsOf(baseUrl, eps), podcastGuid) == [] <==>
              RejectedOf(lib, ItemsOf(baseUrl, eps[..n]), podcastGuid) == [] && Supported(eps[n])
  {
    var n, items := |eps| - 1, ItemsOf(baseUrl, eps);
    ItemComesBack(lib, baseUrl, podcastGuid, eps[n]);
    assert items[..|items| - 1] == ItemsOf(baseUrl, eps[..n]) && items[|items| - 1] == ItemOf(baseUrl, eps[n]);
  }

  lemma {:induction false} NoneRejectedExactly(lib: Library, baseUrl: string, podcastGuid: string, eps: seq<Episode>)
    ensures RejectedOf(lib, ItemsOf(baseUrl, eps), podcastGuid) == [] <==> AllSupported(eps)
    decreases |eps|
  {
    if eps != [] {
      var n := |eps| - 1;
      NoneRejectedExactly(lib, baseUrl, podcastGuid, eps[..n]);
      LastRejected(lib, baseUrl, podcastGuid, eps);
      LastSupported(eps);
    }
  }

  lemma {:induction false} ShownComesBack(lib: Library, baseUrl: string, podcastGuid: string, eps: seq<Episode>)
    requires forall e :: e in eps ==> CanComeBack(e)
    ensures AllShown(AcceptedOf(lib, ItemsOf(baseUrl, eps), podcastGuid)) == AllShown(eps)
    decreases |eps|
  {
    if eps != [] {
      var n := |eps| - 1;
      ShownComesBack(lib, baseUrl, podcastGuid, eps[..n]);
      assert CanComeBack(eps[n]);
      ItemComesBack(lib, baseUrl, podcastGuid, eps[n]);
      var items := ItemsOf(baseUrl, eps);
      assert items[..|items| - 1] == ItemsOf(baseUrl, eps[..n]) && items[|items| - 1] == ItemOf(baseUrl, eps[n]);
      ShownAppends(AcceptedOf(lib, ItemsOf(baseUrl, eps[..n]), podcastGuid),
                   ParseItem(lib, items[|items| - 1], podcastGuid).episode);
      ShownAppends(eps[..n], eps[n]);
      assert eps == eps[..n] + [eps[n]];
    }
  }

  lemma ShownAppends(eps: seq<Episode>, e: Episode)
    ensures AllShown(eps + [e]) == AllShown(eps) + [ShownOf(e)]
  {
  }

  function Without(eps: seq<Episode>, k: nat): seq<Episode>
    requires k < |eps|
  {
    eps[..k] + eps[k + 1..]
  }

  lemma TakeOut(eps: seq<Episode>, k: nat)
    requires k < |eps|
    ensures multiset(eps) == multiset(Without(eps, k)) + multiset{eps[k]}
    ensures multiset(AllShown(eps)) == multiset(AllShown(Without(eps, k))) + multiset{ShownOf(eps[k])}
  {
    assert eps == eps[..k] + [eps[k]] + eps[k + 1..];
    assert AllShown(eps) == AllShown(eps[..k]) + [ShownOf(eps[k])] + AllShown(eps[k + 1..]);
    assert AllShown(Without(eps, k)) == AllShown(eps[..k]) + AllShown(eps[k + 1..]);
  }

  /** Permutations stay permutations when the first episode of one is taken out of both. */
  lemma TakeOutOfBoth(a: seq<Episode>, b: seq<Episode>) returns (k: nat)
    requires a != [] && multiset(a) == multiset(b)
    ensures k < |b| && b[k] == a[0] && multiset(Without(a, 0)) == multiset(Without(b, k))
  {
    assert a[0] in multiset(b);
    k :| 0 <= k < |b| && b[k] == a[0];
    TakeOut(a, 0);
    TakeOut(b, k);
    assert multiset(Without(a, 0)) == multiset(a) - multiset{a[0]};
    assert multiset(Without(b, k)) == multiset(b) - multiset{a[0]};
  }

  lemma {:induction false} ShownIsPermuted(a: seq<Episode>, b: seq<Episode>)
    requires multiset(a) == multiset(b)
    ensures multiset(AllShown(a)) == multiset(AllShown(b))
    decreases |a|
  {
    if a == [] {
      assert |b| == |multiset(b)| == 0;
    } else {
      var k := TakeOutOfBoth(a, b);
      ShownIsPermuted(Without(a, 0), Without(b, k));
      TakeOut(a, 0);
      TakeOut(b, k);
    }
  }

  /** If what comes back is what went in, then what went in could be stored. */
  lemma {:induction false} ShownNeedsBounds(lib: Library, items: seq<Item>, podcastGuid: string, eps: seq<Episode>,
                                            e: Episode)
    requires multiset(AllShown(AcceptedOf(lib, items, podcastGuid))) == multiset(AllShown(eps)) && e in eps
    ensures CanComeBack(e)
  {
    var back := AcceptedOf(lib, items, podcastGuid);
    var i :| 0 <= i < |eps| && eps[i] == e;
    assert AllShown(eps)[i] == ShownOf(e);
    assert ShownOf(e) in multiset(AllShown(back));
    var j :| 0 <= j < |back| && AllShown(back)[j] == ShownOf(e);
    AcceptedIsStorable(lib, items, podcastGuid, back[j]);
  }

  /** Re-ingesting a generated feed. It rejects nothing exactly when every success episode has a
      supported type; and, sorted by date, it gives exactly the success episodes with title,
      description, type and publish time preserved, if and only if their texts are also within the
      truncation bounds. */
  method ReingestGenerated(lib: Library, baseUrl: string, feedUrl: string, pod: Podcast, eps: seq<Episode>)
    returns (again: Podcast, episodes: seq<Episode>, errs: seq<ParseError>)
    ensures errs == [] <==> AllSupported(Successes(eps))
    ensures SortedByDate(episodes)
    ensures multiset(AllShown(episodes)) == multiset(AllShown(Successes(eps))) <==>
              forall e :: e in Successes(eps) ==> CanComeBack(e)
    ensures again.categories == pod.categories <==> forall c :: c in pod.categories ==> Flat(c)
  {
    var feed := FeedFromPodcast(baseUrl, pod, eps);
    again, episodes, errs := PodcastFromFeed(lib, feedUrl, feed);
    NoneRejectedExactly(lib, baseUrl, again.guid, Successes(eps));
    ShownIsPermuted(episodes, AcceptedOf(lib, feed.items, again.guid));
    if forall e :: e in Successes(eps) ==> CanComeBack(e) {
      ShownComesBack(lib, baseUrl, again.guid, Successes(eps));
    } else {
      var e :| e in Successes(eps) && !CanComeBack(e);
      if multiset(AllShown(episodes)) == multiset(AllShown(Successes(eps))) {
        ShownNeedsBounds(lib, feed.items, again.guid, Successes(eps), e);
      }
    }
    CategoriesRoundTrip(pod.categories);
  }
}
