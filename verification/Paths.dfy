/** Object names: pkg/util/url.go (SanitiseGUID) and pkg/podcasts/mime.go. A string stands for the
    bytes of a Go string, one character per byte. */
module Paths {
  import opened Queue

  predicate InAlphabet(c: char) {
    'a' <= c <= 'z' || 'A' <= c <= 'Z' || '0' <= c <= '9' || c == '=' || c == '_' || c == '-'
  }

  ghost predicate Clean(s: string) {
    forall c :: c in s ==> InAlphabet(c)
  }

  /** Replaces each maximal run of characters outside the alphabet by one '-'. */
  function SanitiseRest(s: string, inRun: bool): (r: string)
    ensures Clean(r)
  {
    if s == "" then ""
    else if InAlphabet(s[0]) then [s[0]] + SanitiseRest(s[1..], false)
    else (if inRun then "" else "-") + SanitiseRest(s[1..], true)
  }

  function SanitiseGUID(guid: string): (r: string)
    ensures Clean(r)
  {
    SanitiseRest(guid, false)
  }

  lemma {:induction false} CleanIsKept(s: string)
    requires Clean(s)
    ensures SanitiseRest(s, false) == s
  {
    if s != "" {
      assert s[0] in s && forall c :: c in s[1..] ==> c in s;
      CleanIsKept(s[1..]);
    }
  }

  /** The class [a-zA-Z0-9=_-] by its code points. */
  ghost predicate InClass(code: int) {
    || 97 <= code <= 122 || 65 <= code <= 90 || 48 <= code <= 57
    || code == 61 || code == 95 || code == 45
  }

  lemma AlphabetIsClass(c: char)
    ensures InAlphabet(c) <==> InClass(c as int)
  {
  }

  /** Exactly the strings over the class are left as they are, and only those come out. */
  lemma SanitiseIdentity(guid: string)
    ensures SanitiseGUID(guid) == guid <==> forall c :: c in guid ==> InClass(c as int)
    ensures forall c :: c in SanitiseGUID(guid) ==> InClass(c as int)
  {
    assert Clean(guid) <==> forall c :: c in guid ==> InClass(c as int);
    if Clean(guid) {
      CleanIsKept(guid);
    }
  }

  /** Written with hexadecimal digits and '-', as UUIDs are. */
  ghost predicate IsUuidText(s: string) {
    forall c :: c in s ==> c in "0123456789abcdef-"
  }

  /** UUIDs are left as they are. */
  lemma UuidIsKept(uuid: string)
    requires IsUuidText(uuid)
    ensures Clean(uuid) && SanitiseGUID(uuid) == uuid
  {
    forall c | c in uuid
      ensures InAlphabet(c)
    {
      assert c in "0123456789abcdef-";
    }
    CleanIsKept(uuid);
  }

  ghost predicate Outside(s: string) {
    forall c :: c in s ==> !InAlphabet(c)
  }

  /** What comes before a character of the alphabet, or before the start of a run, is sanitised alone. */
  lemma {:induction false} RestOfSum(a: string, b: string, inRun: bool)
    requires a != "" && InAlphabet(a[|a| - 1])
    ensures SanitiseRest(a + b, inRun) == SanitiseRest(a, inRun) + SanitiseRest(b, false)
  {
    assert (a + b)[1..] == a[1..] + b;
    if |a| == 1 {
      assert a[1..] + b == b;
    } else {
      RestOfSum(a[1..], b, !InAlphabet(a[0]));
    }
  }

  lemma {:induction false} RestOfRun(run: string, b: string)
    requires Outside(run) && (b == "" || InAlphabet(b[0]))
    ensures SanitiseRest(run + b, true) == SanitiseRest(b, false)
  {
    if run == "" {
      assert run + b == b;
    } else {
      assert run[0] in run && forall c :: c in run[1..] ==> c in run;
      assert (run + b)[1..] == run[1..] + b;
      RestOfRun(run[1..], b);
    }
  }

  /** A maximal run of characters outside the alphabet becomes one '-', whatever is around it. */
  lemma SanitiseRuns(a: string, run: string, b: string)
    requires run != "" && Outside(run)
    requires (a == "" || InAlphabet(a[|a| - 1])) && (b == "" || InAlphabet(b[0]))
    ensures SanitiseGUID(a + run + b) == SanitiseGUID(a) + "-" + SanitiseGUID(b)
    ensures Clean(SanitiseGUID(a + run + b))
  {
    assert run[0] in run && forall c :: c in run[1..] ==> c in run;
    assert (run + b)[1..] == run[1..] + b;
    RestOfRun(run[1..], b);
    assert a + run + b == a + (run + b);
    if a == "" {
      assert a + (run + b) == run + b;
    } else {
      RestOfSum(a, run + b, false);
    }
  }

  lemma SanitiseIdempotent(guid: string)
    ensures SanitiseGUID(SanitiseGUID(guid)) == SanitiseGUID(guid)
  {
    CleanIsKept(SanitiseGUID(guid));
  }

  lemma {:induction false} SanitiseNonEmpty(s: string)
    ensures SanitiseGUID(s) == "" <==> s == ""
  {
  }

  // ---- MIME types ----

  function MimeToExt(mime: string): Option<string> {
    if mime == "audio/mpeg" then Some("mp3")
    else if mime == "audio/x-m4a" then Some("m4a")
    else if mime == "video/mp4" then Some("mp4")
    else if mime == "video/quicktime" then Some("mov")
    else None
  }

  function ExtToMime(ext: string): Option<string> {
    if ext == "mp3" then Some("audio/mpeg")
    else if ext == "m4a" then Some("audio/x-m4a")
    else if ext == "mp4" then Some("video/mp4")
    else if ext == "mov" then Some("video/quicktime")
    else None
  }

  /** The last of the parts that a split at dots gives: all of it when there is no dot. */
  function LastPart(s: string): (r: string)
    ensures '.' !in r
    ensures |r| <= |s| && s[|s| - |r|..] == r
    ensures |r| < |s| ==> s[|s| - |r| - 1] == '.'
  {
    if s == "" then "" else
    var n := |s| - 1;
    if s[n] == '.' then "" else LastPart(s[..n]) + [s[n]]
  }

  /** The declared type when it is a supported one, otherwise what the URL's extension says. */
  function DetectMIMEType(declaredType: string, url: string): (r: Option<string>)
    ensures MimeToExt(declaredType).Some? ==> r == Some(declaredType)
    ensures r.Some? ==> MimeToExt(r.value).Some?
    ensures MimeToExt(declaredType).None? && r.Some? ==> MimeToExt(r.value) == Some(LastPart(url))
    ensures r.None? <==> MimeToExt(declaredType).None? && ExtToMime(LastPart(url)).None?
  {
    if MimeToExt(declaredType).Some? then Some(declaredType) else ExtToMime(LastPart(url))
  }

  /** The supported types and their extensions. */
  lemma SupportedTypes(mime: string)
    ensures MimeToExt(mime).Some? <==> mime in {"audio/mpeg", "audio/x-m4a", "video/mp4", "video/quicktime"}
    ensures MimeToExt("audio/mpeg") == Some("mp3") && MimeToExt("audio/x-m4a") == Some("m4a")
    ensures MimeToExt("video/mp4") == Some("mp4") && MimeToExt("video/quicktime") == Some("mov")
  {
    assert "audio/mpeg"[6] != "audio/x-m4a"[6] && "video/mp4"[6] != "video/quicktime"[6];
    assert "audio/mpeg"[0] != "video/mp4"[0] && "audio/mpeg"[0] != "video/quicktime"[0];
    assert "audio/x-m4a"[0] != "video/mp4"[0] && "audio/x-m4a"[0] != "video/quicktime"[0];
  }

  /** The two tables are inverse to each other, so no two supported types share an extension. */
  lemma TablesAreInverse(mime: string, ext: string)
    ensures MimeToExt(mime) == Some(ext) <==> ExtToMime(ext) == Some(mime)
  {
  }

  // ---- object paths ----

  /** path.Join of a sanitised directory and a file name: an empty element is left out. */
  function Join(dir: string, file: string): string {
    if dir == "" then file else dir + "/" + file
  }

  /** Where the download worker writes an episode, and where the download handler reads it. */
  function EpisodePath(podcastGuid: string, guid: string, extension: string): string {
    Join(SanitiseGUID(podcastGuid), SanitiseGUID(guid) + "." + extension)
  }

  /** Where a podcast's image is stored. */
  function ImagePath(podcastGuid: string): string {
    Join(SanitiseGUID(podcastGuid), SanitiseGUID(podcastGuid) + ".jpg")
  }

  lemma SplitAtFirst(a: string, b: string, a': string, b': string, c: char)
    requires a + [c] + b == a' + [c] + b' && c !in a && c !in a'
    ensures a == a' && b == b'
  {
    var whole := a + [c] + b;
    assert whole == a' + [c] + b';
    assert whole[|a|] == c && whole[|a'|] == c;
    assert forall i :: 0 <= i < |a| ==> whole[i] == a[i] && a[i] in a;
    assert forall i :: 0 <= i < |a'| ==> whole[i] == a'[i] && a'[i] in a';
    assert a == whole[..|a|] && b == whole[|a| + 1..];
    assert a' == whole[..|a'|] && b' == whole[|a'| + 1..];
  }

  /** A path with a directory is no bare file name: its first separator comes before any dot. */
  lemma DirectoryShows(dir: string, file: string, name: string, ext: string)
    requires Clean(dir) && Clean(name)
    ensures dir + "/" + file != name + "." + ext
  {
    var a, b := dir + "/" + file, name + "." + ext;
    assert a[|dir|] == '/' && b[|name|] == '.';
    assert |name| < |dir| ==> a[|name|] in dir;
    assert |dir| < |name| ==> b[|dir|] in name;
  }

  /** Equal paths come from equal sanitised names and equal extensions. */
  lemma PathParts(podcast: string, name: string, ext: string, podcast': string, name': string, ext': string)
    requires Clean(podcast) && Clean(name) && Clean(podcast') && Clean(name')
    requires Join(podcast, name + "." + ext) == Join(podcast', name' + "." + ext')
    ensures podcast == podcast' && name == name' && ext == ext'
  {
    if podcast != "" && podcast' == "" {
      DirectoryShows(podcast, name + "." + ext, name', ext');
    } else if podcast == "" && podcast' != "" {
      DirectoryShows(podcast', name' + "." + ext', name, ext);
    } else if podcast != "" {
      SplitAtFirst(podcast, name + "." + ext, podcast', name' + "." + ext', '/');
    }
    SplitAtFirst(name, ext, name', ext', '.');
  }

  /** The file of a parser-made episode is named by its key and extension, in its podcast's directory,
      and so is the podcast's image. */
  lemma PathsAre(podcast: string, guid: string, ext: string)
    requires podcast != "" && Clean(podcast) && Clean(guid)
    ensures EpisodePath(podcast, guid, ext) == podcast + "/" + guid + "." + ext
    ensures ImagePath(podcast) == podcast + "/" + podcast + ".jpg"
  {
    CleanIsKept(podcast);
    CleanIsKept(guid);
  }

  /** Episodes whose GUIDs use only the alphabet, as the parser's UUIDs do, share a path exactly when
      they are the same episode of the same podcast with the same extension. */
  lemma EpisodePathsDistinct(podcast: string, guid: string, ext: string, podcast': string, guid': string, ext': string)
    requires Clean(podcast) && Clean(guid) && Clean(podcast') && Clean(guid')
    ensures EpisodePath(podcast, guid, ext) == EpisodePath(podcast', guid', ext')
       <==> podcast == podcast' && guid == guid' && ext == ext'
  {
    CleanIsKept(podcast);
    CleanIsKept(guid);
    CleanIsKept(podcast');
    CleanIsKept(guid');
    if EpisodePath(podcast, guid, ext) == EpisodePath(podcast', guid', ext') {
      PathParts(podcast, guid, ext, podcast', guid', ext');
    }
  }

  /** So are episodes of the parser, whose keys and whose podcasts' keys are UUIDs. */
  lemma ParsedPathsDistinct(podcast: string, guid: string, ext: string, podcast': string, guid': string, ext': string)
    requires IsUuidText(podcast) && IsUuidText(guid) && IsUuidText(podcast') && IsUuidText(guid')
    ensures EpisodePath(podcast, guid, ext) == EpisodePath(podcast', guid', ext')
       <==> podcast == podcast' && guid == guid' && ext == ext'
  {
    UuidIsKept(podcast);
    UuidIsKept(guid);
    UuidIsKept(podcast');
    UuidIsKept(guid');
    EpisodePathsDistinct(podcast, guid, ext, podcast', guid', ext');
  }

  /** No episode of a supported type is stored where an image is. */
  lemma ImagePathsApart(podcast: string, guid: string, mime: string, podcast': string)
    requires MimeToExt(mime).Some?
    ensures EpisodePath(podcast, guid, MimeToExt(mime).value) != ImagePath(podcast')
  {
    if EpisodePath(podcast, guid, MimeToExt(mime).value) == ImagePath(podcast') {
      var ext := MimeToExt(mime).value;
      assert SanitiseGUID(podcast') + ".jpg" == SanitiseGUID(podcast') + "." + "jpg";
      PathParts(SanitiseGUID(podcast), SanitiseGUID(guid), ext, SanitiseGUID(podcast'), SanitiseGUID(podcast'), "jpg");
      assert false;
    }
  }
}
