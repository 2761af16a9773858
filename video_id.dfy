/** `get_video_id`: the YouTube video id carried by an already-split URL.
    The split itself (`urllib.parse.urlparse`) is not modelled; its result
    arrives as a `ParsedUrl` whose hostname is already lower-cased and
    stripped of port and user information, as `urlparse(...).hostname` is. */
module VideoId {
  import opened Wrappers
  import opened Strings
  import opened Query

  /** The components of `urlparse(url)` that `get_video_id` reads; the
      query is the raw text after `?`. */
  datatype ParsedUrl = ParsedUrl(hostname: Option<string>, path: string, query: string)

  /** What `get_video_id` did: returned an id, fell through to `return None`,
      or raised inside its `try` (which also returns None, after showing an
      error). */
  datatype Extraction = Found(id: string) | NoMatch | Raised

  const ShortLinkHost := "youtu.be"
  const WatchPath := "/watch"
  const EmbedPrefix := "/embed/"
  const LegacyPrefix := "/v/"

  predicate IsWatchHost(h: Option<string>)
  {
    h == Some("www.youtube.com") || h == Some("youtube.com")
  }

  /** `seg` is the text of `rest` up to its first `/`, exclusive. */
  ghost predicate IsFirstSegment(rest: string, seg: string)
  {
    seg <= rest && '/' !in seg && (|seg| == |rest| || rest[|seg|] == '/')
  }

  /** At most one string is the first segment of a given text. */
  lemma FirstSegmentUnique(rest: string, a: string, b: string)
    requires IsFirstSegment(rest, a) && IsFirstSegment(rest, b)
    ensures a == b
  {
  }

  /** A path `/name/rest` splits on `/` into `""`, `name`, then the pieces
      of `rest`; so `split('/')[2]` always exists and is the first segment
      of `rest`. */
  lemma SplitUnderPrefix(path: string, name: string)
    requires '/' !in name
    requires "/" + name + "/" <= path
    ensures var parts, rest := Split(path, '/'), path[|name| + 2..];
      |parts| > 2 && parts[2..] == Split(rest, '/') && IsFirstSegment(rest, parts[2])
  {
    var rest := path[|name| + 2..];
    var tail := name + "/" + rest;
    assert path == "" + ['/'] + tail;
    SplitAfterPiece("", tail, '/');
    assert tail == name + ['/'] + rest;
    SplitAfterPiece(name, rest, '/');
    assert Split(path, '/') == ["", name] + Split(rest, '/');
    SplitHead(rest, '/');
  }

  /** `get_video_id` on a URL that `urlparse` accepted, branch for branch
      in the source's order. What each branch returns is stated by the
      lemmas below; the accepted shapes are disjoint, so the order does not
      change the outcome (`ShapesDisjoint`). */
  function IdFromParts(u: ParsedUrl): (r: Extraction)
    ensures r.Found? ==> u.hostname == Some(ShortLinkHost) || IsWatchHost(u.hostname)
    ensures r.Raised? ==> IsWatchHost(u.hostname) && u.path == WatchPath
  {
    if u.hostname == Some(ShortLinkHost) then
      Found(Drop(u.path, 1))
    else if IsWatchHost(u.hostname) then
      if u.path == WatchPath then
        match QueryValue(u.query, "v")
        case Some(v) => Found(v)
        case None => Raised
      else if Take(u.path, 7) == EmbedPrefix then
        SplitUnderPrefix(u.path, "embed");
        Found(Split(u.path, '/')[2])
      else if Take(u.path, 3) == LegacyPrefix then
        SplitUnderPrefix(u.path, "v");
        Found(Split(u.path, '/')[2])
      else
        NoMatch
    else
      NoMatch
  }

  /** Short link: the path without its first character; `/` alone (or an
      empty path) gives the empty id. */
  lemma ShortLinkId(u: ParsedUrl)
    requires u.hostname == Some(ShortLinkHost)
    ensures var r := IdFromParts(u);
      r.Found? && (u.path == [] ==> r.id == []) && (u.path != [] ==> u.path == [u.path[0]] + r.id)
  {
  }

  /** Watch page: exactly `/watch` gives the first non-blank `v` of the
      query, and a query without one raises. */
  lemma WatchId(u: ParsedUrl)
    requires IsWatchHost(u.hostname) && u.path == WatchPath
    ensures var r, v := IdFromParts(u), QueryValue(u.query, "v");
      (v.Some? ==> r == Found(v.value)) && (v.None? ==> r == Raised)
  {
  }

  /** Embed path: the segment that follows `/embed/`. */
  lemma EmbedId(u: ParsedUrl)
    requires IsWatchHost(u.hostname) && EmbedPrefix <= u.path
    ensures var r := IdFromParts(u);
      r.Found? && IsFirstSegment(u.path[|EmbedPrefix|..], r.id)
  {
    WatchPathUnprefixed();
    TakeIsPrefix(u.path, EmbedPrefix);
    SplitUnderPrefix(u.path, "embed");
  }

  /** Legacy path: the segment that follows `/v/`. */
  lemma LegacyId(u: ParsedUrl)
    requires IsWatchHost(u.hostname) && LegacyPrefix <= u.path
    ensures var r := IdFromParts(u);
      r.Found? && IsFirstSegment(u.path[|LegacyPrefix|..], r.id)
  {
    WatchPathUnprefixed();
    ShapesDisjoint(u);
    TakeIsPrefix(u.path, EmbedPrefix);
    TakeIsPrefix(u.path, LegacyPrefix);
    SplitUnderPrefix(u.path, "v");
  }

  /** Everything else falls through to `return None` without raising: a
      host other than the three, or a watch host with another path shape
      (`/watch/` included). */
  lemma UnrecognisedUrl(u: ParsedUrl)
    requires || (u.hostname != Some(ShortLinkHost) && !IsWatchHost(u.hostname))
             || (IsWatchHost(u.hostname) && u.path != WatchPath &&
                 !(EmbedPrefix <= u.path) && !(LegacyPrefix <= u.path))
    ensures IdFromParts(u) == NoMatch
  {
  }

  lemma WatchPathUnprefixed()
    ensures !(EmbedPrefix <= WatchPath) && !(LegacyPrefix <= WatchPath)
  {
    assert WatchPath[1] == 'w';
  }

  /** The three YouTube path shapes exclude one another, and the short-link
      host is not a watch host. */
  lemma ShapesDisjoint(u: ParsedUrl)
    ensures !(u.hostname == Some(ShortLinkHost) && IsWatchHost(u.hostname))
    ensures u.path == WatchPath ==> !(EmbedPrefix <= u.path) && !(LegacyPrefix <= u.path)
    ensures !(EmbedPrefix <= u.path && LegacyPrefix <= u.path)
  {
    WatchPathUnprefixed();
    assert EmbedPrefix <= u.path ==> u.path[1] == 'e';
    assert LegacyPrefix <= u.path ==> u.path[1] == 'v';
  }

  /** Round trip for short links: `youtu.be/<id>` gives back `<id>`. */
  lemma ShortLinkRoundTrip(id: string, query: string)
    ensures IdFromParts(ParsedUrl(Some(ShortLinkHost), "/" + id, query)) == Found(id)
  {
  }

  /** Round trip for watch pages: `v=<id>` as the first field of the query
      gives back `<id>`, whatever fields follow. */
  lemma WatchRoundTrip(host: Option<string>, id: string, tail: string)
    requires IsWatchHost(host)
    requires id != [] && '&' !in id
    requires tail == [] || tail[0] == '&'
    ensures IdFromParts(ParsedUrl(host, WatchPath, "v=" + id + tail)) == Found(id)
  {
    LeadingField("v", id, tail);
    assert "v" + "=" + id + tail == "v=" + id + tail;
    WatchId(ParsedUrl(host, WatchPath, "v=" + id + tail));
  }

  /** Round trip for embed links: `/embed/<id>` followed by nothing or by a
      further `/...` gives back `<id>`. */
  lemma EmbedRoundTrip(host: Option<string>, id: string, tail: string, query: string)
    requires IsWatchHost(host)
    requires '/' !in id
    requires tail == [] || tail[0] == '/'
    ensures IdFromParts(ParsedUrl(host, EmbedPrefix + id + tail, query)) == Found(id)
  {
    var path := EmbedPrefix + id + tail;
    assert EmbedPrefix <= path;
    assert path[|EmbedPrefix|..] == id + tail;
    var r := IdFromParts(ParsedUrl(host, path, query));
    EmbedId(ParsedUrl(host, path, query));
    FirstSegmentUnique(id + tail, r.id, id);
  }

  /** Round trip for legacy links: `/v/<id>` followed by nothing or by a
      further `/...` gives back `<id>`. */
  lemma LegacyRoundTrip(host: Option<string>, id: string, tail: string, query: string)
    requires IsWatchHost(host)
    requires '/' !in id
    requires tail == [] || tail[0] == '/'
    ensures IdFromParts(ParsedUrl(host, LegacyPrefix + id + tail, query)) == Found(id)
  {
    var path := LegacyPrefix + id + tail;
    assert LegacyPrefix <= path;
    assert path[|LegacyPrefix|..] == id + tail;
    var r := IdFromParts(ParsedUrl(host, path, query));
    LegacyId(ParsedUrl(host, path, query));
    FirstSegmentUnique(id + tail, r.id, id);
  }

  /** A watch page whose query has no `v` field raises inside the `try`
      instead of returning an id. */
  lemma WatchWithoutV(host: Option<string>, query: string)
    requires IsWatchHost(host)
    requires forall i :: 0 <= i < |Split(query, '&')| ==> !BindsKey(Split(query, '&')[i], "v")
    ensures IdFromParts(ParsedUrl(host, WatchPath, query)) == Raised
  {
    QueryValueSpec(query, "v");
    WatchId(ParsedUrl(host, WatchPath, query));
  }

  /** `get_video_id(url)`: `parse` stands for `urlparse`, None meaning that
      it raised (which the `try` also catches). The `except` branch runs
      exactly when `urlparse` raises or a `/watch` URL on a watch host has
      no field binding `v`. */
  function ExtractId(url: string, parse: string -> Option<ParsedUrl>): (r: Extraction)
    ensures r.Raised? <==>
      || parse(url).None?
      || (&& IsWatchHost(parse(url).value.hostname)
          && parse(url).value.path == WatchPath
          && var fields := Split(parse(url).value.query, '&');
             forall i :: 0 <= i < |fields| ==> !BindsKey(fields[i], "v"))
  {
    match parse(url)
    case None => Raised
    case Some(u) =>
      QueryValueSpec(u.query, "v");
      if IsWatchHost(u.hostname) && u.path == WatchPath then
        WatchId(u);
        IdFromParts(u)
      else
        IdFromParts(u)
  }
}

/** `get_video_id` on the `urlparse` components of some typical URLs. */
module VideoIdExamples {
  import opened Wrappers
  import opened VideoId

  lemma ShortLinkExample()
    ensures IdFromParts(ParsedUrl(Some("youtu.be"), "/ABC123", "")) == Found("ABC123")
  {
  }

  lemma WatchExample()
    ensures IdFromParts(ParsedUrl(Some("www.youtube.com"), "/watch", "v=ABC123")) == Found("ABC123")
  {
    var id := "ABC123";
    assert '&' !in id;
    assert "v=" + id + "" == "v=ABC123";
    WatchRoundTrip(Some("www.youtube.com"), id, "");
  }

  lemma WatchWithMoreFieldsExample()
    ensures IdFromParts(ParsedUrl(Some("youtube.com"), "/watch", "v=ABC123&t=42s")) == Found("ABC123")
  {
    var id, tail := "ABC123", "&t=42s";
    assert '&' !in id;
    assert "v=" + id + tail == "v=ABC123&t=42s";
    WatchRoundTrip(Some("youtube.com"), id, tail);
  }

  lemma EmbedExample()
    ensures IdFromParts(ParsedUrl(Some("www.youtube.com"), "/embed/ABC123", "")) == Found("ABC123")
  {
    var id := "ABC123";
    assert '/' !in id;
    assert EmbedPrefix + id + "" == "/embed/ABC123";
    EmbedRoundTrip(Some("www.youtube.com"), id, "", "");
  }

  /** `urlparse("not a url")` has no host and the whole text as its path. */
  lemma NotAUrlExample()
    ensures IdFromParts(ParsedUrl(None, "not a url", "")) == NoMatch
  {
  }
}
