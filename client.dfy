/** The `Anidb` client of `anidb/__init__.py`: the title-index search, the freshness
    rule for re-downloading the index, `anime(aid)`, and the two rate-limited
    adapters its session mounts. Files, the network and the clock are parameters. */
module Client {
  import opened Builtins
  import opened Xml
  import opened Lists
  import Helper
  import Models

  const CLIENT_NAME := "anidbpy"
  /** `__version_code__`, sent as `clientver`. */
  const CLIENT_VERSION := 100
  const DEFAULT_LANGUAGE := "en"
  /** Seconds between two requests on one adapter. */
  const DEFAULT_RATE_LIMIT := 2
  /** `timedelta(1)`, the age after which the index is downloaded again. */
  const ONE_DAY := 86400
  const INDEX_FILE_NAME := "anime-titles.xml.gz"

  /** `os.path.join(dir, name)` for a relative `name`. */
  function JoinPath(dir: string, name: string): (r: string)
    ensures |r| >= |name| && r[|r| - |name|..] == name
    ensures dir == [] || dir[|dir| - 1] == '/' ==> r == dir + name
    ensures dir != [] && dir[|dir| - 1] != '/' ==> r == dir + "/" + name
  {
    if dir == [] || dir[|dir| - 1] == '/' then dir + name else dir + "/" + name
  }

  // ---------------------------------------------------------------------------
  // Freshness of the index file

  /** `download_anime_list` returns False without downloading: not forced, the file
      exists, and it was modified less than a day before `now`. */
  predicate SkipDownload(force: bool, fileExists: bool, mtime: int, now: int)
  {
    !force && fileExists && mtime + ONE_DAY > now
  }

  lemma ForceAlwaysDownloads(fileExists: bool, mtime: int, now: int)
    ensures !SkipDownload(true, fileExists, mtime, now)
  {
  }

  lemma MissingFileAlwaysDownloads(force: bool, mtime: int, now: int)
    ensures !SkipDownload(force, false, mtime, now)
  {
  }

  /** A file modified at `t` is kept exactly while less than a day has passed since `t`,
      including when its mtime lies ahead of the clock. */
  lemma FreshForOneDay(t: int, now: int)
    ensures SkipDownload(false, true, t, now) <==> now < t + ONE_DAY
  {
  }

  lemma FreshnessExamples()
    ensures SkipDownload(false, true, 0, 23 * 3600)
    ensures !SkipDownload(false, true, 0, 25 * 3600)
    ensures !SkipDownload(false, true, 0, ONE_DAY)
  {
  }

  // ---------------------------------------------------------------------------
  // The index scan of `search`

  /** `term in title.text.lower()`; None when `title.text` is None (AttributeError). */
  predicate Hit(title: Node, needle: string)
  {
    title.text.Some? && Contains(Lower(title.text.value), needle)
  }

  /** The inner loop over one anime's titles: true at the first title containing the
      needle; a title without text before that raises AttributeError. */
  function TitlesMatch(titles: seq<Node>, needle: string): Result<bool>
  {
    if titles == [] then Success(false)
    else if titles[0].text.None? then Failure(AttributeError)
    else if Contains(Lower(titles[0].text.value), needle) then Success(true)
    else TitlesMatch(titles[1..], needle)
  }

  /** The inner loop finds a match exactly when some title contains the needle and
      every title before it has text; it finishes without one exactly when every
      title has text and none contains the needle. */
  lemma {:induction false} TitlesMatchMeaning(titles: seq<Node>, needle: string)
    ensures TitlesMatch(titles, needle) == Success(true) <==>
              exists j :: 0 <= j < |titles| && Hit(titles[j], needle) && forall k :: 0 <= k < j ==> titles[k].text.Some?
    ensures TitlesMatch(titles, needle) == Success(false) <==>
              forall j :: 0 <= j < |titles| ==> titles[j].text.Some? && !Hit(titles[j], needle)
    ensures TitlesMatch(titles, needle).Failure? ==> TitlesMatch(titles, needle).error == AttributeError
  {
    if titles != [] {
      TitlesMatchMeaning(titles[1..], needle);
      assert forall j :: 1 <= j < |titles| ==> titles[j] == titles[1..][j - 1];
      if TitlesMatch(titles[1..], needle) == Success(true) && titles[0].text.Some? && !Hit(titles[0], needle) {
        var j :| 0 <= j < |titles[1..]| && Hit(titles[1..][j], needle) && forall k :: 0 <= k < j ==> titles[1..][k].text.Some?;
        assert Hit(titles[j + 1], needle) && forall k :: 0 <= k < j + 1 ==> titles[k].text.Some?;
      }
    }
  }

  /** An anime node the scan keeps. */
  predicate Matches(anime: Node, needle: string)
  {
    TitlesMatch(FindAll(anime, "title"), needle) == Success(true)
  }

  /** `Matches` as the predicate of a list comprehension. */
  function Matcher(needle: string): Node -> bool
  {
    (a: Node) => Matches(a, needle)
  }

  /** One anime node of the outer loop: skipped, kept with `int(anime.get("aid"))`,
      or the exception raised on the way. */
  function Entry(anime: Node, needle: string): Result<Option<(int, Node)>>
  {
    match TitlesMatch(FindAll(anime, "title"), needle)
    case Failure(e) => Failure(e)
    case Success(false) => Success(None)
    case Success(true) =>
      match ParseOptionalInt(Get(anime, "aid"))
      case Failure(e) => Failure(e)
      case Success(aid) => Success(Some((aid, anime)))
  }

  /** `anime_ids` after the outer loop has visited `animes`, or the exception that
      stopped it. */
  function Scan(animes: seq<Node>, needle: string): Result<seq<(int, Node)>>
  {
    if animes == [] then Success([])
    else
      match Scan(animes[..|animes| - 1], needle)
      case Failure(e) => Failure(e)
      case Success(found) =>
        match Entry(animes[|animes| - 1], needle)
        case Failure(e) => Failure(e)
        case Success(None) => Success(found)
        case Success(Some(p)) => Success(found + [p])
  }

  function Nodes(entries: seq<(int, Node)>): (r: seq<Node>)
    ensures |r| == |entries| && forall k :: 0 <= k < |entries| ==> r[k] == entries[k].1
  {
    seq(|entries|, k requires 0 <= k < |entries| => entries[k].1)
  }

  /** A completed scan keeps exactly the matching anime nodes, each once and in index
      order. */
  lemma {:induction false} ScanKeepsMatches(animes: seq<Node>, needle: string)
    requires Scan(animes, needle).Success?
    ensures Nodes(Scan(animes, needle).value) == Filter(animes, Matcher(needle))
  {
    if animes != [] {
      var init := animes[..|animes| - 1];
      var last := animes[|animes| - 1];
      assert animes == init + [last];
      var p := Matcher(needle);
      ScanKeepsMatches(init, needle);
      FilterSnoc(init, last, p);
      var found := Scan(init, needle).value;
      if p(last) {
        var p1 := Entry(last, needle).value.value;
        assert Scan(animes, needle).value == found + [p1];
        NodesSnoc(found, p1);
      } else {
        assert Scan(animes, needle).value == found;
      }
    }
  }

  lemma NodesSnoc(entries: seq<(int, Node)>, e: (int, Node))
    ensures Nodes(entries + [e]) == Nodes(entries) + [e.1]
  {
  }

  /** Every kept node is paired with the value of its `aid` attribute. */
  lemma {:induction false} ScanPairsAid(animes: seq<Node>, needle: string)
    requires Scan(animes, needle).Success?
    ensures var found := Scan(animes, needle).value;
            forall k :: 0 <= k < |found| ==> ParseOptionalInt(Get(found[k].1, "aid")) == Success(found[k].0)
  {
    if animes != [] {
      var init := animes[..|animes| - 1];
      ScanPairsAid(init, needle);
    }
  }

  /** The scan stops at the first anime node whose inner loop or `aid` raises. */
  lemma {:induction false} ScanFailsAtFirstError(animes: seq<Node>, needle: string)
    ensures Scan(animes, needle).Failure? <==> exists i :: 0 <= i < |animes| && Entry(animes[i], needle).Failure?
  {
    if animes != [] {
      var init := animes[..|animes| - 1];
      ScanFailsAtFirstError(init, needle);
      assert forall i :: 0 <= i < |init| ==> init[i] == animes[i];
    }
  }

  /** Once an exception has stopped the scan, the later anime nodes do not matter. */
  lemma {:induction false} ScanStopsAtError(animes: seq<Node>, n: nat, needle: string)
    requires n <= |animes| && Scan(animes[..n], needle).Failure?
    ensures Scan(animes, needle) == Scan(animes[..n], needle)
    decreases |animes|
  {
    if n < |animes| {
      var init := animes[..|animes| - 1];
      assert init[..n] == animes[..n];
      ScanStopsAtError(init, n, needle);
    } else {
      assert animes[..n] == animes;
    }
  }

  /** One more anime node extends the scan of a prefix by that node's entry. */
  lemma ScanStep(animes: seq<Node>, i: nat, needle: string)
    requires i < |animes|
    ensures Scan(animes[..i + 1], needle) ==
              match Scan(animes[..i], needle)
              case Failure(e) => Failure(e)
              case Success(found) =>
                match Entry(animes[i], needle)
                case Failure(e) => Failure(e)
                case Success(None) => Success(found)
                case Success(Some(p)) => Success(found + [p])
  {
    assert animes[..i + 1][..i] == animes[..i];
  }

  /** The inner loop of `search`: stop at the first title containing the needle. */
  method MatchTitles(titles: seq<Node>, needle: string) returns (r: Result<bool>)
    ensures r == TitlesMatch(titles, needle)
  {
    var matched := false;
    var j := 0;
    while j < |titles|
      invariant 0 <= j <= |titles|
      invariant TitlesMatch(titles, needle) == TitlesMatch(titles[j..], needle)
    {
      assert titles[j..][1..] == titles[j + 1..];
      if titles[j].text.None? {
        return Failure(AttributeError);
      }
      if Contains(Lower(titles[j].text.value), needle) {
        matched := true;
        break;
      }
      j := j + 1;
    }
    return Success(matched);
  }

  /** The body of the outer loop of `search` for one anime node. */
  method ScanEntry(anime: Node, needle: string) returns (r: Result<Option<(int, Node)>>)
    ensures r == Entry(anime, needle)
  {
    var matched := MatchTitles(FindAll(anime, "title"), needle);
    if matched.Failure? {
      return Failure(matched.error);
    }
    if !matched.value {
      return Success(None);
    }
    var aid := ParseOptionalInt(Get(anime, "aid"));
    if aid.Failure? {
      return Failure(aid.error);
    }
    return Success(Some((aid.value, anime)));
  }

  /** The outer loop of `search`: every anime node in index order, keeping those whose
      titles match, paired with `int(anime.get("aid"))`. */
  method ScanIndex(root: Node, term: string) returns (r: Result<seq<(int, Node)>>)
    ensures r == Scan(FindAll(root, "anime"), Lower(term))
  {
    var needle := Lower(term);
    var animes := FindAll(root, "anime");
    var found: seq<(int, Node)> := [];
    var i := 0;
    while i < |animes|
      invariant 0 <= i <= |animes|
      invariant Scan(animes[..i], needle) == Success(found)
    {
      ScanStep(animes, i, needle);
      var entry := ScanEntry(animes[i], needle);
      if entry.Failure? {
        assert Scan(animes[..i + 1], needle) == Failure(entry.error);
        ScanStopsAtError(animes, i + 1, needle);
        return Failure(entry.error);
      }
      if entry.value.Some? {
        found := found + [entry.value.value];
      }
      i := i + 1;
    }
    assert animes[..i] == animes;
    return Success(found);
  }

  // ---------------------------------------------------------------------------
  // The client object

  /** The index file on disk: its parsed content (or the error reading it) and mtime. */
  datatype FileEntry = FileEntry(content: Result<Node>, mtime: int)

  /** What `requests.get(ANIME_LIST_URL)` yields: a failure, or a body that parses
      (or does not) as the index. */
  datatype Remote = Unreachable(error: Error) | Served(content: Result<Node>)

  class Anidb {
    const autoDownload: bool
    const lang: string
    const rateLimit: int
    const indexPath: string
    /** `session.get` on the detail endpoint, the HTTP exchange and XML parse folded in. */
    const session: Models.Query -> Result<Node>
    /** The adapters mounted for `http://` and `https://`. */
    const httpAdapter: Helper.RateLimitedAdapter
    const httpsAdapter: Helper.RateLimitedAdapter
    /** `self._xml`, the cached index. */
    var xml: Option<Node>
    /** The file at `indexPath`, if any. */
    var indexFile: Option<FileEntry>

    ghost predicate Valid()
      reads this
    {
      httpAdapter != httpsAdapter && httpAdapter.rateLimit == rateLimit && httpsAdapter.rateLimit == rateLimit
    }

    constructor (autoDownload: bool, lang: string, rateLimit: int, cacheDir: string,
                 session: Models.Query -> Result<Node>, indexFile: Option<FileEntry>)
      ensures Valid()
      ensures this.autoDownload == autoDownload && this.lang == lang && this.rateLimit == rateLimit
      ensures this.session == session && this.indexFile == indexFile && xml.None?
      ensures indexPath == JoinPath(cacheDir, INDEX_FILE_NAME)
      ensures fresh(httpAdapter) && fresh(httpsAdapter)
      ensures httpAdapter.rateLimit == rateLimit && httpAdapter.lastRequestAt.None?
      ensures httpsAdapter.rateLimit == rateLimit && httpsAdapter.lastRequestAt.None?
    {
      this.autoDownload := autoDownload;
      this.lang := lang;
      this.rateLimit := rateLimit;
      this.session := session;
      xml := None;
      this.indexFile := indexFile;
      indexPath := JoinPath(cacheDir, INDEX_FILE_NAME);
      httpAdapter := new Helper.RateLimitedAdapter(rateLimit);
      httpsAdapter := new Helper.RateLimitedAdapter(rateLimit);
    }

    /** `Anidb()` with its default arguments: auto-download on, English titles, and a
        two-second rate limit. */
    constructor Default(cacheDir: string, session: Models.Query -> Result<Node>, indexFile: Option<FileEntry>)
      ensures Valid()
      ensures autoDownload && lang == DEFAULT_LANGUAGE && rateLimit == DEFAULT_RATE_LIMIT
      ensures this.session == session && this.indexFile == indexFile && xml.None?
      ensures indexPath == JoinPath(cacheDir, INDEX_FILE_NAME)
      ensures fresh(httpAdapter) && fresh(httpsAdapter)
      ensures httpAdapter.lastRequestAt.None? && httpsAdapter.lastRequestAt.None?
    {
      autoDownload := true;
      lang := DEFAULT_LANGUAGE;
      rateLimit := DEFAULT_RATE_LIMIT;
      this.session := session;
      xml := None;
      this.indexFile := indexFile;
      indexPath := JoinPath(cacheDir, INDEX_FILE_NAME);
      httpAdapter := new Helper.RateLimitedAdapter(DEFAULT_RATE_LIMIT);
      httpsAdapter := new Helper.RateLimitedAdapter(DEFAULT_RATE_LIMIT);
    }

    /** What an `Anime` reads through its back-reference to this client. */
    function Context(): Models.ClientContext
      reads this
    {
      Models.ClientContext(lang, CLIENT_NAME, CLIENT_VERSION, session)
    }

    /** `_read_file(self._anime_list_path)`: IOError when there is no file. */
    function ReadIndex(): Result<Node>
      reads this
    {
      match indexFile
      case None => Failure(IOError)
      case Some(f) => f.content
    }

    /** `download_anime_list(force)` at clock reading `now`: None for the `False`
        return, `Some(path)` for the path `download_file` returns. */
    method DownloadAnimeList(force: bool, now: int, remote: Remote) returns (r: Result<Option<string>>)
      modifies this
      ensures xml == old(xml)
      ensures SkipDownload(force, old(indexFile).Some?, if old(indexFile).Some? then old(indexFile).value.mtime else 0, now) ==>
                r == Success(None) && indexFile == old(indexFile)
      ensures !SkipDownload(force, old(indexFile).Some?, if old(indexFile).Some? then old(indexFile).value.mtime else 0, now) ==>
                match remote
                case Unreachable(e) => r == Failure(e) && indexFile == old(indexFile)
                case Served(content) => r == Success(Some(indexPath)) && indexFile == Some(FileEntry(content, now))
    {
      if !force && indexFile.Some? {
        if indexFile.value.mtime + ONE_DAY > now {
          return Success(None);
        }
      }
      match remote
      case Unreachable(e) =>
        return Failure(e);
      case Served(content) =>
        indexFile := Some(FileEntry(content, now));
        return Success(Some(indexPath));
    }

    /** `self._xml` once `search` has loaded it: read once, and on IOError with
        auto-download on, downloaded (not forced) and read again. */
    method LoadIndex(now: int, remote: Remote) returns (r: Result<Node>)
      modifies this
      ensures old(xml).Some? ==> r == Success(old(xml).value) && xml == old(xml) && indexFile == old(indexFile)
      ensures old(xml).None? && old(ReadIndex()) != Failure(IOError) ==>
                r == old(ReadIndex()) && indexFile == old(indexFile)
      ensures old(xml).None? && old(ReadIndex()) == Failure(IOError) && !autoDownload ==>
                r == Failure(IOError) && indexFile == old(indexFile) && xml.None?
      ensures old(xml).None? && old(ReadIndex()) == Failure(IOError) && autoDownload ==>
                var fileExists := old(indexFile).Some?;
                var mtime := if fileExists then old(indexFile).value.mtime else 0;
                if SkipDownload(false, fileExists, mtime, now) then
                  r == Failure(IOError) && indexFile == old(indexFile)
                else
                  match remote
                  case Unreachable(e) => r == Failure(e) && indexFile == old(indexFile)
                  case Served(content) => indexFile == Some(FileEntry(content, now)) && r == content
      ensures r.Success? ==> xml == Some(r.value)
      ensures r.Failure? ==> xml == old(xml)
    {
      if xml.Some? {
        return Success(xml.value);
      }
      var read := ReadIndex();
      if read.Failure? && read.error == IOError {
        if !autoDownload {
          return read;
        }
        var downloaded := DownloadAnimeList(false, now, remote);
        if downloaded.Failure? {
          return Failure(downloaded.error);
        }
        read := ReadIndex();
      }
      if read.Failure? {
        return read;
      }
      xml := Some(read.value);
      return read;
    }

    /** `search(term)`: the index scan, then an unloaded `Anime` seeded from each kept node. */
    method Search(term: string, now: int, remote: Remote) returns (r: Result<seq<Models.Anime>>)
      modifies this
      ensures old(xml).Some? ==> xml == old(xml) && indexFile == old(indexFile)
      ensures old(xml).None? && r.Success? ==>
                if old(ReadIndex()).Success? then
                  xml == Some(old(ReadIndex()).value) && indexFile == old(indexFile)
                else
                  && old(ReadIndex()) == Failure(IOError) && autoDownload
                  && remote.Served? && remote.content.Success?
                  && indexFile == Some(FileEntry(remote.content, now)) && xml == Some(remote.content.value)
      ensures r.Success? ==>
                && xml.Some?
                && var found := Scan(FindAll(xml.value, "anime"), Lower(term));
                && found.Success?
                && var seeds := Map(found.value, SeedOf);
                && |r.value| == |seeds|
                && forall k :: 0 <= k < |seeds| ==>
                     fresh(r.value[k]) && Seeded(r.value[k], Context(), found.value[k].0, seeds[k])
    {
      var index := LoadIndex(now, remote);
      if index.Failure? {
        return Failure(index.error);
      }
      var found := ScanIndex(index.value, term);
      if found.Failure? {
        return Failure(found.error);
      }
      r := SeedAll(Context(), found.value);
    }

    /** `anime(aid)`: built with `auto_load=True`, so a returned entity is loaded and
        holds the fill of the detail response. */
    method Anime(aid: int) returns (r: Result<Models.Anime>)
      ensures var response := session(Models.DetailQuery(Context(), aid));
              && (r.Success? <==> response.Success? && Models.Hydrate(Models.EMPTY_DETAIL, response.value).error.None?)
              && (r.Success? ==> fresh(r.value) && r.value.loaded && r.value.id == aid
                                 && r.value.Snapshot() == Models.Hydrate(Models.EMPTY_DETAIL, response.value).detail)
    {
      r := Models.NewAnime(Context(), aid, true, None);
    }

    /** A request through the session: the adapter mounted for the URL's scheme waits
        and sends; a URL with neither scheme has no adapter. */
    method Send(url: string, now: int) returns (r: Result<(int, int)>)
      requires Valid()
      modifies httpAdapter, httpsAdapter
      ensures "https://" <= url ==>
                && r.Success? && r.value.0 == Helper.Wait(old(httpsAdapter.lastRequestAt), rateLimit, now)
                && r.value.1 == now + r.value.0 && httpsAdapter.lastRequestAt == Some(r.value.1)
                && httpAdapter.lastRequestAt == old(httpAdapter.lastRequestAt)
      ensures "http://" <= url ==>
                && r.Success? && r.value.0 == Helper.Wait(old(httpAdapter.lastRequestAt), rateLimit, now)
                && r.value.1 == now + r.value.0 && httpAdapter.lastRequestAt == Some(r.value.1)
                && httpsAdapter.lastRequestAt == old(httpsAdapter.lastRequestAt)
      ensures !("https://" <= url) && !("http://" <= url) ==>
                && r == Failure(TransportError)
                && httpAdapter.lastRequestAt == old(httpAdapter.lastRequestAt)
                && httpsAdapter.lastRequestAt == old(httpsAdapter.lastRequestAt)
    {
      SchemesDisjoint(url);
      if "https://" <= url {
        var wait, startedAt := httpsAdapter.Send(now);
        return Success((wait, startedAt));
      } else if "http://" <= url {
        var wait, startedAt := httpAdapter.Send(now);
        return Success((wait, startedAt));
      }
      return Failure(TransportError);
    }
  }

  /** `a` is the unloaded `Anime(client, id=aid, auto_load=False, xml=node)` for a
      scanned `aid`, holding the fill `seed`. */
  ghost predicate Seeded(a: Models.Anime, ctx: Models.ClientContext, aid: int, seed: Models.Fill)
    reads a
  {
    && !a.loaded
    && a.id == aid
    && a.context == ctx
    && a.Snapshot() == seed.detail
  }

  /** The fill a scanned pair `(aid, node)` seeds its `Anime` with. */
  function SeedOf(entry: (int, Node)): Models.Fill
  {
    Models.Seed(Some(entry.1))
  }

  /** `Anime(self, aid, auto_load=False, xml=node)` for one scanned pair. */
  method SeedOne(ctx: Models.ClientContext, entry: (int, Node)) returns (r: Result<Models.Anime>)
    ensures r.Success? <==> SeedOf(entry).error.None?
    ensures r.Success? ==> fresh(r.value) && Seeded(r.value, ctx, entry.0, SeedOf(entry))
  {
    r := Models.NewAnime(ctx, entry.0, false, Some(entry.1));
  }

  /** The list comprehension of `search` that builds one `Anime` per kept pair: the
      first node whose fill raises stops it. */
  method SeedAll(ctx: Models.ClientContext, entries: seq<(int, Node)>) returns (r: Result<seq<Models.Anime>>)
    ensures var seeds := Map(entries, SeedOf);
            && (r.Success? <==> forall k :: 0 <= k < |seeds| ==> seeds[k].error.None?)
            && (r.Success? ==>
                  && |r.value| == |seeds|
                  && forall k :: 0 <= k < |seeds| ==> fresh(r.value[k]) && Seeded(r.value[k], ctx, entries[k].0, seeds[k]))
    decreases |entries|
  {
    if entries == [] {
      return Success([]);
    }
    var init, last := entries[..|entries| - 1], entries[|entries| - 1];
    assert entries == init + [last];
    MapSnoc(init, last, SeedOf);
    var built := SeedAll(ctx, init);
    if built.Failure? {
      ghost var k :| 0 <= k < |init| && Map(init, SeedOf)[k].error.Some?;
      assert Map(entries, SeedOf)[k].error.Some?;
      return Failure(built.error);
    }
    var anime := SeedOne(ctx, last);
    if anime.Failure? {
      assert Map(entries, SeedOf)[|init|].error.Some?;
      return Failure(anime.error);
    }
    var result := built.value + [anime.value];
    SeededSnoc(ctx, init, last, built.value, anime.value, SeedOf);
    return Success(result);
  }

  /** Appending the `Anime` built for one more pair keeps every `Anime` seeded from
      its pair, whatever the fill function. */
  lemma SeededSnoc(ctx: Models.ClientContext, init: seq<(int, Node)>, last: (int, Node),
                   built: seq<Models.Anime>, a: Models.Anime, f: ((int, Node)) -> Models.Fill)
    requires |built| == |init|
    requires forall k :: 0 <= k < |init| ==> Seeded(built[k], ctx, init[k].0, Map(init, f)[k])
    requires Seeded(a, ctx, last.0, f(last))
    ensures forall k :: 0 <= k <= |init| ==>
              Seeded((built + [a])[k], ctx, (init + [last])[k].0, Map(init + [last], f)[k])
  {
    MapSnoc(init, last, f);
  }

  /** No URL is under both mounted prefixes, so each request uses exactly one adapter. */
  lemma SchemesDisjoint(url: string)
    ensures !("https://" <= url && "http://" <= url)
  {
    assert "https://"[4] == 's' && "http://"[4] == ':';
  }
}
