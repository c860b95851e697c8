# anidb.py, modelled in Dafny

anidb.py is a small Python 2 client for the AniDB HTTP API. An `Anidb` client does four things:

- It keeps a locally cached title index, `anime-titles.xml.gz`. Despite the `.gz` name, the file holds the raw response body and is read as plain XML. `search` reads that file and downloads it only when the read raises IOError and `auto_download` is set; a stale file that still reads is used as it is. The one-day freshness test belongs to `download_anime_list`, which skips the download while the file is less than a day old.
- It searches that index case-insensitively by title substring.
- It builds `Anime` entities. Each one fills itself from an XML detail document (titles, synonyms, episodes, picture, ratings, categories, tags, dates, description).
- Its session mounts two rate-limiting HTTP adapters, one for `http://` and one for `https://`. Each waits so that consecutive requests through that adapter start at least `rate_limit` seconds apart; the two adapters are spaced independently. The index download itself calls `requests.get` directly and passes through neither adapter.

The project has six modules:

- `Builtins` (`builtins.dfy`): the Python runtime pieces the library relies on. Exceptions become a `Result` with the Python error kind. It also covers Python truthiness, ASCII `str.lower`, substring `in`, `str.split` and `int()`.
- `Lists` (`lists.dfy`): list comprehensions, `for … return` searches, and Python 2's `sorted`. The library's comparators are used only through `<` (that is, `__cmp__ < 0`), and `sorted` is stable, so it is modelled as a stable insertion sort. That sort is proved ordered, a permutation, and stable.
- `Xml` (`xml.dfy`): an already-parsed ElementTree element with `find`, `findall`, `attrib.get` and child text.
- `Helper` (`helper.dfy`): `parse_date`, and the rate-limiting adapter as a class with a mutable `lastRequestAt` cursor.
- `Models` (`models.dfy`):
  - the entities `Title`, `Category`, `Tag`, `Picture` and `Episode`, with their comparators;
  - the `BaseAttribute` helpers, as a class with a mutable field map;
  - the `Anime` class, whose methods update its fields section by section. The methods are specified by the pure function `Hydrate`, and the lemmas about `fill_from_xml` are proved on `Hydrate`.
- `Client` (`client.dfy`): the `Anidb` class with its index cache, its freshness rule, `search` as a loop proved against a fold specification, `anime(aid)`, and the two adapters its session mounts.

The clock, the file system and the network are inputs:

- The clock is an integer parameter `now`.
- The index file is a `FileEntry` (its parsed content or read error, and its mtime).
- The download is a `Remote`.
- The detail endpoint is the session function `Query -> Result<Node>`.

Tag order: `Tag.__cmp__` returns `self.count - other.count`, so `sorted` orders tags by ascending count. Weights 50, 200 and 10 come out as 10, 50, 200 (`Models.SortTagsAscending`; `Models.TagOrderExample` works this example).

The functions with no contract of their own are specifications; the lemmas and methods in the table state their properties:

- `Builtins.Split`, `Builtins.ParseInt` and `Helper.ParseInts` (`str.split`, `int()`, `map(int, …)`) are characterised by the split, round-trip and date lemmas under `Builtins` and `Helper`. `Builtins.ParseOptionalInt` (`int(anime.get("aid"))`, which raises TypeError for a missing `aid`) by `Client.ScanPairsAid` and `Client.ScanFailsAtFirstError`, and `Helper.ValidDate` (what `datetime.date` accepts) by `Helper.ParseDate`.
- `Models.Picture.Url` (the `url` property) by `Models.PictureUrlInjective`.
- `Models.ParseTitle` by `Models.ParseTitles`, `Models.ParseCategory` by `Models.NewCategory` and `Models.MapCategories`.
- `Models.Hydrate` and `Models.HydrateTail` (`fill_from_xml`) by the `Models.Hydrate*` lemmas and by `Models.Anime.FillFromXml` and `Models.Anime.FillTail`.
- `Models.Seed` (the `Anime` constructor with `xml` given) by `Models.NewAnime`.
- `Models.EpisodeIndex` by `Models.EpisodeIndexLastWins` and `Models.EpisodeIndexValues`; `Models.SortTags` by `Models.SortTagsAscending`; `Models.SortEpisodes` by `Models.SortEpisodesOrdered` and `Models.MainEpisodesAscending`.
- `Models.Anime.GetTitle` and `Models.Anime.MainTitle` (`get_title` and the `title` property) call `Models.TitleLookup`, whose contract holds the promise.
- `Client.SkipDownload` (the freshness test of `download_anime_list`) by `Client.FreshForOneDay`, `Client.ForceAlwaysDownloads`, `Client.MissingFileAlwaysDownloads` and `Client.Anidb.DownloadAnimeList`.
- `Client.TitlesMatch` (the inner title loop of `search`) by `Client.TitlesMatchMeaning` and `Client.MatchTitles`, and `Client.Entry` (one pass of the outer loop) by `Client.ScanEntry` and `Client.ScanStep`.
- `Client.Scan` (the loops of `search`) by `Client.ScanIndex`, `Client.ScanKeepsMatches`, `Client.ScanPairsAid`, `Client.ScanFailsAtFirstError` and `Client.ScanStopsAtError`.

## Model

| member | source | states |
|---|---|---|
| Builtins.MapAll | anidb/models.py:64 | A comprehension over a raising constructor succeeds iff every element succeeds. It then yields each element's value in order; otherwise it reports the exception of the first element that raised. |
| Builtins.Lower | anidb/__init__.py:54 | `lower()` keeps the length, lowers every ASCII capital by 32 and leaves every other character unchanged. |
| Builtins.Contains | anidb/__init__.py:58 | `needle in hay` holds iff `needle` is a prefix of some suffix of `hay`. |
| Builtins.SplitWithoutSeparator | anidb/helper.py:26 | A string without the separator splits into the one-element list of itself. |
| Builtins.SplitAtFirstSeparator | anidb/helper.py:26 | Splitting `a + sep + b`, where `a` has no separator, gives `a` followed by the split of `b`. |
| Builtins.DigitsOfNatToString | anidb/helper.py:26 | The decimal rendering of a natural number reads back as that number. |
| Builtins.ParseIntToString | anidb/helper.py:26 | `int(str(i)) == i` for every integer. |
| Xml.FirstWithTag | anidb/models.py:63-93 | `find(tag)`: None iff no node carries the tag; otherwise a node carrying it that no earlier node carries. |
| Xml.FindAll | anidb/models.py:66 | `findall(tag)` holds exactly the children with that tag. |
| Xml.ChildrenWithTag | anidb/models.py:66 | The nodes of a list that carry a tag: exactly those, and never more than the list. |
| Xml.ChildrenWithTagInOrder | anidb/models.py:66 | The nodes carrying the tag are the list filtered by the tag, so they keep document order and multiplicity. |
| Xml.FindAllInOrder | anidb/models.py:66 | `findall(tag)` is the children filtered by the tag, in document order. |
| Xml.ChildText | anidb/models.py:135-142 | None when no child has the tag; otherwise the text of a child with the tag that no earlier child has, stated over the children list. |
| Helper.ParseDate | anidb/helper.py:21-27 | None exactly for None or "". A part that is not an integer raises ValueError. When every part is an integer, the checks run in CPython 2's order. More than three parts raise TypeError. Otherwise a part outside the C `int` range raises OverflowError. Otherwise fewer than three parts raise TypeError. So TypeError is raised iff there are more than three parts, or fewer with every part in range. Three in-range parts give that date when it is a valid calendar date, and ValueError otherwise. A returned date always comes from exactly three parts with those integer values. |
| Helper.OverflowingYear | anidb/helper.py:25-27 | `10000000000-1-1` raises OverflowError, not the calendar's ValueError. |
| Helper.OverflowBeforeMissingDay | anidb/helper.py:25-27 | `10000000000-1` raises OverflowError, not the missing day's TypeError. |
| Helper.ParseTwoParts | anidb/helper.py:26 | `Y-M` in decimal splits and parses back to its two fields. |
| Helper.ParsePaddedDate | anidb/helper.py:21-27 | The zero-padded `2020-01-05` parses to the date 2020-01-05: `int` drops leading zeros. |
| Helper.SplitPaddedDate | anidb/helper.py:26 | `2020-01-05` splits on `-` into `2020`, `01` and `05`. |
| Helper.ParsePaddedParts | anidb/helper.py:26 | `map(int, …)` over `2020`, `01` and `05` yields 2020, 1 and 5. |
| Helper.ParseFormattedDate | anidb/helper.py:21-27 | Every valid date written as `Y-M-D` parses back to itself. |
| Helper.SplitFormattedDate | anidb/helper.py:26 | A written date splits on `-` into its three decimal fields. |
| Helper.ParseThreeInts | anidb/helper.py:26 | `map(int, …)` over three rendered integers yields those integers. |
| Helper.Wait | anidb/helper.py:41-47 | The wait is never negative. It is 0 when there is no previous request, which includes a previous time of 0. Otherwise at least `rate_limit` has passed since the previous start once the wait is over, and a positive wait ends exactly then. |
| Helper.RateLimitedAdapter.constructor | anidb/helper.py:31-38 | A new adapter has the given rate limit and no previous request. |
| Helper.RateLimitedAdapter.Send | anidb/helper.py:40-51 | Sleeps for the wait the cursor calls for, starts the request when the wait is over, and moves the cursor to that start. |
| Helper.StartTimes | anidb/helper.py:40-51 | Successive sends on one adapter never start before they were called. |
| Helper.StartTimesSpaced | anidb/helper.py:40-51 | With a positive clock, any two consecutive requests on one adapter start at least `rate_limit` apart. |
| Lists.Filter | anidb/models.py:68 | A filtering comprehension keeps exactly the elements that satisfy the condition and never grows the list. |
| Lists.Map | anidb/__init__.py:61 | A plain comprehension has one result per element. |
| Lists.MapSnoc | anidb/__init__.py:61 | Appending an element to the input appends its image to the comprehension. |
| Lists.MapPointwise | anidb/__init__.py:61 | The i-th result of a comprehension is the image of the i-th element. |
| Lists.First | anidb/models.py:102-109 | A `for … if …: return` search returns the first satisfying element, and None iff there is none. |
| Lists.FilterConcat | anidb/models.py:68 | Filtering a concatenation filters each part and keeps their order. |
| Lists.FilterSnoc | anidb/__init__.py:56-60 | Appending an element appends it to the filtered list exactly when it satisfies the condition. |
| Lists.FilterCount | anidb/models.py:68 | Filtering keeps each satisfying element as many times as it occurs and drops every other. |
| Lists.InsertBy | anidb/models.py:70 | Insertion adds exactly one occurrence of the element. |
| Lists.SortBy | anidb/models.py:70 | `sorted` returns a permutation of its input. |
| Lists.InsertSorted | anidb/models.py:70 | Inserting into an ordered list under a strict weak order keeps it ordered. |
| Lists.SortBySorted | anidb/models.py:70 | Under a strict weak order `sorted` returns an ordered permutation of its input. |
| Lists.TiedWithInsert | anidb/models.py:70 | Insertion adds the element to the run of ties of `y` exactly when it ties with `y`, and in front of that run. |
| Lists.SortByStable | anidb/models.py:70 | Stability: elements with equal keys keep their input order in `sorted`'s result. |
| Models.BaseAttribute.constructor | anidb/models.py:114-116 | A new attribute object holds its node and no attributes yet. |
| Models.BaseAttribute.SetAttributes | anidb/models.py:118-124 | Each named attribute is set to `attrib.get(name)`; every other attribute keeps its value. |
| Models.BaseAttribute.SetBooleans | anidb/models.py:126-133 | Each named attribute is set to whether the XML attribute exists and lowers to "true"; every other attribute keeps its value. |
| Models.BaseAttribute.SetTexts | anidb/models.py:135-142 | Each named attribute is set to the text of the first child with that tag, or None; every other attribute keeps its value. |
| Models.NewCategory | anidb/models.py:154-160 | A category object has exactly the attributes id, weight, hentai, name and description, holding the node's values. |
| Models.ParseTitles | anidb/models.py:180-186 | Titles parse iff every node has `xml:lang`, else KeyError. There is one title per node, in order, each carrying its node's language, optional `type` and text. |
| Models.SynonymsAreSynonymTitles | anidb/models.py:68 | The synonyms are exactly the titles typed "synonym", as often as they occur and in order. |
| Models.PictureUrlInjective | anidb/models.py:194-196 | Pictures that have text and share a URL have the same text: the URL is a fixed prefix followed by the text. |
| Models.ParseTag | anidb/models.py:163-173 | A tag parses iff a non-empty `update` is a date and a non-empty `weight` is an integer. A bad update raises its own error first; a bad weight after a good update raises ValueError. On success, `count` is `int(weight)` for a non-empty weight and 0 otherwise. id and weight are the raw attributes. A non-empty `update` holds `parse_date(update)`, an empty one stays raw. The four spoiler/verified flags are the attributes' `== "true"` tests, and name and description are the child texts. |
| Models.TagLessIsStrictWeakOrder | anidb/models.py:176-177 | The `<` that `Tag.__cmp__` induces is a strict weak order. |
| Models.SortTagsAscending | anidb/models.py:87 | Sorted tags are a permutation of the parsed tags, in ascending count order, with equal counts in input order. |
| Models.SortTwoTags | anidb/models.py:176-177 | Of two tags, the one with the lower count comes first after `sorted`. |
| Models.TagOrderExample | anidb/models.py:176-177 | Tags with weights 50, 200 and 10 sort as 10, 50, 200, lowest count first. |
| Models.LexLessTrichotomy | anidb/models.py:233 | Python 2 string `<` is a strict total order: exactly one of less, equal or greater holds. |
| Models.LexLessTransitive | anidb/models.py:233 | Python 2 string `<` is transitive. |
| Models.NumberLessTotalOrder | anidb/models.py:233 | The `<` on episode numbers (ints before strings) is a strict total order. |
| Models.ParseEpisode | anidb/models.py:201-211 | An episode parses iff its airdate parses, its titles carry `xml:lang`, its `epno` child has an integer `type`, and for type 1 a non-empty `epno` is an integer. On success, id, length and epno are the node's values, airdate is `parse_date(airdate)`, the titles are `ParseTitles` of the `title` children, and the type is `int(type)`. A main episode's number is `int(epno)`, or 0 when `epno` is empty; any other type keeps the `epno` text, or 0. Errors come in source order: the airdate's error, KeyError for a title, AttributeError for a missing `epno`, KeyError for a missing `type`, ValueError for a non-integer type or main number. |
| Models.EpisodeTitle | anidb/models.py:217-222 | Returns the first title in the requested language (default: the client's), and None iff there is none. |
| Models.EpisodeCmp | anidb/models.py:227-235 | The comparator never reports equality: it returns -1 or 1. |
| Models.EpisodeLessIsStrictWeakOrder | anidb/models.py:227-235 | The `<` that `Episode.__cmp__` induces is a strict weak order. |
| Models.SortEpisodesOrdered | anidb/models.py:70 | Sorted episodes are a permutation of the parsed ones. Higher types come first, each type is in non-decreasing number order, and ties keep input order. |
| Models.MainEpisodesAscending | anidb/models.py:70 | After `sorted`, any two main episodes with integer numbers appear by ascending number. |
| Models.EpisodeIndexLastWins | anidb/models.py:71-74 | The episode map has a key exactly for each main episode's number, and maps it to the last main episode with that number. |
| Models.EpisodeIndexValues | anidb/models.py:71-74 | Every value in the episode map is a main episode from the list, stored under its own number. |
| Models.WithEpisodesFrame | anidb/models.py:69-74 | The episodes section changes only the two episode fields, and changes nothing when there is no `episodes` element. |
| Models.WithPicture | anidb/models.py:75-76 | The picture section changes only the picture, and changes nothing without a `picture` element. |
| Models.WithRatings | anidb/models.py:77-83 | The ratings section changes only the three ratings, and changes nothing without a `ratings` element. |
| Models.WithCategories | anidb/models.py:84-85 | The categories section changes only the categories, and changes nothing without a `categories` element. |
| Models.WithTags | anidb/models.py:86-87 | The tags section changes only the tags, and changes nothing without a `tags` element. |
| Models.WithStartDate | anidb/models.py:88-89 | The start-date section changes only the start date, and changes nothing without a `startdate` element. |
| Models.WithEndDate | anidb/models.py:90-91 | The end-date section changes only the end date, and changes nothing without an `enddate` element. |
| Models.WithDescription | anidb/models.py:92-93 | The description section changes only the description, and changes nothing without a `description` element. |
| Models.DatesKeepTags | anidb/models.py:88-93 | The sections after the tags leave the tags alone. |
| Models.HydrateWithoutWrapper | anidb/models.py:63-67 | Without a `titles` wrapper, only the titles change. This succeeds iff every top-level `title` child carries `xml:lang`, and the titles are then the parsed children, one per child. Otherwise a KeyError leaves everything unchanged. |
| Models.HydrateTailKeepsHead | anidb/models.py:75-93 | The sections after the episodes never change titles, synonyms or episodes. |
| Models.HydrateSynonyms | anidb/models.py:64-68 | Once the wrapped titles parse, the titles are those titles and the synonyms are their synonym-typed subset, however later sections end. |
| Models.HydrateEpisodesSorted | anidb/models.py:69-74 | Once the wrapped titles and the `episodes` children have parsed, the episodes are stored sorted (as in SortEpisodesOrdered) and the map indexes the main ones, whatever a later section raises. |
| Models.TailKeepsStoredTags | anidb/models.py:86-93 | The tags that the tags section stores survive the rest of the tail, however it ends. |
| Models.HydrateTailTagsSorted | anidb/models.py:86-93 | Once the `tags` children have parsed, the tail leaves them stored as a stable, ascending-by-count permutation, whatever a later section raises. |
| Models.HydrateReachesTail | anidb/models.py:62-74 | A complete fill with a wrapper has parsed the titles and the episodes and then run every later section. |
| Models.HydrateTagsSorted | anidb/models.py:62-93 | Once the wrapped titles, any `episodes` children and the `tags` children have parsed, the fill leaves the tags as a stable ascending-by-count permutation of the parsed tags, whatever a later section raises. |
| Models.HydrateTailKeepsAbsent | anidb/models.py:75-93 | Every later section whose element is absent keeps its previous value, whatever exception ends the tail. |
| Models.HydrateKeepsAbsentSections | anidb/models.py:62-93 | A section whose element is absent keeps the value the entity had before `fill_from_xml`, however the fill ends. |
| Models.HydrateTailPresent | anidb/models.py:75-93 | A tail that completes takes the picture, the categories and the description from their elements when they are present. |
| Models.HydrateTailDates | anidb/models.py:88-91 | A tail that completes holds the parsed start and end dates when their elements are present. |
| Models.HydrateTailRatings | anidb/models.py:77-83 | Every tail, however it ends, holds the text of each rating child present under `ratings`. |
| Models.HydratePresentSections | anidb/models.py:62-93 | A complete fill takes every present simple section (picture, categories, dates, description) and every present rating from its element. |
| Models.MapCategories | anidb/models.py:85 | One category per child, in order: the i-th has the i-th child's id, weight, hentai flag, name and description. |
| Models.Anime.constructor | anidb/models.py:10-25 | A new entity has every detail field at its default, is not loaded, and has no document. |
| Models.Anime.FillFromXml | anidb/models.py:62-93 | The fields become `Hydrate` of the fields before; fields assigned before an exception keep their new values, and the exception is returned. `loaded` does not change. |
| Models.Anime.FillEpisodes | anidb/models.py:69-74 | Either the episode step's result is stored, or its exception is reported and nothing changes. |
| Models.Anime.FillTail | anidb/models.py:75-93 | The fields become the tail of `Hydrate` applied to the fields before. |
| Models.Anime.FillPicture | anidb/models.py:75-76 | The fields become the picture step applied to the fields before. |
| Models.Anime.FillRatings | anidb/models.py:77-83 | The fields become the ratings step applied to the fields before. |
| Models.Anime.FillCategories | anidb/models.py:84-85 | The fields become the categories step applied to the fields before. |
| Models.Anime.FillTags | anidb/models.py:86-87 | Either the sorted tags are stored, or a tag's exception is reported and nothing changes. |
| Models.Anime.FillStartDate | anidb/models.py:88-89 | Either the parsed start date is stored, or its exception is reported and nothing changes. |
| Models.Anime.FillEndDate | anidb/models.py:90-91 | Either the parsed end date is stored, or its exception is reported and nothing changes. |
| Models.Anime.FillDescription | anidb/models.py:92-93 | The fields become the description step applied to the fields before. |
| Models.Anime.Load | anidb/models.py:41-60 | A failed request changes nothing. Otherwise the document is kept, the fields are filled from it, and the entity becomes loaded exactly when the fill raised nothing. A loaded entity stays loaded. |
| Models.TitleLookup | anidb/models.py:95-109 | Returns the first title of the requested type (default "main"). If there is none, it returns the first title in the requested language (default the client's). It is None iff no title matches either. |
| Models.NewAnime | anidb/models.py:10-32 | With `auto_load` off, the entity is the unloaded seed of its XML; with it on, it is loaded and filled from the detail response on top of that seed. An exception in either step yields no object. |
| Client.JoinPath | anidb/__init__.py:41 | `os.path.join` for a relative name: the result ends with the name, and a `/` is put between them only when the directory is non-empty and does not already end in one. |
| Client.ForceAlwaysDownloads | anidb/__init__.py:66-72 | A forced download never counts as fresh. |
| Client.MissingFileAlwaysDownloads | anidb/__init__.py:66-72 | A missing index file always triggers a download. |
| Client.FreshForOneDay | anidb/__init__.py:66-72 | An existing file is kept exactly when less than one day has passed since its mtime, which includes an mtime ahead of the clock. |
| Client.FreshnessExamples | anidb/__init__.py:66-72 | A file 23 hours old is kept; files 24 and 25 hours old are downloaded again. |
| Client.TitlesMatchMeaning | anidb/__init__.py:57-60 | The title loop finds a match iff some title contains the needle and every title before it has text. It finds none iff every title has text and none contains the needle. Any other ending is an AttributeError. |
| Client.ScanKeepsMatches | anidb/__init__.py:55-60 | A completed scan keeps exactly the matching anime nodes, each once and in index order. |
| Client.ScanPairsAid | anidb/__init__.py:59 | Every kept node is paired with the integer value of its `aid` attribute. |
| Client.ScanFailsAtFirstError | anidb/__init__.py:56-60 | The scan raises iff some anime node's title loop or `aid` raises. |
| Client.ScanStopsAtError | anidb/__init__.py:56-60 | Once an exception has stopped the scan, the remaining anime nodes do not matter. |
| Client.MatchTitles | anidb/__init__.py:57-60 | The inner loop computes the title-match specification. |
| Client.ScanEntry | anidb/__init__.py:57-60 | One pass of the outer loop body computes the per-node specification. |
| Client.ScanStep | anidb/__init__.py:56-60 | Scanning one more anime node extends the scan of the earlier ones by that node's entry, or keeps the first exception. |
| Client.ScanIndex | anidb/__init__.py:54-60 | The outer loop over the lowered term computes the scan specification. |
| Client.Anidb.constructor | anidb/__init__.py:28-41 | Stores the settings and the session; has no index loaded; puts the index in the cache directory; mounts two distinct fresh adapters with the client's rate limit and no previous request. |
| Client.Anidb.Default | anidb/__init__.py:19-41 | `Anidb()` with its defaults: auto-download on, language `en`, a two-second rate limit, no index loaded, and two fresh adapters with no previous request. |
| Client.Anidb.DownloadAnimeList | anidb/__init__.py:66-72 | Returns False without touching the file when it is fresh (as in FreshForOneDay). Otherwise the download's failure propagates, or the file is replaced with mtime `now` and its path is returned. The cached index is never changed. |
| Client.Anidb.LoadIndex | anidb/__init__.py:44-52 | A cached index is reused unchanged. Otherwise the file is read, and any outcome other than IOError is returned as is. An IOError without auto-download propagates. An IOError with auto-download runs `download_anime_list` once: a file still fresh is kept and reading it again raises the same IOError, a failed download propagates its error, and a served download replaces the file (mtime `now`) and is read again. A successful read is cached. |
| Client.Anidb.Search | anidb/__init__.py:43-61 | A cached index and its file are left as they were. On a first search that succeeds, the index is the file's content when it reads, and otherwise the read raised IOError with auto-download on, and the index and the new file are the served download. A result comes from a loaded index, and has one fresh, unloaded entity per scanned pair, with that pair's aid and the client's context, seeded from that pair's node. |
| Client.Anidb.Anime | anidb/__init__.py:63-64 | Succeeds iff the detail request succeeds and its fill raises nothing. The entity is then fresh, loaded, carries the aid, and holds the fill of the response. |
| Client.Anidb.Send | anidb/__init__.py:104-105 | An `https://` URL goes through the https adapter and an `http://` URL through the http adapter. Each waits as `Wait` says and moves only its own cursor. A URL with neither scheme fails and moves neither cursor. |
| Client.SeedOne | anidb/__init__.py:61 | Builds an unloaded entity seeded from one scanned node, and fails iff that seed raises. |
| Client.SeedAll | anidb/__init__.py:61 | Builds one fresh, unloaded entity per scanned pair, in order, and fails iff some pair's seed raises. |
| Client.SeededSnoc | anidb/__init__.py:61 | Appending one seeded entity to a seeded list gives a seeded list for the extended pairs. |
| Client.SchemesDisjoint | anidb/__init__.py:104-105 | No URL starts with both `https://` and `http://`, so at most one adapter matches. |

## Left out

- `int()` accepts surrounding whitespace. Here it accepts only an optional sign followed by ASCII digits.
- `str.lower()` and the title substring test cover ASCII letters only. Unicode case mapping is not modelled.
- The clock: `time.time()`, `datetime.now()` and the file's mtime are one integer clock passed in as `now`. Local-time conversion in `datetime.fromtimestamp` and daylight saving are not modelled.
- Helper.RateLimitedAdapter.Send: the sleep lasts exactly the computed wait, so the request starts at `now + wait`. Time that passes while sleeping, sleep overshoot and fractional seconds are not modelled. The logging call is left out.
- The HTTP transport itself (`HTTPAdapter.send`), `requests_cache` with its expiry, the User-Agent header and `_build_session` (choosing the cache directory, `makedirs`, picking a session type) are outside the model. The session is a function from a detail query to a parsed document or an error. `Anidb.constructor` takes the cache directory.
- Anidb.Send matches only the two mounted prefixes, case-sensitively. requests compares the URL with each mounted prefix case-insensitively and picks the longest; neither the lowering nor any other mounted adapter is modelled.
- `download_file`, and reading and parsing the index file (`_read_file`): the download is a `Remote` value (a failure, or a body that parses or not), and the index file is a `FileEntry` holding the parsed document or the error reading it. Chunked writing and partial files are not modelled.
- The back-references in the object graph: `Anime.anidb` becomes a `ClientContext` (language, client name, version and session), and `BaseAttribute.anime`, `Episode.anime` and `Title.anime` are dropped. `Anime`, the `BaseAttribute` helper object behind `Category`, the client and its adapters are mutable objects; titles, tags, episodes and pictures are values.
- BaseAttribute: `setattr` is modelled as a map from attribute name to value. `Category` is built through it (`NewCategory`); `Tag`, `Title` and `Episode` are datatypes whose parsers read the same attributes.
- `__repr__`, `__str__` and the `title` properties (`Anime.title`, `Episode.title`) are rendering or aliases. `Models.Anime.MainTitle` and `Models.Anime.GetTitle` model them by calling `TitleLookup`.
- Python 2 comparisons of values of different kinds: episode numbers compare ints before strings, which matches CPython 2 only for these two types.
- Client.Anidb.Search: the contract describes where a successful result and its index come from. Which exceptions propagate is stated separately by the contracts of `LoadIndex`, `ScanIndex` and `SeedAll`, which it calls in that order.
- Concurrency: the adapters and the cache are used by one thread at a time.
