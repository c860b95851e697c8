/** The entity model of `anidb/models.py`: titles, categories, tags, pictures and
    episodes read from XML nodes, their sort orders, and the `Anime` object that
    hydrates itself from a detail response. */
module Models {
  import opened Builtins
  import opened Xml
  import opened Lists
  import Helper

  // ---------------------------------------------------------------------------
  // BaseAttribute: the three helpers that copy node data onto an object

  /** What a BaseAttribute helper stores under an attribute name. */
  datatype Value = Text(text: Option<string>) | Flag(flag: bool)

  /** `_booleans`: present and equal to "true" ignoring ASCII case. */
  predicate IsTrue(node: Node, name: string)
  {
    var v := Get(node, name);
    v.Some? && Lower(v.value) == "true"
  }

  /** A BaseAttribute object: its node and the attributes the helpers set on it. */
  class BaseAttribute {
    const node: Node
    var fields: map<string, Value>

    constructor (node: Node)
      ensures this.node == node && fields == map[]
    {
      this.node := node;
      fields := map[];
    }

    /** `_attributes(*names)`: each name gets `node.attrib.get(name)`. */
    method SetAttributes(names: seq<string>)
      modifies this
      ensures forall a :: a in fields <==> a in old(fields) || a in names
      ensures forall i :: 0 <= i < |names| ==> names[i] in fields && fields[names[i]] == Text(Get(node, names[i]))
      ensures forall k :: k in old(fields) && k !in names ==> fields[k] == old(fields)[k]
    {
      var i := 0;
      while i < |names|
        invariant 0 <= i <= |names|
        invariant forall a :: a in fields <==> a in old(fields) || a in names[..i]
        invariant forall a :: a in names[..i] ==> fields[a] == Text(Get(node, a))
        invariant forall k :: k in old(fields) && k !in names[..i] ==> fields[k] == old(fields)[k]
      {
        assert names[..i + 1] == names[..i] + [names[i]];
        fields := fields[names[i] := Text(Get(node, names[i]))];
        i := i + 1;
      }
      assert names[..i] == names;
    }

    /** `_booleans(*names)`: each name gets whether its attribute reads "true". */
    method SetBooleans(names: seq<string>)
      modifies this
      ensures forall a :: a in fields <==> a in old(fields) || a in names
      ensures forall i :: 0 <= i < |names| ==> names[i] in fields && fields[names[i]] == Flag(IsTrue(node, names[i]))
      ensures forall k :: k in old(fields) && k !in names ==> fields[k] == old(fields)[k]
    {
      var i := 0;
      while i < |names|
        invariant 0 <= i <= |names|
        invariant forall a :: a in fields <==> a in old(fields) || a in names[..i]
        invariant forall a :: a in names[..i] ==> fields[a] == Flag(IsTrue(node, a))
        invariant forall k :: k in old(fields) && k !in names[..i] ==> fields[k] == old(fields)[k]
      {
        assert names[..i + 1] == names[..i] + [names[i]];
        var value := Get(node, names[i]);
        fields := fields[names[i] := Flag(value.Some? && Lower(value.value) == "true")];
        i := i + 1;
      }
      assert names[..i] == names;
    }

    /** `_texts(*names)`: each name gets the text of the child with that tag, or None. */
    method SetTexts(names: seq<string>)
      modifies this
      ensures forall a :: a in fields <==> a in old(fields) || a in names
      ensures forall i :: 0 <= i < |names| ==> names[i] in fields && fields[names[i]] == Text(ChildText(node, names[i]))
      ensures forall k :: k in old(fields) && k !in names ==> fields[k] == old(fields)[k]
    {
      var i := 0;
      while i < |names|
        invariant 0 <= i <= |names|
        invariant forall a :: a in fields <==> a in old(fields) || a in names[..i]
        invariant forall a :: a in names[..i] ==> fields[a] == Text(ChildText(node, a))
        invariant forall k :: k in old(fields) && k !in names[..i] ==> fields[k] == old(fields)[k]
      {
        assert names[..i + 1] == names[..i] + [names[i]];
        var child := Find(node, names[i]);
        fields := fields[names[i] := Text(if child.Some? then child.value.text else None)];
        i := i + 1;
      }
      assert names[..i] == names;
    }
  }

  // ---------------------------------------------------------------------------
  // Title, Category, Picture

  datatype Title = Title(lang: string, kind: Option<string>, text: Option<string>)

  /** `Title(anime, node)`: `xml:lang` is mandatory, `type` is optional. */
  function ParseTitle(node: Node): Result<Title>
  {
    if XML_LANG in node.attrib then Success(Title(node.attrib[XML_LANG], Get(node, "type"), node.text))
    else Failure(KeyError)
  }

  /** `[Title(self, n) for n in nodes]`. */
  function ParseTitles(nodes: seq<Node>): (r: Result<seq<Title>>)
    ensures r.Success? <==> forall n :: n in nodes ==> XML_LANG in n.attrib
    ensures r.Failure? ==> r.error == KeyError
    ensures r.Success? ==> (|r.value| == |nodes| &&
              forall i :: 0 <= i < |nodes| ==>
                r.value[i].lang == nodes[i].attrib[XML_LANG] && r.value[i].kind == Get(nodes[i], "type") && r.value[i].text == nodes[i].text)
  {
    var r := MapAll(nodes, ParseTitle);
    assert (forall n :: n in nodes ==> XML_LANG in n.attrib) <==> (forall i :: 0 <= i < |nodes| ==> ParseTitle(nodes[i]).Success?) by {
      if forall i :: 0 <= i < |nodes| ==> ParseTitle(nodes[i]).Success? {
        forall n | n in nodes ensures XML_LANG in n.attrib {
          var i :| 0 <= i < |nodes| && nodes[i] == n;
          assert ParseTitle(nodes[i]).Success?;
        }
      }
    }
    r
  }

  predicate IsSynonym(t: Title)
  {
    t.kind == Some("synonym")
  }

  /** `[t for t in titles if t.type == "synonym"]`. */
  function Synonyms(titles: seq<Title>): seq<Title>
  {
    Filter(titles, IsSynonym)
  }

  /** Synonyms are exactly the synonym-typed titles, as often as they occur and in
      their original order. */
  lemma SynonymsAreSynonymTitles(titles: seq<Title>, more: seq<Title>, t: Title)
    ensures t in Synonyms(titles) <==> t in titles && t.kind == Some("synonym")
    ensures multiset(Synonyms(titles))[t] == if IsSynonym(t) then multiset(titles)[t] else 0
    ensures Synonyms(titles + more) == Synonyms(titles) + Synonyms(more)
  {
    FilterCount(titles, IsSynonym, t);
    FilterConcat(titles, more, IsSynonym);
  }

  datatype Category = Category(id: Option<string>, weight: Option<string>, hentai: bool,
                               name: Option<string>, description: Option<string>)

  /** `Category(anime, node)`: attributes id and weight, flag hentai, texts name and description. */
  function ParseCategory(node: Node): Category
  {
    Category(Get(node, "id"), Get(node, "weight"), IsTrue(node, "hentai"),
             ChildText(node, "name"), ChildText(node, "description"))
  }

  /** The names `Category.__init__` passes to each helper. */
  const CATEGORY_ATTRIBUTES := ["id", "weight"]
  const CATEGORY_BOOLEANS := ["hentai"]
  const CATEGORY_TEXTS := ["name", "description"]

  /** `Category.__init__`: the object ends up with exactly the five attributes, holding
      the values ParseCategory reads from the node. */
  method NewCategory(node: Node) returns (c: BaseAttribute)
    ensures fresh(c) && c.node == node
    ensures forall a :: a in c.fields <==> a in CATEGORY_ATTRIBUTES || a in CATEGORY_BOOLEANS || a in CATEGORY_TEXTS
    ensures var category := ParseCategory(node);
            && c.fields["id"] == Text(category.id)
            && c.fields["weight"] == Text(category.weight)
            && c.fields["hentai"] == Flag(category.hentai)
            && c.fields["name"] == Text(category.name)
            && c.fields["description"] == Text(category.description)
  {
    c := new BaseAttribute(node);
    c.SetAttributes(CATEGORY_ATTRIBUTES);
    c.SetBooleans(CATEGORY_BOOLEANS);
    c.SetTexts(CATEGORY_TEXTS);
    assert CATEGORY_ATTRIBUTES[0] == "id" && CATEGORY_ATTRIBUTES[1] == "weight";
    assert CATEGORY_BOOLEANS[0] == "hentai";
    assert CATEGORY_TEXTS[0] == "name" && CATEGORY_TEXTS[1] == "description";
  }

  const PICTURE_URL_PREFIX := "http://img7.anidb.net/pics/anime/"

  datatype Picture = Picture(text: Option<string>) {
    /** `Picture.url`: the prefix followed by the node text (`%s` renders None as "None"). */
    function Url(): string
    {
      PICTURE_URL_PREFIX + (if text.Some? then text.value else "None")
    }
  }

  /** Distinct file names give distinct picture URLs. */
  lemma PictureUrlInjective(p: Picture, q: Picture)
    requires p.text.Some? && q.text.Some? && p.Url() == q.Url()
    ensures p == q
  {
    assert p.Url()[|PICTURE_URL_PREFIX|..] == p.text.value;
    assert q.Url()[|PICTURE_URL_PREFIX|..] == q.text.value;
  }

  // ---------------------------------------------------------------------------
  // Tag

  /** `Tag.update`: kept as the raw attribute when it is None or "", otherwise the
      result of `parse_date`. */
  datatype Stamp = Raw(raw: Option<string>) | Dated(date: Option<Helper.Date>)

  datatype Tag = Tag(id: Option<string>, update: Stamp, weight: Option<string>,
                     spoiler: bool, localSpoiler: bool, globalSpoiler: bool, verified: bool,
                     name: Option<string>, description: Option<string>, count: int)

  /** `Tag(anime, node)`; raises when `update` is not a date or `weight` not an integer. */
  function ParseTag(node: Node): (r: Result<Tag>)
    ensures r.Success? && Truthy(Get(node, "weight")) ==> ParseInt(Get(node, "weight").value) == Success(r.value.count)
    ensures r.Success? && !Truthy(Get(node, "weight")) ==> r.value.count == 0
    ensures r.Success? ==> r.value.weight == Get(node, "weight") && r.value.id == Get(node, "id")
    ensures r.Success? ==> (r.value.update.Raw? <==> !Truthy(Get(node, "update")))
    ensures (Truthy(Get(node, "weight")) && ParseInt(Get(node, "weight").value).Failure?
             && Helper.ParseDate(Get(node, "update")).Success?) ==> r == Failure(ValueError)
    ensures r.Success? <==>
              (Truthy(Get(node, "update")) ==> Helper.ParseDate(Get(node, "update")).Success?)
              && (Truthy(Get(node, "weight")) ==> ParseInt(Get(node, "weight").value).Success?)
    ensures Truthy(Get(node, "update")) && Helper.ParseDate(Get(node, "update")).Failure? ==>
              r == Failure(Helper.ParseDate(Get(node, "update")).error)
    ensures r.Success? ==>
              && (r.value.update.Dated? ==> Helper.ParseDate(Get(node, "update")) == Success(r.value.update.date))
              && (r.value.update.Raw? ==> r.value.update.raw == Get(node, "update"))
              && r.value.spoiler == IsTrue(node, "spoiler") && r.value.localSpoiler == IsTrue(node, "localspoiler")
              && r.value.globalSpoiler == IsTrue(node, "globalspoiler") && r.value.verified == IsTrue(node, "verified")
              && r.value.name == ChildText(node, "name") && r.value.description == ChildText(node, "description")
  {
    var update := Get(node, "update");
    var stamp :- if Truthy(update) then
                   (match Helper.ParseDate(update)
                    case Failure(e) => Failure(e)
                    case Success(d) => Success(Dated(d)))
                 else Success(Raw(update));
    var weight := Get(node, "weight");
    var count :- if Truthy(weight) then ParseInt(weight.value) else Success(0);
    Success(Tag(Get(node, "id"), stamp, weight,
                IsTrue(node, "spoiler"), IsTrue(node, "localspoiler"),
                IsTrue(node, "globalspoiler"), IsTrue(node, "verified"),
                ChildText(node, "name"), ChildText(node, "description"), count))
  }

  /** `Tag.__cmp__`. */
  function TagCmp(a: Tag, b: Tag): int
  {
    a.count - b.count
  }

  /** The `<` that `sorted` derives from `Tag.__cmp__`. */
  predicate TagLess(a: Tag, b: Tag)
  {
    TagCmp(a, b) < 0
  }

  lemma TagLessIsStrictWeakOrder()
    ensures StrictWeakOrder(TagLess)
  {
  }

  /** `sorted(tags)`. */
  function SortTags(tags: seq<Tag>): seq<Tag>
  {
    SortBy(tags, TagLess)
  }

  /** Tags come out by ascending count, as a permutation of the input, and tags of
      equal count keep their input order. */
  lemma SortTagsAscending(tags: seq<Tag>, t: Tag)
    ensures multiset(SortTags(tags)) == multiset(tags)
    ensures forall i, j :: 0 <= i < j < |SortTags(tags)| ==> SortTags(tags)[i].count <= SortTags(tags)[j].count
    ensures TiedWith(SortTags(tags), TagLess, t) == TiedWith(tags, TagLess, t)
  {
    TagLessIsStrictWeakOrder();
    SortBySorted(tags, TagLess);
    SortByStable(tags, TagLess, t);
  }

  lemma SortTwoTags(b: Tag, c: Tag)
    requires c.count < b.count
    ensures SortTags([b, c]) == [c, b]
  {
    assert [b, c][1..] == [c] && [c][1..] == [];
    assert SortBy([c], TagLess) == [c];
    assert InsertBy(b, [c], TagLess) == [c] + InsertBy(b, [], TagLess);
  }

  /** Weights 50, 200 and 10 come out as 10, 50, 200: the comparator sorts ascending. */
  lemma TagOrderExample(a: Tag, b: Tag, c: Tag)
    requires a.count == 50 && b.count == 200 && c.count == 10
    ensures SortTags([a, b, c]) == [c, a, b]
  {
    SortTwoTags(b, c);
    assert [a, b, c][1..] == [b, c];
    assert [c, b][1..] == [b];
    assert InsertBy(a, [b], TagLess) == [a, b];
    assert InsertBy(a, [c, b], TagLess) == [c] + [a, b];
  }

  // ---------------------------------------------------------------------------
  // Episode

  /** `Episode.number`: an int for main episodes, otherwise the raw `epno` text, or 0. */
  datatype Number = Int(n: int) | Str(s: string)

  /** Python 2's `<` on strings: lexicographic by character code. */
  predicate LexLess(a: string, b: string)
  {
    if a == [] then b != []
    else if b == [] then false
    else if a[0] != b[0] then a[0] < b[0]
    else LexLess(a[1..], b[1..])
  }

  lemma {:induction false} LexLessTrichotomy(a: string, b: string)
    ensures LexLess(a, b) || a == b || LexLess(b, a)
    ensures !(LexLess(a, b) && LexLess(b, a))
    ensures !LexLess(a, a)
  {
    if a != [] && b != [] && a[0] == b[0] {
      LexLessTrichotomy(a[1..], b[1..]);
      if a[1..] == b[1..] {
        assert a == [a[0]] + a[1..] && b == [b[0]] + b[1..];
      }
    }
    if a != [] {
      LexLessTrichotomy(a[1..], a[1..]);
    }
  }

  lemma {:induction false} LexLessTransitive(a: string, b: string, c: string)
    requires LexLess(a, b) && LexLess(b, c)
    ensures LexLess(a, c)
  {
    if a != [] && a[0] == b[0] && b[0] == c[0] {
      LexLessTransitive(a[1..], b[1..], c[1..]);
    }
  }

  /** Python 2's `<` on episode numbers: ints by value, before every string. */
  predicate NumberLess(a: Number, b: Number)
  {
    match (a, b)
    case (Int(x), Int(y)) => x < y
    case (Int(_), Str(_)) => true
    case (Str(_), Int(_)) => false
    case (Str(x), Str(y)) => LexLess(x, y)
  }

  lemma NumberLessTotalOrder(a: Number, b: Number, c: Number)
    ensures NumberLess(a, b) || a == b || NumberLess(b, a)
    ensures !(NumberLess(a, b) && NumberLess(b, a))
    ensures NumberLess(a, b) && NumberLess(b, c) ==> NumberLess(a, c)
  {
    if a.Str? && b.Str? {
      LexLessTrichotomy(a.s, b.s);
      if c.Str? && LexLess(a.s, b.s) && LexLess(b.s, c.s) {
        LexLessTransitive(a.s, b.s, c.s);
      }
    }
  }

  datatype Episode = Episode(id: Option<string>, airdate: Option<Helper.Date>, length: Option<string>,
                             epno: Option<string>, titles: seq<Title>, kind: int, number: Number)

  /** `Episode(anime, node)`. In order it may raise on a bad airdate, a title without
      `xml:lang`, a missing `epno` child (AttributeError) or `type` attribute
      (KeyError), a non-integer type, and a non-integer number of a main episode. */
  function ParseEpisode(node: Node): (r: Result<Episode>)
    ensures var epno := ChildText(node, "epno");
            var typeAttr := if Find(node, "epno").Some? then Get(Find(node, "epno").value, "type") else None;
            && (r.Success? <==>
                  && Helper.ParseDate(ChildText(node, "airdate")).Success?
                  && ParseTitles(FindAll(node, "title")).Success?
                  && typeAttr.Some? && ParseInt(typeAttr.value).Success?
                  && (ParseInt(typeAttr.value) == Success(1) && Truthy(epno) ==> ParseInt(epno.value).Success?))
            && (r.Success? ==>
                  && r.value.id == Get(node, "id") && r.value.length == ChildText(node, "length") && r.value.epno == epno
                  && Helper.ParseDate(ChildText(node, "airdate")) == Success(r.value.airdate)
                  && ParseTitles(FindAll(node, "title")) == Success(r.value.titles)
                  && ParseInt(typeAttr.value) == Success(r.value.kind)
                  && (r.value.kind == 1 ==>
                        r.value.number.Int? &&
                        (if Truthy(epno) then ParseInt(epno.value) == Success(r.value.number.n) else r.value.number == Int(0)))
                  && (r.value.kind != 1 ==> r.value.number == (if Truthy(epno) then Str(epno.value) else Int(0))))
    ensures Helper.ParseDate(ChildText(node, "airdate")).Failure? ==>
              r == Failure(Helper.ParseDate(ChildText(node, "airdate")).error)
    ensures Helper.ParseDate(ChildText(node, "airdate")).Success? && ParseTitles(FindAll(node, "title")).Failure? ==>
              r == Failure(KeyError)
    ensures (Helper.ParseDate(ChildText(node, "airdate")).Success? && ParseTitles(FindAll(node, "title")).Success?) ==>
              && (Find(node, "epno").None? ==> r == Failure(AttributeError))
              && (Find(node, "epno").Some? && Get(Find(node, "epno").value, "type").None? ==> r == Failure(KeyError))
              && ((Find(node, "epno").Some? && Get(Find(node, "epno").value, "type").Some?
                   && ParseInt(Get(Find(node, "epno").value, "type").value).Failure?) ==> r == Failure(ValueError))
              && ((Find(node, "epno").Some? && Get(Find(node, "epno").value, "type").Some?
                   && ParseInt(Get(Find(node, "epno").value, "type").value) == Success(1)
                   && Truthy(ChildText(node, "epno")) && ParseInt(ChildText(node, "epno").value).Failure?) ==> r == Failure(ValueError))
  {
    var epno := ChildText(node, "epno");
    var airdate :- Helper.ParseDate(ChildText(node, "airdate"));
    var titles :- ParseTitles(FindAll(node, "title"));
    var epnoNode :- if Find(node, "epno").Some? then Success(Find(node, "epno").value) else Failure(AttributeError);
    var typeText :- if Get(epnoNode, "type").Some? then Success(Get(epnoNode, "type").value) else Failure(KeyError);
    var kind :- ParseInt(typeText);
    var number := if Truthy(epno) then Str(epno.value) else Int(0);
    var cast :- if kind != 1 then Success(number)
                else match number
                  case Int(n) => Success(Int(n))
                  case Str(s) =>
                    (match ParseInt(s) case Failure(e) => Failure(e) case Success(n) => Success(Int(n)));
    Success(Episode(Get(node, "id"), airdate, ChildText(node, "length"), epno, titles, kind, cast))
  }

  /** `Episode.get_title(lang)`: the first title in `lang or` the client language. */
  function EpisodeTitle(e: Episode, lang: Option<string>, clientLang: string): (r: Option<Title>)
    ensures var l := if Truthy(lang) then lang.value else clientLang;
            && (r.None? <==> forall t :: t in e.titles ==> t.lang != l)
            && (r.Some? ==> exists i :: 0 <= i < |e.titles| && e.titles[i] == r.value && r.value.lang == l
                                         && forall j :: 0 <= j < i ==> e.titles[j].lang != l)
  {
    var l := if Truthy(lang) then lang.value else clientLang;
    First(e.titles, (t: Title) => t.lang == l)
  }

  /** `Episode.__cmp__`: higher type first, then ascending number; never 0. */
  function EpisodeCmp(a: Episode, b: Episode): (r: int)
    ensures r == -1 || r == 1
  {
    if a.kind > b.kind then -1
    else if a.kind < b.kind then 1
    else if NumberLess(a.number, b.number) then -1
    else 1
  }

  /** The `<` that `sorted` derives from `Episode.__cmp__`. */
  predicate EpisodeLess(a: Episode, b: Episode)
  {
    EpisodeCmp(a, b) < 0
  }

  lemma EpisodeLessIsStrictWeakOrder()
    ensures StrictWeakOrder(EpisodeLess)
  {
    forall a: Episode, b: Episode | EpisodeLess(a, b) ensures !EpisodeLess(b, a) {
      NumberLessTotalOrder(a.number, b.number, b.number);
    }
    forall a: Episode, b: Episode, c: Episode | EpisodeLess(a, c) ensures EpisodeLess(a, b) || EpisodeLess(b, c) {
      NumberLessTotalOrder(a.number, b.number, c.number);
      NumberLessTotalOrder(b.number, a.number, c.number);
    }
  }

  /** `sorted(episodes)`. */
  function SortEpisodes(episodes: seq<Episode>): seq<Episode>
  {
    SortBy(episodes, EpisodeLess)
  }

  /** The order `sorted` leaves episodes in: never a lower type before a higher one,
      and within one type never a larger number before a smaller one. */
  ghost predicate EpisodesOrdered(s: seq<Episode>)
  {
    forall i, j :: 0 <= i < j < |s| ==>
      s[i].kind >= s[j].kind && (s[i].kind == s[j].kind ==> !NumberLess(s[j].number, s[i].number))
  }

  lemma SortEpisodesOrdered(episodes: seq<Episode>, e: Episode)
    ensures multiset(SortEpisodes(episodes)) == multiset(episodes)
    ensures EpisodesOrdered(SortEpisodes(episodes))
    ensures TiedWith(SortEpisodes(episodes), EpisodeLess, e) == TiedWith(episodes, EpisodeLess, e)
  {
    EpisodeLessIsStrictWeakOrder();
    SortBySorted(episodes, EpisodeLess);
    SortByStable(episodes, EpisodeLess, e);
  }

  /** Among main episodes (whose numbers are ints) the sorted order is by ascending number. */
  lemma MainEpisodesAscending(episodes: seq<Episode>)
    ensures var s := SortEpisodes(episodes);
            forall i, j :: 0 <= i < j < |s| && s[i].kind == 1 && s[j].kind == 1 && s[i].number.Int? && s[j].number.Int? ==>
              s[i].number.n <= s[j].number.n
  {
    EpisodeLessIsStrictWeakOrder();
    SortBySorted(episodes, EpisodeLess);
  }


  /** `e` is a main episode (type 1) with number `k`. */
  predicate IndexedAs(e: Episode, k: Number)
  {
    e.kind == 1 && e.number == k
  }

  /** `dict([(e.number, e) for e in episodes if e.type == 1])`: later entries overwrite. */
  function EpisodeIndex(episodes: seq<Episode>): map<Number, Episode>
  {
    if episodes == [] then map[]
    else
      var e := episodes[|episodes| - 1];
      var m := EpisodeIndex(episodes[..|episodes| - 1]);
      if e.kind == 1 then m[e.number := e] else m
  }

  /** The index has a key for each number of a main episode and no other, and maps it
      to the last main episode with that number. */
  lemma {:induction false} EpisodeIndexLastWins(episodes: seq<Episode>)
    ensures forall k :: k in EpisodeIndex(episodes) <==> exists i :: 0 <= i < |episodes| && IndexedAs(episodes[i], k)
    ensures forall k :: k in EpisodeIndex(episodes) ==>
              exists i :: 0 <= i < |episodes| && episodes[i] == EpisodeIndex(episodes)[k] && IndexedAs(episodes[i], k)
                && forall j :: i < j < |episodes| ==> !IndexedAs(episodes[j], k)
  {
    if episodes != [] {
      var n := |episodes| - 1;
      var init := episodes[..n];
      var e := episodes[n];
      var m := EpisodeIndex(init);
      EpisodeIndexLastWins(init);
      assert forall i :: 0 <= i < n ==> init[i] == episodes[i];
      var r := EpisodeIndex(episodes);
      forall k | k in r
        ensures exists i :: 0 <= i < |episodes| && episodes[i] == r[k] && IndexedAs(episodes[i], k)
                  && forall j :: i < j < |episodes| ==> !IndexedAs(episodes[j], k)
      {
        if IndexedAs(e, k) {
          assert episodes[n] == r[k];
        } else {
          var i :| 0 <= i < n && init[i] == m[k] && IndexedAs(init[i], k) && forall j :: i < j < n ==> !IndexedAs(init[j], k);
          assert episodes[i] == r[k];
        }
      }
    }
  }

  /** Every value of the index is a main episode from the list, under its own number. */
  lemma EpisodeIndexValues(episodes: seq<Episode>, k: Number)
    requires k in EpisodeIndex(episodes)
    ensures EpisodeIndex(episodes)[k] in episodes && IndexedAs(EpisodeIndex(episodes)[k], k)
  {
    EpisodeIndexLastWins(episodes);
  }

  // ---------------------------------------------------------------------------
  // Anime

  /** Every detail field of an Anime, with the defaults `__init__` gives them. */
  datatype Detail = Detail(
    titles: seq<Title>, synonyms: seq<Title>,
    allEpisodes: seq<Episode>, episodes: map<Number, Episode>,
    picture: Option<Picture>,
    ratingPermanent: Option<string>, ratingTemporary: Option<string>, ratingReview: Option<string>,
    categories: seq<Category>, tags: seq<Tag>,
    startDate: Option<Helper.Date>, endDate: Option<Helper.Date>,
    description: Option<string>)

  const EMPTY_DETAIL := Detail([], [], [], map[], None, None, None, None, [], [], None, None, None)

  /** The fields after `fill_from_xml`, and the exception that stopped it, if any. */
  datatype Fill = Fill(detail: Detail, error: Option<Error>)

  /** `fill_from_xml` as a function of the fields before it runs: without a `titles`
      wrapper only the direct `title` children are read and nothing else changes. */
  function Hydrate(d: Detail, xml: Node): Fill
  {
    match Find(xml, "titles")
    case None =>
      (match ParseTitles(FindAll(xml, "title"))
       case Failure(e) => Fill(d, Some(e))
       case Success(ts) => Fill(d.(titles := ts), None))
    case Some(wrapper) =>
      match ParseTitles(wrapper.children)
      case Failure(e) => Fill(d, Some(e))
      case Success(ts) =>
        var d1 := d.(titles := ts, synonyms := Synonyms(ts));
        match WithEpisodes(d1, xml)
        case Failure(e) => Fill(d1, Some(e))
        case Success(d2) => HydrateTail(d2, xml)
  }

  /** The `episodes` section: every episode sorted, and the main ones indexed by number. */
  function WithEpisodes(d: Detail, xml: Node): Result<Detail>
  {
    match Find(xml, "episodes")
    case None => Success(d)
    case Some(wrapper) =>
      match MapAll(wrapper.children, ParseEpisode)
      case Failure(e) => Failure(e)
      case Success(es) =>
        var sorted := SortEpisodes(es);
        Success(d.(allEpisodes := sorted, episodes := EpisodeIndex(sorted)))
  }

  /** The episodes section changes only the two episode fields, and nothing without
      an `episodes` element. */
  lemma WithEpisodesFrame(d: Detail, xml: Node)
    ensures var r := WithEpisodes(d, xml);
            && (r.Success? ==> r.value == d.(allEpisodes := r.value.allEpisodes, episodes := r.value.episodes))
            && (Find(xml, "episodes").None? ==> r == Success(d))
  {
  }

  /** A section that may raise ran from `before` and left `after`: on an exception
      nothing changed and the exception is reported, otherwise `after` is the result. */
  predicate Stepped(step: Result<Detail>, before: Detail, after: Detail, error: Option<Error>)
  {
    match step
    case Failure(e) => after == before && error == Some(e)
    case Success(d) => after == d && error.None?
  }

  /** `if xml.find("picture") is not None: self.picture = Picture(...)`. */
  function WithPicture(d: Detail, xml: Node): (r: Detail)
    ensures r == d.(picture := r.picture)
    ensures Find(xml, "picture").None? ==> r == d
  {
    match Find(xml, "picture")
    case None => d
    case Some(p) => d.(picture := Some(Picture(p.text)))
  }

  /** A rating child's text when the child exists, else the previous value. */
  function Rating(ratings: Node, tag: string, previous: Option<string>): Option<string>
  {
    match Find(ratings, tag)
    case None => previous
    case Some(c) => c.text
  }

  /** The `ratings` section: each of the three ratings present replaces the old one. */
  function WithRatings(d: Detail, xml: Node): (r: Detail)
    ensures r == d.(ratingPermanent := r.ratingPermanent, ratingTemporary := r.ratingTemporary, ratingReview := r.ratingReview)
    ensures Find(xml, "ratings").None? ==> r == d
  {
    match Find(xml, "ratings")
    case None => d
    case Some(r) => d.(ratingPermanent := Rating(r, "permanent", d.ratingPermanent),
                       ratingTemporary := Rating(r, "temporary", d.ratingTemporary),
                       ratingReview := Rating(r, "review", d.ratingReview))
  }

  function WithCategories(d: Detail, xml: Node): (r: Detail)
    ensures r == d.(categories := r.categories)
    ensures Find(xml, "categories").None? ==> r == d
  {
    match Find(xml, "categories")
    case None => d
    case Some(c) => d.(categories := MapCategories(c.children))
  }

  /** The `tags` section: the sorted tags, or the exception a tag raised. */
  function WithTags(d: Detail, xml: Node): (r: Result<Detail>)
    ensures r.Success? ==> r.value == d.(tags := r.value.tags)
    ensures Find(xml, "tags").None? ==> r == Success(d)
  {
    match Find(xml, "tags")
    case None => Success(d)
    case Some(t) =>
      match MapAll(t.children, ParseTag)
      case Failure(e) => Failure(e)
      case Success(ts) => Success(d.(tags := SortTags(ts)))
  }

  function WithStartDate(d: Detail, xml: Node): (r: Result<Detail>)
    ensures r.Success? ==> r.value == d.(startDate := r.value.startDate)
    ensures Find(xml, "startdate").None? ==> r == Success(d)
  {
    match Find(xml, "startdate")
    case None => Success(d)
    case Some(n) =>
      match Helper.ParseDate(n.text)
      case Failure(e) => Failure(e)
      case Success(date) => Success(d.(startDate := date))
  }

  function WithEndDate(d: Detail, xml: Node): (r: Result<Detail>)
    ensures r.Success? ==> r.value == d.(endDate := r.value.endDate)
    ensures Find(xml, "enddate").None? ==> r == Success(d)
  {
    match Find(xml, "enddate")
    case None => Success(d)
    case Some(n) =>
      match Helper.ParseDate(n.text)
      case Failure(e) => Failure(e)
      case Success(date) => Success(d.(endDate := date))
  }

  function WithDescription(d: Detail, xml: Node): (r: Detail)
    ensures r == d.(description := r.description)
    ensures Find(xml, "description").None? ==> r == d
  {
    match Find(xml, "description")
    case None => d
    case Some(n) => d.(description := n.text)
  }

  /** The sections after the episodes, in source order; a raising section leaves the
      fields assigned before it. */
  function HydrateTail(d: Detail, xml: Node): Fill
  {
    var d3 := WithCategories(WithRatings(WithPicture(d, xml), xml), xml);
    match WithTags(d3, xml)
    case Failure(e) => Fill(d3, Some(e))
    case Success(d4) =>
      match WithStartDate(d4, xml)
      case Failure(e) => Fill(d4, Some(e))
      case Success(d5) =>
        match WithEndDate(d5, xml)
        case Failure(e) => Fill(d5, Some(e))
        case Success(d6) => Fill(WithDescription(d6, xml), None)
  }

  /** Without a `titles` wrapper only `titles` can change, and it becomes the list of
      the top-level `title` children. */
  lemma HydrateWithoutWrapper(d: Detail, xml: Node)
    requires Find(xml, "titles").None?
    ensures var f := Hydrate(d, xml);
            && f.detail == d.(titles := f.detail.titles)
            && (f.error.None? <==> forall n :: n in FindAll(xml, "title") ==> XML_LANG in n.attrib)
            && (f.error.None? ==> f.detail.titles == ParseTitles(FindAll(xml, "title")).value
                                  && |f.detail.titles| == |FindAll(xml, "title")|)
            && (f.error.Some? ==> f.detail == d && f.error == Some(KeyError))
  {
  }

  /** `b` agrees with `a` on the fields set before the episodes section ends. */
  predicate SameHead(a: Detail, b: Detail)
  {
    a.titles == b.titles && a.synonyms == b.synonyms && a.allEpisodes == b.allEpisodes && a.episodes == b.episodes
  }

  /** The sections after the episodes never touch titles, synonyms or episodes. */
  lemma HydrateTailKeepsHead(d: Detail, xml: Node)
    ensures SameHead(d, HydrateTail(d, xml).detail)
  {
    var d3 := WithCategories(WithRatings(WithPicture(d, xml), xml), xml);
    assert SameHead(d, d3);
    match WithTags(d3, xml)
    case Failure(_) =>
    case Success(d4) =>
      assert SameHead(d, d4);
      match WithStartDate(d4, xml)
      case Failure(_) =>
      case Success(d5) =>
        assert SameHead(d, d5);
        match WithEndDate(d5, xml)
        case Failure(_) =>
        case Success(d6) =>
          assert SameHead(d, WithDescription(d6, xml));
  }

  /** With a wrapper whose titles are accepted, the synonyms are the synonym-typed
      titles in order, whatever happens in later sections. */
  lemma HydrateSynonyms(d: Detail, xml: Node)
    requires Find(xml, "titles").Some? && ParseTitles(Find(xml, "titles").value.children).Success?
    ensures var t := Hydrate(d, xml).detail;
            t.titles == ParseTitles(Find(xml, "titles").value.children).value && t.synonyms == Synonyms(t.titles)
  {
    var ts := ParseTitles(Find(xml, "titles").value.children).value;
    var d1 := d.(titles := ts, synonyms := Synonyms(ts));
    match WithEpisodes(d1, xml)
    case Failure(_) =>
    case Success(d2) => HydrateTailKeepsHead(d2, xml);
  }

  /** Once the titles and the episodes section have parsed, the episodes are sorted by
      the comparator and the main ones indexed, whatever a later section raises. */
  lemma HydrateEpisodesSorted(d: Detail, xml: Node, e: Episode)
    requires Find(xml, "titles").Some? && ParseTitles(Find(xml, "titles").value.children).Success?
    requires Find(xml, "episodes").Some? && MapAll(Find(xml, "episodes").value.children, ParseEpisode).Success?
    ensures var es := MapAll(Find(xml, "episodes").value.children, ParseEpisode);
            var t := Hydrate(d, xml).detail;
            && multiset(t.allEpisodes) == multiset(es.value)
            && EpisodesOrdered(t.allEpisodes)
            && TiedWith(t.allEpisodes, EpisodeLess, e) == TiedWith(es.value, EpisodeLess, e)
            && t.episodes == EpisodeIndex(t.allEpisodes)
  {
    var ts := ParseTitles(Find(xml, "titles").value.children).value;
    var d1 := d.(titles := ts, synonyms := Synonyms(ts));
    var d2 := WithEpisodes(d1, xml).value;
    HydrateTailKeepsHead(d2, xml);
    SortEpisodesOrdered(MapAll(Find(xml, "episodes").value.children, ParseEpisode).value, e);
  }

  /** The sections after the tags never touch the tags. */
  lemma DatesKeepTags(d: Detail, xml: Node)
    ensures WithStartDate(d, xml).Success? ==> WithStartDate(d, xml).value.tags == d.tags
    ensures WithEndDate(d, xml).Success? ==> WithEndDate(d, xml).value.tags == d.tags
    ensures WithDescription(d, xml).tags == d.tags
  {
  }

  /** The tags the tags step stores survive the rest of the tail, however it ends. */
  lemma TailKeepsStoredTags(d: Detail, xml: Node)
    ensures var d3 := WithCategories(WithRatings(WithPicture(d, xml), xml), xml);
            WithTags(d3, xml).Success? ==> HydrateTail(d, xml).detail.tags == WithTags(d3, xml).value.tags
  {
    var d3 := WithCategories(WithRatings(WithPicture(d, xml), xml), xml);
    match WithTags(d3, xml)
    case Failure(_) =>
    case Success(d4) =>
      DatesKeepTags(d4, xml);
      match WithStartDate(d4, xml)
      case Failure(_) =>
      case Success(d5) =>
        DatesKeepTags(d5, xml);
        match WithEndDate(d5, xml)
        case Failure(_) =>
        case Success(d6) => DatesKeepTags(d6, xml);
  }

  /** Once the `tags` children have parsed, the tail leaves them sorted ascending by count,
      whatever a later section raises. */
  lemma HydrateTailTagsSorted(d: Detail, xml: Node, t: Tag)
    requires Find(xml, "tags").Some? && MapAll(Find(xml, "tags").value.children, ParseTag).Success?
    ensures var ts := MapAll(Find(xml, "tags").value.children, ParseTag);
            var tags := HydrateTail(d, xml).detail.tags;
            && multiset(tags) == multiset(ts.value)
            && (forall i, j :: 0 <= i < j < |tags| ==> tags[i].count <= tags[j].count)
            && TiedWith(tags, TagLess, t) == TiedWith(ts.value, TagLess, t)
  {
    var ts := MapAll(Find(xml, "tags").value.children, ParseTag).value;
    var d3 := WithCategories(WithRatings(WithPicture(d, xml), xml), xml);
    assert WithTags(d3, xml) == Success(d3.(tags := SortTags(ts)));
    TailKeepsStoredTags(d, xml);
    SortTagsAscending(ts, t);
  }


  /** A complete fill with a titles wrapper has gone through the tail. */
  lemma HydrateReachesTail(d: Detail, xml: Node)
    requires Find(xml, "titles").Some? && Hydrate(d, xml).error.None?
    ensures var ts := ParseTitles(Find(xml, "titles").value.children);
            && ts.Success?
            && var d1 := d.(titles := ts.value, synonyms := Synonyms(ts.value));
            && WithEpisodes(d1, xml).Success?
            && Hydrate(d, xml) == HydrateTail(WithEpisodes(d1, xml).value, xml)
  {
  }

  /** Once the titles, the episodes and the tags have parsed, the tags are sorted
      ascending by count, stably, whatever a later section raises. */
  lemma HydrateTagsSorted(d: Detail, xml: Node, t: Tag)
    requires Find(xml, "titles").Some? && ParseTitles(Find(xml, "titles").value.children).Success?
    requires Find(xml, "episodes").Some? ==> MapAll(Find(xml, "episodes").value.children, ParseEpisode).Success?
    requires Find(xml, "tags").Some? && MapAll(Find(xml, "tags").value.children, ParseTag).Success?
    ensures var ts := MapAll(Find(xml, "tags").value.children, ParseTag);
            var tags := Hydrate(d, xml).detail.tags;
            && multiset(tags) == multiset(ts.value)
            && (forall i, j :: 0 <= i < j < |tags| ==> tags[i].count <= tags[j].count)
            && TiedWith(tags, TagLess, t) == TiedWith(ts.value, TagLess, t)
  {
    var ts := ParseTitles(Find(xml, "titles").value.children).value;
    var d1 := d.(titles := ts, synonyms := Synonyms(ts));
    assert Hydrate(d, xml) == HydrateTail(WithEpisodes(d1, xml).value, xml);
    HydrateTailTagsSorted(WithEpisodes(d1, xml).value, xml, t);
  }

  /** Every section whose element is absent kept the value it had in `d`. */
  ghost predicate KeepsAbsent(xml: Node, d: Detail, t: Detail)
  {
    && (Find(xml, "episodes").None? ==> t.allEpisodes == d.allEpisodes && t.episodes == d.episodes)
    && (Find(xml, "picture").None? ==> t.picture == d.picture)
    && (Find(xml, "ratings").None? ==>
          t.ratingPermanent == d.ratingPermanent && t.ratingTemporary == d.ratingTemporary && t.ratingReview == d.ratingReview)
    && (Find(xml, "categories").None? ==> t.categories == d.categories)
    && (Find(xml, "tags").None? ==> t.tags == d.tags)
    && (Find(xml, "startdate").None? ==> t.startDate == d.startDate)
    && (Find(xml, "enddate").None? ==> t.endDate == d.endDate)
    && (Find(xml, "description").None? ==> t.description == d.description)
  }

  lemma {:induction false} HydrateTailKeepsAbsent(d: Detail, xml: Node)
    ensures KeepsAbsent(xml, d, HydrateTail(d, xml).detail)
  {
    var d3 := WithCategories(WithRatings(WithPicture(d, xml), xml), xml);
    assert KeepsAbsent(xml, d, d3);
    match WithTags(d3, xml)
    case Failure(_) =>
      assert HydrateTail(d, xml).detail == d3;
    case Success(d4) =>
      assert KeepsAbsent(xml, d, d4);
      match WithStartDate(d4, xml)
      case Failure(_) =>
        assert HydrateTail(d, xml).detail == d4;
      case Success(d5) =>
        assert KeepsAbsent(xml, d, d5);
        match WithEndDate(d5, xml)
        case Failure(_) =>
          assert HydrateTail(d, xml).detail == d5;
        case Success(d6) =>
          assert HydrateTail(d, xml).detail == WithDescription(d6, xml);
          assert KeepsAbsent(xml, d, WithDescription(d6, xml));
  }



  /** A section whose element is absent keeps its previous value, however the fill ends. */
  lemma HydrateKeepsAbsentSections(d: Detail, xml: Node)
    ensures KeepsAbsent(xml, d, Hydrate(d, xml).detail)
  {
    match Find(xml, "titles")
    case None =>
    case Some(wrapper) =>
      match ParseTitles(wrapper.children)
      case Failure(_) =>
      case Success(ts) =>
        var d1 := d.(titles := ts, synonyms := Synonyms(ts));
        match WithEpisodes(d1, xml)
        case Failure(_) =>
        case Success(d2) =>
          WithEpisodesFrame(d1, xml);
          assert KeepsAbsent(xml, d, d2);
          HydrateTailKeepsAbsent(d2, xml);
  }

  /** A complete tail takes the picture, the categories and the description from their
      elements when present. */
  lemma HydrateTailPresent(d: Detail, xml: Node)
    requires HydrateTail(d, xml).error.None?
    ensures var t := HydrateTail(d, xml).detail;
            && (Find(xml, "picture").Some? ==> t.picture == Some(Picture(Find(xml, "picture").value.text)))
            && (Find(xml, "categories").Some? ==> t.categories == MapCategories(Find(xml, "categories").value.children))
            && (Find(xml, "description").Some? ==> t.description == Find(xml, "description").value.text)
  {
    var d0 := WithPicture(d, xml);
    var d1 := WithRatings(d0, xml);
    var d3 := WithCategories(d1, xml);
    var d4 := WithTags(d3, xml).value;
    var d5 := WithStartDate(d4, xml).value;
    var d6 := WithEndDate(d5, xml).value;
    var t := WithDescription(d6, xml);
    assert HydrateTail(d, xml).detail == t;
    assert d3.picture == d1.picture == d0.picture;
    assert d4.picture == d3.picture && d4.categories == d3.categories;
    assert d6.picture == d5.picture == d4.picture && d6.categories == d5.categories == d4.categories;
    assert t.picture == d6.picture && t.categories == d6.categories;
  }

  /** A complete tail holds the parsed start and end dates when their elements are
      present. */
  lemma HydrateTailDates(d: Detail, xml: Node)
    requires HydrateTail(d, xml).error.None?
    ensures var t := HydrateTail(d, xml).detail;
            && (Find(xml, "startdate").Some? ==> Helper.ParseDate(Find(xml, "startdate").value.text) == Success(t.startDate))
            && (Find(xml, "enddate").Some? ==> Helper.ParseDate(Find(xml, "enddate").value.text) == Success(t.endDate))
  {
    var d3 := WithCategories(WithRatings(WithPicture(d, xml), xml), xml);
    var d4 := WithTags(d3, xml).value;
    var d5 := WithStartDate(d4, xml).value;
    var d6 := WithEndDate(d5, xml).value;
    var t := WithDescription(d6, xml);
    assert HydrateTail(d, xml).detail == t;
    assert d6.startDate == d5.startDate;
    assert t.startDate == d6.startDate && t.endDate == d6.endDate;
  }

  /** Each rating child present under a `ratings` element has given its text to that rating. */
  predicate RatingsTaken(xml: Node, t: Detail)
  {
    Find(xml, "ratings").Some? ==>
      var ratings := Find(xml, "ratings").value;
      && (Find(ratings, "permanent").Some? ==> t.ratingPermanent == Find(ratings, "permanent").value.text)
      && (Find(ratings, "temporary").Some? ==> t.ratingTemporary == Find(ratings, "temporary").value.text)
      && (Find(ratings, "review").Some? ==> t.ratingReview == Find(ratings, "review").value.text)
  }

  /** The ratings are set before any section that can raise, so every tail holds them. */
  lemma HydrateTailRatings(d: Detail, xml: Node)
    ensures RatingsTaken(xml, HydrateTail(d, xml).detail)
  {
    var d1 := WithRatings(WithPicture(d, xml), xml);
    assert RatingsTaken(xml, d1);
    var d3 := WithCategories(d1, xml);
    assert RatingsTaken(xml, d3);
    match WithTags(d3, xml)
    case Failure(_) =>
    case Success(d4) =>
      assert RatingsTaken(xml, d4);
      match WithStartDate(d4, xml)
      case Failure(_) =>
      case Success(d5) =>
        assert RatingsTaken(xml, d5);
        match WithEndDate(d5, xml)
        case Failure(_) =>
        case Success(d6) =>
          assert RatingsTaken(xml, WithDescription(d6, xml));
  }

  /** A complete fill with a titles wrapper takes each present simple section from its element. */
  lemma HydratePresentSections(d: Detail, xml: Node)
    requires Find(xml, "titles").Some? && Hydrate(d, xml).error.None?
    ensures var t := Hydrate(d, xml).detail;
            && (Find(xml, "picture").Some? ==> t.picture == Some(Picture(Find(xml, "picture").value.text)))
            && (Find(xml, "categories").Some? ==> t.categories == MapCategories(Find(xml, "categories").value.children))
            && (Find(xml, "startdate").Some? ==> Helper.ParseDate(Find(xml, "startdate").value.text) == Success(t.startDate))
            && (Find(xml, "enddate").Some? ==> Helper.ParseDate(Find(xml, "enddate").value.text) == Success(t.endDate))
            && (Find(xml, "description").Some? ==> t.description == Find(xml, "description").value.text)
            && RatingsTaken(xml, t)
  {
    HydrateReachesTail(d, xml);
    var ts := ParseTitles(Find(xml, "titles").value.children).value;
    var d1 := d.(titles := ts, synonyms := Synonyms(ts));
    HydrateTailPresent(WithEpisodes(d1, xml).value, xml);
    HydrateTailDates(WithEpisodes(d1, xml).value, xml);
    HydrateTailRatings(WithEpisodes(d1, xml).value, xml);
  }

  /** `[Category(self, c) for c in nodes]`. */
  function MapCategories(nodes: seq<Node>): (r: seq<Category>)
    ensures |r| == |nodes| && forall i :: 0 <= i < |nodes| ==> r[i] == ParseCategory(nodes[i])
  {
    MapPointwise(nodes, ParseCategory);
    Map(nodes, ParseCategory)
  }

  /** What `Anime` reads through its back-reference to the client: the default
      language, the client identity sent with each request, and the session's `get`. */
  datatype ClientContext = ClientContext(lang: string, clientName: string, clientVersion: int,
                                         session: Query -> Result<Node>)

  /** The query `load()` sends to the detail endpoint. */
  datatype Query = Query(client: string, clientVersion: int, protocolVersion: int, request: string, aid: int)

  function DetailQuery(ctx: ClientContext, id: int): Query
  {
    Query(ctx.clientName, ctx.clientVersion, 1, "anime", id)
  }

  class Anime {
    const context: ClientContext
    const id: int
    var titles: seq<Title>
    var synonyms: seq<Title>
    var allEpisodes: seq<Episode>
    var episodes: map<Number, Episode>
    var picture: Option<Picture>
    var ratingPermanent: Option<string>
    var ratingTemporary: Option<string>
    var ratingReview: Option<string>
    var categories: seq<Category>
    var tags: seq<Tag>
    var startDate: Option<Helper.Date>
    var endDate: Option<Helper.Date>
    var description: Option<string>
    var loaded: bool
    var xml: Option<Node>

    function Snapshot(): Detail
      reads this
    {
      Detail(titles, synonyms, allEpisodes, episodes, picture, ratingPermanent, ratingTemporary,
             ratingReview, categories, tags, startDate, endDate, description)
    }

    /** The assignments of `__init__` before any XML is read. */
    constructor (context: ClientContext, id: int)
      ensures this.context == context && this.id == id
      ensures Snapshot() == EMPTY_DETAIL && !loaded && xml.None?
    {
      this.context := context;
      this.id := id;
      titles, synonyms, allEpisodes, episodes := [], [], [], map[];
      picture := None;
      ratingPermanent, ratingTemporary, ratingReview := None, None, None;
      categories, tags := [], [];
      startDate, endDate, description := None, None, None;
      loaded := false;
      xml := None;
    }

    /** `fill_from_xml(node)`, returning the exception it raised, if any; the fields
        assigned before the exception keep their new values. */
    method FillFromXml(node: Node) returns (error: Option<Error>)
      modifies this
      ensures Snapshot() == Hydrate(old(Snapshot()), node).detail
      ensures error == Hydrate(old(Snapshot()), node).error
      ensures loaded == old(loaded) && xml == old(xml)
    {
      var wrapper := Find(node, "titles");
      if wrapper.None? {
        var parsed := ParseTitles(FindAll(node, "title"));
        if parsed.Failure? {
          return Some(parsed.error);
        }
        titles := parsed.value;
        return None;
      }
      var parsed := ParseTitles(wrapper.value.children);
      if parsed.Failure? {
        return Some(parsed.error);
      }
      titles := parsed.value;
      synonyms := Synonyms(titles);
      error := FillEpisodes(node);
      if error.Some? {
        return;
      }
      error := FillTail(node);
    }

    method FillEpisodes(node: Node) returns (error: Option<Error>)
      modifies this
      ensures Stepped(WithEpisodes(old(Snapshot()), node), old(Snapshot()), Snapshot(), error)
      ensures loaded == old(loaded) && xml == old(xml)
    {
      ghost var before := Snapshot();
      var episodesNode := Find(node, "episodes");
      if episodesNode.Some? {
        var parsed := MapAll(episodesNode.value.children, ParseEpisode);
        if parsed.Failure? {
          assert WithEpisodes(before, node) == Failure(parsed.error);
          return Some(parsed.error);
        }
        allEpisodes := SortEpisodes(parsed.value);
        episodes := EpisodeIndex(allEpisodes);
        assert Snapshot() == before.(allEpisodes := allEpisodes, episodes := episodes);
      }
      return None;
    }

    /** The sections of `fill_from_xml` after the episodes. */
    method FillTail(node: Node) returns (error: Option<Error>)
      modifies this
      ensures Snapshot() == HydrateTail(old(Snapshot()), node).detail
      ensures error == HydrateTail(old(Snapshot()), node).error
      ensures loaded == old(loaded) && xml == old(xml)
    {
      FillPicture(node);
      FillRatings(node);
      FillCategories(node);
      error := FillTags(node);
      if error.Some? {
        return;
      }
      error := FillStartDate(node);
      if error.Some? {
        return;
      }
      error := FillEndDate(node);
      if error.Some? {
        return;
      }
      FillDescription(node);
    }

    method FillPicture(node: Node)
      modifies this
      ensures Snapshot() == WithPicture(old(Snapshot()), node)
      ensures loaded == old(loaded) && xml == old(xml)
    {
      var pictureNode := Find(node, "picture");
      if pictureNode.Some? {
        picture := Some(Picture(pictureNode.value.text));
      }
    }

    method FillRatings(node: Node)
      modifies this
      ensures Snapshot() == WithRatings(old(Snapshot()), node)
      ensures loaded == old(loaded) && xml == old(xml)
    {
      var ratings := Find(node, "ratings");
      if ratings.Some? {
        ratingPermanent := Rating(ratings.value, "permanent", ratingPermanent);
        ratingTemporary := Rating(ratings.value, "temporary", ratingTemporary);
        ratingReview := Rating(ratings.value, "review", ratingReview);
      }
    }

    method FillCategories(node: Node)
      modifies this
      ensures Snapshot() == WithCategories(old(Snapshot()), node)
      ensures loaded == old(loaded) && xml == old(xml)
    {
      var categoriesNode := Find(node, "categories");
      if categoriesNode.Some? {
        categories := MapCategories(categoriesNode.value.children);
      }
    }

    method FillTags(node: Node) returns (error: Option<Error>)
      modifies this
      ensures Stepped(WithTags(old(Snapshot()), node), old(Snapshot()), Snapshot(), error)
      ensures loaded == old(loaded) && xml == old(xml)
    {
      var tagsNode := Find(node, "tags");
      if tagsNode.Some? {
        var parsed := MapAll(tagsNode.value.children, ParseTag);
        if parsed.Failure? {
          return Some(parsed.error);
        }
        tags := SortTags(parsed.value);
      }
      return None;
    }

    method FillStartDate(node: Node) returns (error: Option<Error>)
      modifies this
      ensures Stepped(WithStartDate(old(Snapshot()), node), old(Snapshot()), Snapshot(), error)
      ensures loaded == old(loaded) && xml == old(xml)
    {
      var startNode := Find(node, "startdate");
      if startNode.Some? {
        var parsed := Helper.ParseDate(startNode.value.text);
        if parsed.Failure? {
          return Some(parsed.error);
        }
        startDate := parsed.value;
      }
      return None;
    }

    method FillEndDate(node: Node) returns (error: Option<Error>)
      modifies this
      ensures Stepped(WithEndDate(old(Snapshot()), node), old(Snapshot()), Snapshot(), error)
      ensures loaded == old(loaded) && xml == old(xml)
    {
      var endNode := Find(node, "enddate");
      if endNode.Some? {
        var parsed := Helper.ParseDate(endNode.value.text);
        if parsed.Failure? {
          return Some(parsed.error);
        }
        endDate := parsed.value;
      }
      return None;
    }

    method FillDescription(node: Node)
      modifies this
      ensures Snapshot() == WithDescription(old(Snapshot()), node)
      ensures loaded == old(loaded) && xml == old(xml)
    {
      var descriptionNode := Find(node, "description");
      if descriptionNode.Some? {
        description := descriptionNode.value.text;
      }
    }

    /** `load()`: fetch the detail document through the session, keep it, fill from it
        and only then mark the entity loaded. */
    method Load() returns (error: Option<Error>)
      modifies this
      ensures old(loaded) ==> loaded
      ensures var response := context.session(DetailQuery(context, id));
              match response
              case Failure(e) =>
                error == Some(e) && Snapshot() == old(Snapshot()) && loaded == old(loaded) && xml == old(xml)
              case Success(doc) =>
                var h := Hydrate(old(Snapshot()), doc);
                && xml == Some(doc)
                && Snapshot() == h.detail && error == h.error
                && loaded == (old(loaded) || h.error.None?)
    {
      var response := context.session(DetailQuery(context, id));
      if response.Failure? {
        return Some(response.error);
      }
      xml := Some(response.value);
      error := FillFromXml(response.value);
      if error.Some? {
        return;
      }
      loaded := true;
    }

    /** `get_title(type, lang)`. */
    function GetTitle(kind: Option<string>, lang: Option<string>): Option<Title>
      reads this
    {
      TitleLookup(titles, kind, lang, context.lang)
    }

    /** The `title` property: `get_title("main")`. */
    function MainTitle(): Option<Title>
      reads this
    {
      GetTitle(Some("main"), None)
    }
  }

  /** `Anime.get_title` over a title list: first by type (default "main"), then by
      language (default the client's), else None. */
  function TitleLookup(titles: seq<Title>, kind: Option<string>, lang: Option<string>, clientLang: string): (r: Option<Title>)
    ensures var k := if Truthy(kind) then kind.value else "main";
            var l := if Truthy(lang) then lang.value else clientLang;
            && (r.None? <==> forall t :: t in titles ==> t.kind != Some(k) && t.lang != l)
            && ((exists t :: t in titles && t.kind == Some(k)) ==>
                  r.Some? && r.value.kind == Some(k) &&
                  exists i :: 0 <= i < |titles| && titles[i] == r.value && forall j :: 0 <= j < i ==> titles[j].kind != Some(k))
            && ((forall t :: t in titles ==> t.kind != Some(k)) && r.Some? ==>
                  r.value.lang == l &&
                  exists i :: 0 <= i < |titles| && titles[i] == r.value && forall j :: 0 <= j < i ==> titles[j].lang != l)
  {
    var k := if Truthy(kind) then kind.value else "main";
    match First(titles, (t: Title) => t.kind == Some(k))
    case Some(t) => Some(t)
    case None =>
      var l := if Truthy(lang) then lang.value else clientLang;
      First(titles, (t: Title) => t.lang == l)
  }

  /** What `__init__` leaves before `load()`: the defaults, filled from `xml` when it
      is a node with children (an Element with none is false in Python). */
  function Seed(xml: Option<Node>): Fill
  {
    if xml.Some? && |xml.value.children| > 0 then Hydrate(EMPTY_DETAIL, xml.value) else Fill(EMPTY_DETAIL, None)
  }

  /** `Anime(anidb, id, auto_load, xml)`: the seed, then `_loaded = False`, then
      `load()` when asked. An exception leaves no object. */
  method NewAnime(context: ClientContext, id: int, autoLoad: bool, xml: Option<Node>) returns (r: Result<Anime>)
    ensures r.Success? ==> fresh(r.value) && r.value.id == id && r.value.context == context
    ensures r.Success? ==> (r.value.loaded <==> autoLoad)
    ensures !autoLoad ==> (r.Success? <==> Seed(xml).error.None?)
    ensures !autoLoad && r.Success? ==> r.value.Snapshot() == Seed(xml).detail && r.value.xml.None?
    ensures autoLoad ==>
              var response := context.session(DetailQuery(context, id));
              && (r.Success? <==> Seed(xml).error.None? && response.Success? && Hydrate(Seed(xml).detail, response.value).error.None?)
              && (r.Success? ==> r.value.Snapshot() == Hydrate(Seed(xml).detail, response.value).detail && r.value.xml == Some(response.value))
  {
    var anime := new Anime(context, id);
    if xml.Some? && |xml.value.children| > 0 {
      var error := anime.FillFromXml(xml.value);
      if error.Some? {
        return Failure(error.value);
      }
    }
    anime.loaded := false;
    if autoLoad {
      var error := anime.Load();
      if error.Some? {
        return Failure(error.value);
      }
    }
    return Success(anime);
  }
}
