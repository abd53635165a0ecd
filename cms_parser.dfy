/** The Apple CMS catalogue parser (`parse_cms_data`): one source's raw list of
    catalogue entries becomes a list of titles, each with its episodes.

    A `vod_play_url` holds one or more play schemes separated by `$$$`; only the
    first is read. A scheme is a `#`-separated list of tokens, and a token that
    `$` splits into exactly two parts (either of which may be empty) is one
    episode, `name$url`. Entries without any episode are dropped. */
module CmsParser {
  import opened Wrappers
  import opened PyStr
  import Json

  /** The placeholder title name used when an entry has no `vod_name`. */
  const UnknownName: string := "未知名称"
  const SchemeSeparator: string := "$$$"
  const EpisodeSeparator: char := '#'
  const PartSeparator: char := '$'

  datatype Episode = Episode(name: string, videoUrl: string)

  /** A normalised catalogue entry. Everything but `videos` is copied from the
      raw entry as it was decoded, whatever JSON type it has. */
  datatype Title = Title(
    name: Json.Value,
    vodPic: Json.Value,
    videos: seq<Episode>,
    vodId: Json.Value,
    vodDoubanId: Json.Value)

  /** The parser's output, `{"name": source_name, "result": titles}`. */
  datatype SourceResult = SourceResult(name: string, result: seq<Title>)

  /** The two ways parsing raises in Python: an entry that is not a dict has no
      `get` method, and a `vod_play_url` that is not a string has no `split`. */
  datatype ParseError = ItemNotObject | PlayUrlNotString

  /** The text before the first `$$$`, or the whole string when there is none. */
  function FirstScheme(playUrl: string): string
  {
    Split(playUrl, SchemeSeparator)[0]
  }

  /** The episode a token stands for, when `$` splits it into exactly two parts. */
  function TokenEpisode(token: string): (r: Option<Episode>)
    ensures r.Some? <==> |Split(token, [PartSeparator])| == 2
    ensures r.Some? ==> token == r.value.name + [PartSeparator] + r.value.videoUrl
    ensures r.Some? ==> PartSeparator !in r.value.name && PartSeparator !in r.value.videoUrl
  {
    var parts := Split(token, [PartSeparator]);
    if |parts| == 2 then
      SplitJoin(token, [PartSeparator]);
      SplitPiecesLackSeparator(token, [PartSeparator]);
      NotContainsChar(parts[0], PartSeparator);
      NotContainsChar(parts[1], PartSeparator);
      Some(Episode(parts[0], parts[1]))
    else
      None
  }

  /** The episodes of a scheme's tokens, in token order. */
  function Episodes(tokens: seq<string>): (videos: seq<Episode>)
    ensures |videos| <= |tokens|
    ensures forall k :: 0 <= k < |videos| ==>
      PartSeparator !in videos[k].name && PartSeparator !in videos[k].videoUrl
  {
    if tokens == [] then []
    else
      var init := Episodes(tokens[..|tokens| - 1]);
      match TokenEpisode(tokens[|tokens| - 1])
      case None => init
      case Some(e) => init + [e]
  }

  /** The episodes a `vod_play_url` string yields. */
  function PlayUrlEpisodes(playUrl: string): seq<Episode>
  {
    Episodes(Split(FirstScheme(playUrl), [EpisodeSeparator]))
  }

  /** `item.get("vod_play_url", "")`, which must be a string for `split`. */
  function PlayUrl(fields: map<string, Json.Value>): Result<string, ParseError>
  {
    match Json.Get(fields, "vod_play_url", Json.Str(""))
    case Str(s) => Ok(s)
    case _ => Err(PlayUrlNotString)
  }

  /** The title built from an entry's fields and its episodes, with defaults for missing fields. */
  function MakeTitle(fields: map<string, Json.Value>, videos: seq<Episode>): Title
  {
    Title(
      Json.Get(fields, "vod_name", Json.Str(UnknownName)),
      Json.Get(fields, "vod_pic", Json.Str("")),
      videos,
      Json.Get(fields, "vod_id", Json.Str("")),
      Json.Get(fields, "vod_douban_id", Json.Str("")))
  }

  /** One entry's contribution: a title, nothing, or the error Python raises on it. */
  function EntryTitle(item: Json.Value): Result<Option<Title>, ParseError>
  {
    if !item.Object? then Err(ItemNotObject)
    else match PlayUrl(item.fields)
      case Err(e) => Err(e)
      case Ok(playUrl) =>
        var videos := PlayUrlEpisodes(playUrl);
        if videos == [] then Ok(None) else Ok(Some(MakeTitle(item.fields, videos)))
  }

  /** An entry the parser can read without raising. */
  predicate Readable(item: Json.Value) {
    item.Object? && PlayUrl(item.fields).Ok?
  }

  /** The titles of a list of entries, in entry order; the first unreadable entry
      ends parsing with its error. */
  function ParseItems(items: seq<Json.Value>): (r: Result<seq<Title>, ParseError>)
    ensures r.Ok? ==> |r.value| <= |items|
    ensures r.Ok? ==> forall k :: 0 <= k < |r.value| ==> r.value[k].videos != []
  {
    if items == [] then Ok([]) else AddEntry(ParseItems(items[..|items| - 1]), items[|items| - 1])
  }

  /** One loop step: the titles so far, extended by the next entry's title if it has one. */
  function AddEntry(sofar: Result<seq<Title>, ParseError>, item: Json.Value): Result<seq<Title>, ParseError>
  {
    match sofar
    case Err(e) => Err(e)
    case Ok(titles) =>
      match EntryTitle(item)
      case Err(e) => Err(e)
      case Ok(None) => Ok(titles)
      case Ok(Some(t)) => Ok(titles + [t])
  }

  /** What `parse_cms_data(source_name, cms_list)` returns or raises. */
  function Parsed(sourceName: string, cmsList: seq<Json.Value>): (r: Result<SourceResult, ParseError>)
    ensures r.Ok? ==> r.value.name == sourceName
    ensures cmsList == [] ==> r == Ok(SourceResult(sourceName, []))
  {
    match ParseItems(cmsList)
    case Err(e) => Err(e)
    case Ok(titles) => Ok(SourceResult(sourceName, titles))
  }

  /** `parse_cms_data`: nested loops that build the episode and title lists by appending. */
  method ParseCmsData(sourceName: string, cmsList: seq<Json.Value>) returns (r: Result<SourceResult, ParseError>)
    ensures r == Parsed(sourceName, cmsList)
  {
    var results: seq<Title> := [];
    for i := 0 to |cmsList|
      invariant ParseItems(cmsList[..i]) == Ok(results)
    {
      assert cmsList[..i + 1][..i] == cmsList[..i];
      var item := cmsList[i];
      if !item.Object? {
        assert ParseItems(cmsList[..i + 1]) == Err(ItemNotObject);
        ErrorEndsParse(cmsList, i + 1);
        return Err(ItemNotObject);
      }
      var playUrl := Json.Get(item.fields, "vod_play_url", Json.Str(""));
      if !playUrl.Str? {
        assert ParseItems(cmsList[..i + 1]) == Err(PlayUrlNotString);
        ErrorEndsParse(cmsList, i + 1);
        return Err(PlayUrlNotString);
      }
      var playUrlsStr := Split(playUrl.s, SchemeSeparator)[0];
      var videos := SchemeEpisodes(playUrlsStr);
      assert videos == PlayUrlEpisodes(playUrl.s);
      assert PlayUrl(item.fields) == Ok(playUrl.s);
      assert EntryTitle(item) == if videos == [] then Ok(None) else Ok(Some(MakeTitle(item.fields, videos)));
      assert AddEntry(Ok(results), item) == if videos == [] then Ok(results) else Ok(results + [MakeTitle(item.fields, videos)]);
      if videos != [] {
        results := results + [MakeTitle(item.fields, videos)];
      }
    }
    assert cmsList[..|cmsList|] == cmsList;
    r := Ok(SourceResult(sourceName, results));
  }

  /** Once a prefix of the entries raises, so does the whole list, with the same error. */
  lemma ErrorEndsParse(items: seq<Json.Value>, n: nat)
    requires n <= |items| && ParseItems(items[..n]).Err?
    ensures ParseItems(items) == ParseItems(items[..n])
  {
    ParseItemsAppend(items[..n], items[n..]);
    assert items[..n] + items[n..] == items;
  }

  /** The inner loop of `parse_cms_data`: split a scheme on `#`, keep each token
      that `$` splits into exactly two parts, as an episode. */
  method SchemeEpisodes(playUrlsStr: string) returns (videos: seq<Episode>)
    ensures videos == Episodes(Split(playUrlsStr, [EpisodeSeparator]))
  {
    videos := [];
    var episodes := Split(playUrlsStr, [EpisodeSeparator]);
    for j := 0 to |episodes|
      invariant videos == Episodes(episodes[..j])
    {
      assert episodes[..j + 1][..j] == episodes[..j];
      var parts := Split(episodes[j], [PartSeparator]);
      assert TokenEpisode(episodes[j]) == if |parts| == 2 then Some(Episode(parts[0], parts[1])) else None;
      if |parts| == 2 {
        videos := videos + [Episode(parts[0], parts[1])];
      }
    }
    assert episodes[..|episodes|] == episodes;
  }

  /** Parsing results in sequence: the first error wins, otherwise the titles are concatenated. */
  function Then(first: Result<seq<Title>, ParseError>, second: Result<seq<Title>, ParseError>): Result<seq<Title>, ParseError>
  {
    if first.Err? then first
    else if second.Err? then second
    else Ok(first.value + second.value)
  }

  /** Parsing distributes over concatenation of entry lists: titles keep entry order,
      and each entry contributes independently of its neighbours. */
  lemma {:induction false} ParseItemsAppend(a: seq<Json.Value>, b: seq<Json.Value>)
    ensures ParseItems(a + b) == Then(ParseItems(a), ParseItems(b))
    decreases |b|
  {
    if b == [] {
      assert a + b == a;
      if ParseItems(a).Ok? {
        assert ParseItems(a).value + [] == ParseItems(a).value;
      }
    } else {
      var init, last := b[..|b| - 1], b[|b| - 1];
      assert (a + b)[..|a + b| - 1] == a + init;
      assert (a + b)[|a + b| - 1] == last;
      ParseItemsAppend(a, init);
      assert ParseItems(a + b) == AddEntry(ParseItems(a + init), last);
      assert ParseItems(b) == AddEntry(ParseItems(init), last);
      ThenAddEntry(ParseItems(a), ParseItems(init), last);
    }
  }

  lemma ThenAddEntry(first: Result<seq<Title>, ParseError>, second: Result<seq<Title>, ParseError>, item: Json.Value)
    ensures Then(first, AddEntry(second, item)) == AddEntry(Then(first, second), item)
  {
    if first.Ok? && second.Ok? && EntryTitle(item).Ok? && EntryTitle(item).value.Some? {
      assert first.value + (second.value + [EntryTitle(item).value.value])
        == (first.value + second.value) + [EntryTitle(item).value.value];
    }
  }
}
