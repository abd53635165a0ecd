/** What `parse_cms_data` guarantees about its output: when it raises, which
    entries and tokens are kept, the defaults it fills in, that only the first
    play scheme matters, and that serialising episodes and parsing them back is
    the identity. */
module CmsProperties {
  import opened Wrappers
  import opened PyStr
  import Json
  import opened CmsParser

  /** Parsing raises exactly when some entry is unreadable. */
  lemma {:induction false} ParseFailsExactly(items: seq<Json.Value>)
    ensures ParseItems(items).Err? <==> exists k :: 0 <= k < |items| && !Readable(items[k])
    decreases |items|
  {
    if items != [] {
      var init := items[..|items| - 1];
      ParseFailsExactly(init);
      assert forall k :: 0 <= k < |init| ==> init[k] == items[k];
      if ParseItems(init).Err? {
        var k :| 0 <= k < |init| && !Readable(init[k]);
        assert !Readable(items[k]);
      } else if !Readable(items[|items| - 1]) {
      } else {
        forall k | 0 <= k < |items| ensures Readable(items[k]) {
          if k < |init| {
            assert init[k] == items[k];
          }
        }
      }
    }
  }

  /** A readable entry yields no title exactly when its play string yields no episode. */
  lemma EntryDroppedIffNoEpisodes(item: Json.Value)
    requires Readable(item)
    ensures ParseItems([item]) == Ok([]) <==> PlayUrlEpisodes(PlayUrl(item.fields).value) == []
  {
    assert [item][..0] == [];
  }

  /** The one title an entry yields: its episodes, and each field copied when
      present or defaulted when missing. */
  lemma TitleOfEntry(item: Json.Value, t: Title)
    requires ParseItems([item]) == Ok([t])
    ensures item.Object? && PlayUrl(item.fields).Ok?
    ensures t.videos == PlayUrlEpisodes(PlayUrl(item.fields).value) && t.videos != []
    ensures t.name == (if "vod_name" in item.fields then item.fields["vod_name"] else Json.Str(UnknownName))
    ensures t.vodPic == (if "vod_pic" in item.fields then item.fields["vod_pic"] else Json.Str(""))
    ensures t.vodId == (if "vod_id" in item.fields then item.fields["vod_id"] else Json.Str(""))
    ensures t.vodDoubanId == (if "vod_douban_id" in item.fields then item.fields["vod_douban_id"] else Json.Str(""))
  {
    assert [item][..0] == [];
    assert ParseItems([item]) == AddEntry(Ok([]), item);
    var entry := EntryTitle(item);
    assert entry.Ok? && entry.value.Some?;
    assert [] + [entry.value.value] == [t];
    assert entry.value.value == ([] + [entry.value.value])[0] == t;
    assert item.Object? && PlayUrl(item.fields).Ok?;
    assert t == MakeTitle(item.fields, PlayUrlEpisodes(PlayUrl(item.fields).value));
  }

  /** A missing `vod_play_url` reads as the empty string, which yields no episode. */
  lemma MissingPlayUrlDropsEntry(item: Json.Value)
    requires item.Object? && "vod_play_url" !in item.fields
    ensures ParseItems([item]) == Ok([])
  {
    assert [item][..0] == [];
    assert Split("", SchemeSeparator) == [""];
    assert Split("", [EpisodeSeparator]) == [""];
    assert Split("", [PartSeparator]) == [""];
    assert [""][..0] == [];
  }

  // ---------------------------------------------------------------------------
  // Only the first play scheme is read

  /** `s` has no `$$$` and does not end in `$`: the first `$$$` of `s + "$$$" + t`
      is then the one just after `s`. */
  predicate CleanScheme(s: string) {
    !Contains(s, SchemeSeparator) && (s == [] || s[|s| - 1] != PartSeparator)
  }

  lemma {:induction false} FirstSchemeOfAppended(s: string, t: string)
    requires CleanScheme(s)
    ensures FirstScheme(s + SchemeSeparator + t) == s
  {
    var u := s + SchemeSeparator + t;
    forall j | 0 <= j < |s| ensures !OccursAt(u, SchemeSeparator, j) {
      if j + 3 <= |s| {
        assert u[j..j + 3] == s[j..j + 3];
        assert !OccursAt(s, SchemeSeparator, j);
      } else {
        assert u[j..j + 3][|s| - 1 - j] == u[|s| - 1] == s[|s| - 1];
      }
    }
    SplitHeadAt(s, SchemeSeparator, t);
  }

  /** Appending further play schemes to a clean first scheme changes no episode. */
  lemma AlternateSchemesIgnored(s: string, t: string)
    requires CleanScheme(s)
    ensures PlayUrlEpisodes(s + SchemeSeparator + t) == PlayUrlEpisodes(s)
  {
    FirstSchemeOfAppended(s, t);
    FirstSchemeOfAppended(s, "");
    SplitWithout(s, SchemeSeparator);
  }

  /** Two entries that parse alike can replace each other anywhere in a list. */
  lemma SameEntrySameParse(a: seq<Json.Value>, x: Json.Value, y: Json.Value, b: seq<Json.Value>)
    requires EntryTitle(x) == EntryTitle(y)
    ensures ParseItems(a + [x] + b) == ParseItems(a + [y] + b)
  {
    assert (a + [x])[..|a|] == a && (a + [y])[..|a|] == a;
    assert ParseItems(a + [x]) == AddEntry(ParseItems(a), x);
    assert ParseItems(a + [y]) == AddEntry(ParseItems(a), y);
    ParseItemsAppend(a + [x], b);
    ParseItemsAppend(a + [y], b);
  }

  /** An entry whose play string gains further schemes parses as before. */
  lemma EntryWithAlternateSchemes(fields: map<string, Json.Value>, s: string, t: string)
    requires "vod_play_url" in fields && fields["vod_play_url"] == Json.Str(s)
    requires CleanScheme(s)
    ensures EntryTitle(Json.Object(fields["vod_play_url" := Json.Str(s + SchemeSeparator + t)]))
         == EntryTitle(Json.Object(fields))
  {
    var fields' := fields["vod_play_url" := Json.Str(s + SchemeSeparator + t)];
    AlternateSchemesIgnored(s, t);
    assert PlayUrl(fields') == Ok(s + SchemeSeparator + t);
    assert PlayUrl(fields) == Ok(s);
    var videos := PlayUrlEpisodes(s);
    assert MakeTitle(fields', videos) == MakeTitle(fields, videos);
  }

  /** The same, for one entry of a whole catalogue list. */
  lemma AlternateSchemesIgnoredInList(items: seq<Json.Value>, i: nat, s: string, t: string)
    requires i < |items| && items[i].Object?
    requires "vod_play_url" in items[i].fields && items[i].fields["vod_play_url"] == Json.Str(s)
    requires CleanScheme(s)
    ensures ParseItems(items[i := Json.Object(items[i].fields["vod_play_url" := Json.Str(s + SchemeSeparator + t)])])
         == ParseItems(items)
  {
    var item := items[i];
    var item' := Json.Object(item.fields["vod_play_url" := Json.Str(s + SchemeSeparator + t)]);
    EntryWithAlternateSchemes(item.fields, s, t);
    var a, b := items[..i], items[i + 1..];
    assert items == a + [item] + b;
    assert items[i := item'] == a + [item'] + b;
    SameEntrySameParse(a, item', item, b);
  }

  /** The condition on the first scheme cannot be dropped: a first scheme ending
      in `$` merges with the `$$$` that follows it. */
  lemma TrailingPartSeparatorJoinsNextScheme()
    ensures !Contains("a$", SchemeSeparator)
    ensures PlayUrlEpisodes("a$") == [Episode("a", "")]
    ensures PlayUrlEpisodes("a$" + SchemeSeparator + "b") == []
  {
    assert !OccursAt("a$", SchemeSeparator, 0) && !OccursAt("a$", SchemeSeparator, 1);
    assert !OccursAt("a$", SchemeSeparator, 2);
    assert Split("a$", SchemeSeparator) == ["a$"];
    assert "a$"[0..1] == "a";
    assert Split("a$", [EpisodeSeparator]) == ["a$"];
    assert Find("a$", [PartSeparator]) == Some(1);
    assert Split("", [PartSeparator]) == [""];
    assert Split("a$", [PartSeparator]) == ["a", ""];
    assert ["a$"][..0] == [];

    var u := "a$" + SchemeSeparator + "b";
    assert u == "a$$$$b";
    assert u[0..3][0] == 'a';
    assert u[0..3] != SchemeSeparator;
    assert u[1..4] == SchemeSeparator;
    assert FindFrom(u, SchemeSeparator, 1) == Some(1);
    assert FindFrom(u, SchemeSeparator, 0) == Some(1);
    assert Find(u, SchemeSeparator) == Some(1);
    assert u[..1] == "a";
    assert FirstScheme(u) == "a";
    assert Split("a", [EpisodeSeparator]) == ["a"];
    assert Split("a", [PartSeparator]) == ["a"];
    assert ["a"][..0] == [];
  }

  // ---------------------------------------------------------------------------
  // Tokens

  /** Each token contributes on its own: the episodes of two token lists
      concatenated are the two lists' episodes concatenated. */
  lemma {:induction false} EpisodesAppend(a: seq<string>, b: seq<string>)
    ensures Episodes(a + b) == Episodes(a) + Episodes(b)
    decreases |b|
  {
    if b == [] {
      assert a + b == a;
    } else {
      var init := b[..|b| - 1];
      assert (a + b)[..|a + b| - 1] == a + init;
      assert (a + b)[|a + b| - 1] == b[|b| - 1];
      EpisodesAppend(a, init);
    }
  }

  /** A token that `$` does not split into exactly two parts is dropped and
      leaves its neighbours' episodes untouched. */
  lemma MalformedTokenDropped(a: seq<string>, token: string, b: seq<string>)
    requires |Split(token, [PartSeparator])| != 2
    ensures Episodes(a + [token] + b) == Episodes(a + b)
  {
    EpisodesAppend(a + [token], b);
    EpisodesAppend(a, [token]);
    EpisodesAppend(a, b);
    assert [token][..0] == [];
  }

  /** A token that `$` splits into exactly two parts becomes exactly one episode,
      in its place among its neighbours'. */
  lemma WellFormedTokenKept(a: seq<string>, token: string, b: seq<string>)
    requires |Split(token, [PartSeparator])| == 2
    ensures Episodes(a + [token] + b)
         == Episodes(a) + [Episode(Split(token, [PartSeparator])[0], Split(token, [PartSeparator])[1])] + Episodes(b)
  {
    EpisodesAppend(a + [token], b);
    EpisodesAppend(a, [token]);
    assert [token][..0] == [];
  }

  /** When every token is well formed, the episodes are the tokens, one for one. */
  lemma {:induction false} AllTokensWellFormed(tokens: seq<string>)
    requires forall k :: 0 <= k < |tokens| ==> |Split(tokens[k], [PartSeparator])| == 2
    ensures |Episodes(tokens)| == |tokens|
    ensures forall k :: 0 <= k < |tokens| ==> Some(Episodes(tokens)[k]) == TokenEpisode(tokens[k])
    decreases |tokens|
  {
    if tokens != [] {
      var init, last := tokens[..|tokens| - 1], tokens[|tokens| - 1];
      assert forall k :: 0 <= k < |init| ==> init[k] == tokens[k];
      AllTokensWellFormed(init);
      var e := TokenEpisode(last);
      assert e.Some?;
      var eps, initEps := Episodes(tokens), Episodes(init);
      assert eps == initEps + [e.value];
      forall k | 0 <= k < |tokens| ensures Some(eps[k]) == TokenEpisode(tokens[k]) {
        if k < |init| {
          assert eps[k] == initEps[k];
        }
      }
    }
  }

  /** No episode name or URL holds a character that is in none of the tokens. */
  lemma {:induction false} EpisodesWithout(tokens: seq<string>, c: char)
    requires forall k :: 0 <= k < |tokens| ==> c !in tokens[k]
    ensures forall e :: e in Episodes(tokens) ==> c !in e.name && c !in e.videoUrl
    decreases |tokens|
  {
    if tokens != [] {
      var init := tokens[..|tokens| - 1];
      EpisodesWithout(init, c);
      var last := tokens[|tokens| - 1];
      match TokenEpisode(last)
      case None =>
      case Some(e) =>
        assert last == e.name + [PartSeparator] + e.videoUrl;
        assert c !in last;
    }
  }

  /** Every episode parsed from a play string is free of both separators. */
  lemma EpisodesHaveNoSeparators(playUrl: string)
    ensures forall e :: e in PlayUrlEpisodes(playUrl) ==>
      EpisodeSeparator !in e.name && EpisodeSeparator !in e.videoUrl &&
      PartSeparator !in e.name && PartSeparator !in e.videoUrl
  {
    var tokens := Split(FirstScheme(playUrl), [EpisodeSeparator]);
    SplitPiecesLackSeparator(FirstScheme(playUrl), [EpisodeSeparator]);
    forall k | 0 <= k < |tokens| ensures EpisodeSeparator !in tokens[k] {
      NotContainsChar(tokens[k], EpisodeSeparator);
    }
    EpisodesWithout(tokens, EpisodeSeparator);
  }

  // ---------------------------------------------------------------------------
  // Round trip

  /** An episode whose name and URL hold neither separator. */
  predicate Plain(e: Episode) {
    EpisodeSeparator !in e.name && EpisodeSeparator !in e.videoUrl &&
    PartSeparator !in e.name && PartSeparator !in e.videoUrl
  }

  /** The token `name$url` of one episode. */
  function Token(e: Episode): string
  {
    Join([e.name, e.videoUrl], [PartSeparator])
  }

  function Tokens(eps: seq<Episode>): seq<string>
  {
    seq(|eps|, k requires 0 <= k < |eps| => Token(eps[k]))
  }

  /** The play string of a list of episodes: their tokens joined with `#`. */
  function PlayString(eps: seq<Episode>): string
  {
    Join(Tokens(eps), [EpisodeSeparator])
  }

  /** No two `$` stand next to each other. */
  predicate NoDoubledPart(s: string) {
    forall j :: 0 <= j < |s| - 1 && s[j] == PartSeparator ==> s[j + 1] != PartSeparator
  }

  lemma NoDoubledPartConcat(a: string, b: string)
    requires NoDoubledPart(a) && NoDoubledPart(b)
    requires a == [] || b == [] || a[|a| - 1] != PartSeparator || b[0] != PartSeparator
    ensures NoDoubledPart(a + b)
  {
    var u := a + b;
    forall j | 0 <= j < |u| - 1 && u[j] == PartSeparator ensures u[j + 1] != PartSeparator {
      if j + 1 < |a| {
        assert u[j] == a[j] && u[j + 1] == a[j + 1];
      } else if j >= |a| {
        assert u[j] == b[j - |a|] && u[j + 1] == b[j + 1 - |a|];
      }
    }
  }

  lemma NoDoubledPartMeansOneScheme(s: string)
    requires NoDoubledPart(s)
    ensures !Contains(s, SchemeSeparator)
  {
    forall j | 0 <= j <= |s| ensures !OccursAt(s, SchemeSeparator, j) {
      if j + 3 <= |s| {
        assert s[j..j + 3][0] == s[j] && s[j..j + 3][1] == s[j + 1];
      }
    }
  }

  lemma {:induction false} PlayStringNoDoubledPart(tokens: seq<string>)
    requires forall k :: 0 <= k < |tokens| ==> NoDoubledPart(tokens[k])
    ensures NoDoubledPart(Join(tokens, [EpisodeSeparator]))
    decreases |tokens|
  {
    if |tokens| > 1 {
      var rest := Join(tokens[1..], [EpisodeSeparator]);
      PlayStringNoDoubledPart(tokens[1..]);
      NoDoubledPartConcat([EpisodeSeparator], rest);
      NoDoubledPartConcat(tokens[0], [EpisodeSeparator] + rest);
      assert Join(tokens, [EpisodeSeparator]) == tokens[0] + ([EpisodeSeparator] + rest);
    }
  }

  lemma PlainToken(e: Episode)
    requires Plain(e)
    ensures NoDoubledPart(Token(e)) && EpisodeSeparator !in Token(e)
    ensures TokenEpisode(Token(e)) == Some(e)
  {
    NoDoubledPartConcat(e.name, [PartSeparator]);
    NoDoubledPartConcat(e.name + [PartSeparator], e.videoUrl);
    assert [e.name, e.videoUrl][1..] == [e.videoUrl];
    assert Join([e.videoUrl], [PartSeparator]) == e.videoUrl;
    assert Token(e) == e.name + [PartSeparator] + e.videoUrl;
    JoinSplit([e.name, e.videoUrl], PartSeparator);
  }

  lemma EpisodesOfTokens(eps: seq<Episode>)
    requires forall k :: 0 <= k < |eps| ==> Plain(eps[k])
    ensures Episodes(Tokens(eps)) == eps
  {
    var tokens := Tokens(eps);
    forall k | 0 <= k < |tokens| ensures TokenEpisode(tokens[k]) == Some(eps[k]) {
      PlainToken(eps[k]);
    }
    AllTokensWellFormed(tokens);
  }

  /** Joining plain episodes as `name$url` with `#` and parsing the result gives
      back exactly those episodes, in order. */
  lemma RoundTrip(eps: seq<Episode>)
    requires forall k :: 0 <= k < |eps| ==> Plain(eps[k])
    ensures PlayUrlEpisodes(PlayString(eps)) == eps
  {
    var tokens := Tokens(eps);
    var s := PlayString(eps);
    if eps == [] {
      assert s == "";
      assert Split("", SchemeSeparator) == [""];
      assert Split("", [EpisodeSeparator]) == [""];
      assert Split("", [PartSeparator]) == [""];
      assert [""][..0] == [];
    } else {
      forall k | 0 <= k < |tokens| ensures NoDoubledPart(tokens[k]) && EpisodeSeparator !in tokens[k] {
        PlainToken(eps[k]);
      }
      PlayStringNoDoubledPart(tokens);
      NoDoubledPartMeansOneScheme(s);
      SplitWithout(s, SchemeSeparator);
      JoinSplit(tokens, EpisodeSeparator);
      EpisodesOfTokens(eps);
    }
  }
}
