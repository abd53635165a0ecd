# FreeBili search core in Dafny

FreeBili is a video search aggregator. A search sends one keyword to several
Apple CMS catalogue APIs at once. It parses each API's list of catalogue
entries into titles with episodes, and streams every source's non-empty
result to the browser as a server-sent event, in the order the sources
answer.

This project models the parts of `main.py` that decide what the user sees:

- `parse_cms_data`, the catalogue parser. An entry's `vod_play_url` holds
  play schemes separated by `$$$`, and only the first scheme is read. That
  scheme holds `#`-separated tokens. A token that `$` splits into exactly two
  parts is one episode, `name$url`. Entries with no episode are dropped.
  Missing fields get defaults. The parser is modelled twice:
  - as the imperative nested loop it is (`CmsParser.ParseCmsData`, with its
    inner loop `CmsParser.SchemeEpisodes`);
  - as recursive specification functions (`ParseItems`, `Episodes`) that the
    loops are proved to compute.
- Python's `str.split` (`PyStr.Split`), modelled exactly:
  - occurrences are found leftmost first and do not overlap;
  - `"".split(x)` is `[""]`.
- The request URL of `fetch_and_process`.
- The rule that decides when a fetched body is parsed
  (`Search.FetchAndProcess`).
- The emit-or-skip filter and the `data: …\n\n` framing of
  `search_event_generator`. The completion order of the concurrent fetches is
  an input sequence (`Search.SearchEventGenerator`).

Modules:

| file | module | contents |
|---|---|---|
| `wrappers.dfy` | `Wrappers` | `Option`, `Result` |
| `json.dfy` | `Json` | decoded JSON values, Python truthiness, `dict.get`, `== 1` |
| `pystr.dfy` | `PyStr` | `str.find`, `str.split`, `str.join` and their round trips |
| `cms_parser.dfy` | `CmsParser` | the parser: specification functions and the loop methods |
| `cms_properties.dfy` | `CmsProperties` | what the parser guarantees |
| `seq_filter.dfy` | `SeqFilter` | keeping the present results along a sequence |
| `search.dfy` | `Search` | URL, acceptance rule, emission, framing, the event loop |

Behaviour of the code that the model keeps:

- The parser is not total.
  - An entry that is not a JSON object has no `get`, so Python raises
    `AttributeError`.
  - A `vod_play_url` that is present but not a string has no `split`, so
    Python raises as well.

  The model returns `Err(ItemNotObject)` or `Err(PlayUrlNotString)` from the
  first such entry on. `fetch_and_process` catches the exception, and the
  whole source then yields nothing (`Search.FetchAndProcess`).
- An episode needs `$` to split its token into exactly two parts, but either
  part may be empty: `"$url"` and `"name$"` are both kept.
- The keyword is appended to the URL as it is, without percent-encoding.
- `code == 1` also accepts `1.0` and `true`, as Python's equality does.
- `list` has to be a non-empty array. A non-empty `list` of another type is
  truthy, so it passes the `data.get("list")` test. It then raises while it is iterated, and
  the source yields nothing.

## Model

| member | source | states |
|---|---|---|
| PyStr.Find | main.py:54 | the index found is an occurrence of the separator and no earlier index is; none is found exactly when the string does not contain the separator |
| PyStr.SplitJoin | main.py:54 | joining the pieces of a split with the same separator gives back the original string |
| PyStr.SplitPiecesLackSeparator | main.py:57-59 | no piece of a split contains the separator |
| PyStr.JoinSplit | main.py:57-59 | for a one-character separator, splitting pieces that were joined with it gives back the pieces when none contains it |
| PyStr.SplitWithout | main.py:54 | a string without the separator splits into itself alone |
| PyStr.SplitHeadAt | main.py:54 | when the first occurrence of the separator directly follows `s`, the first piece of the split is `s` and the rest is the split of what follows |
| CmsParser.TokenEpisode | main.py:59-62 | a token is an episode exactly when `$` splits it into two parts; the token is then `name$url`, and neither part holds `$` |
| CmsParser.Episodes | main.py:56-62 | a scheme's tokens give at most one episode each, and no episode name or URL holds `$` |
| CmsParser.SchemeEpisodes | main.py:56-62 | the inner loop over `#`-tokens computes exactly the episodes of the scheme |
| CmsParser.ParseItems | main.py:52-71 | on success there are at most as many titles as entries, and every title has at least one episode |
| CmsParser.Parsed | main.py:73-76 | a result is named after the source, and an empty entry list gives `{"name": source_name, "result": []}` |
| CmsParser.ParseCmsData | main.py:48-76 | the nested loops return exactly the parse of the entry list, or the error of its first unreadable entry |
| CmsParser.ErrorEndsParse | main.py:53-54 | once a prefix of the entries raises, the whole list raises the same error |
| CmsParser.ParseItemsAppend | main.py:53-71 | parsing two lists in a row gives the first list's titles, then the second's, in entry order; the first error wins |
| CmsProperties.ParseFailsExactly | main.py:53-54 | parsing raises exactly when some entry is not an object or has a non-string `vod_play_url` |
| CmsProperties.EntryDroppedIffNoEpisodes | main.py:64 | a readable entry yields no title exactly when its play string yields no episode |
| CmsProperties.TitleOfEntry | main.py:64-71 | a title carries its entry's episodes; `vod_name` defaults to `未知名称`; `vod_pic`, `vod_id` and `vod_douban_id` default to `""`; present values are copied unchanged |
| CmsProperties.MissingPlayUrlDropsEntry | main.py:54 | an object entry without `vod_play_url` yields no title and raises nothing |
| CmsProperties.FirstSchemeOfAppended | main.py:54 | the first scheme of `s + "$$$" + t` is `s` when `s` has no `$$$` and does not end in `$` |
| CmsProperties.AlternateSchemesIgnored | main.py:54 | appending `"$$$" + t` to such a play string changes none of its episodes |
| CmsProperties.SameEntrySameParse | main.py:53-71 | two entries that parse alike can replace each other anywhere in a list |
| CmsProperties.EntryWithAlternateSchemes | main.py:54-71 | an entry whose play string gains further schemes yields the same title or none |
| CmsProperties.AlternateSchemesIgnoredInList | main.py:53-71 | the same for one entry of a whole list: the parse of the list is unchanged |
| CmsProperties.TrailingPartSeparatorJoinsNextScheme | main.py:54 | the condition above is needed: `"a$"` gives the episode `("a", "")`, while `"a$" + "$$$b"` gives none |
| CmsProperties.EpisodesAppend | main.py:57-62 | the episodes of two token lists in a row are the first list's episodes, then the second's |
| CmsProperties.MalformedTokenDropped | main.py:58-62 | a token that `$` does not split into two parts is dropped, and its neighbours' episodes are unchanged |
| CmsProperties.WellFormedTokenKept | main.py:58-62 | a token that `$` splits into two parts becomes exactly that one episode, in its place |
| CmsProperties.AllTokensWellFormed | main.py:57-62 | when every token is well formed there is one episode per token, in token order |
| CmsProperties.EpisodesWithout | main.py:57-62 | a character that no token holds appears in no episode name or URL |
| CmsProperties.EpisodesHaveNoSeparators | main.py:54-62 | no episode name or URL of a play string holds `#` or `$` |
| CmsProperties.RoundTrip | main.py:54-62 | joining episodes without `#` or `$` as `name$url` with `#` and parsing the result gives back exactly those episodes, in order |
| Search.UrlCarriesKeyword | main.py:82 | the request URL is the base URL, then `?ac=detail&wd=`, then the keyword unchanged |
| Search.RequestUrlInjective | main.py:82 | different keywords give different URLs for the same source |
| Search.FetchAndProcessExactly | main.py:96-103 | a fetch yields a result exactly when the request succeeded, `code` equals 1, `list` is a non-empty array and the parser does not raise; the result is that parse |
| Search.FetchedResultWellFormed | main.py:97-98 | a fetched result is named after its source and all its titles have episodes |
| Search.FrameRoundTrip | main.py:118 | the payload can be read back from its server-sent-event frame |
| Search.Emission | main.py:117-118 | an event is emitted exactly for a present result with titles, and its frame carries that result's serialisation |
| Search.SearchEventGenerator | main.py:115-118 | the loop over the settled fetches emits exactly the events of the fetches in completion order |
| Search.NoEventsIffNoResults | main.py:115-118 | there is at most one event per fetch, and none exactly when no fetch yields a result with titles |
| Search.EveryResultEmitted | main.py:115-118 | when every fetch yields a result with titles there is one event per fetch, in completion order |
| Search.ResultEmitted | main.py:115-118 | every fetch whose result has titles is emitted, whatever the other fetches yield |
| Search.EventsComeFromResults | main.py:115-118 | every event frames the result of one of the settled fetches |
| Search.EventsAppend | main.py:115-118 | fetches settling in two batches emit the first batch's events, then the second's |
| Search.EventsIndependentOfOrder | main.py:115-118 | any two completion orders of the same fetches emit the same events, as a multiset |

## Left out

- The asyncio fan-out, `as_completed` and task scheduling (main.py:109-116) are left out. The order in which fetches settle is an input sequence of completions.
- The HTTP GET is left out: its headers, timeout, redirects, `raise_for_status` and `response.json()` (main.py:84-96). It is represented only by its outcome: `Failed` for any exception, otherwise the decoded body.
- `json.dumps(result, ensure_ascii=False)` (main.py:118) is a library encoder. It is the parameter `dumps`.
- The `KeyError` raised by a source without `base_url` or `name` (main.py:82-83) is left out. It happens outside the `try`, and sources are modelled as records that always have both fields.
- The empty-keyword check of the `/search` route (main.py:125-126) is left out, with the rest of the web layer: routes, CORS, static files, templates and logging.
- Reading and updating the configuration file and the global `site_config`, including the timeout value, are I/O and global state.
- Pydantic validation of configuration updates is a library this model cannot see.
- JSON numbers are exact reals, so floating-point rounding, NaN and the infinities are not modelled. Strings are sequences of Unicode scalar values, so lone surrogates are not modelled.
- CmsProperties.AlternateSchemesIgnored: the first scheme must also not end in `$`, not only be free of `$$$`. Otherwise its trailing `$` and the appended `$$$` form an earlier `$$$` (`CmsProperties.TrailingPartSeparatorJoinsNextScheme`).
- Search.EventsIndependentOfOrder: states that the events are the same as a multiset across completion orders. Which order the network produces is not modelled.
