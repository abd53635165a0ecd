/** The decision rules around the parser in `fetch_and_process` and
    `search_event_generator`: the request URL for a source, when a fetched body
    is handed to the parser, which parsed results are emitted, and how each is
    framed as a server-sent event.

    The HTTP request itself (timeouts, redirects, status check, JSON decoding)
    is represented only by its outcome, a `Response`. The order in which the
    concurrent fetches complete is an input: a sequence of completions. */
module Search {
  import opened Wrappers
  import Json
  import opened CmsParser
  import opened SeqFilter

  /** One configured upstream catalogue API. */
  datatype Source = Source(name: string, baseUrl: string)

  /** The query appended to a source's base URL, before the keyword. */
  const QueryPrefix: string := "?ac=detail&wd="

  /** The request URL. The keyword is appended as it is, without percent-encoding. */
  function RequestUrl(source: Source, keyword: string): string
  {
    source.baseUrl + QueryPrefix + keyword
  }

  /** The keyword a request URL for `baseUrl` carries: everything after the query prefix. */
  function KeywordOf(url: string, baseUrl: string): Option<string>
  {
    var n := |baseUrl| + |QueryPrefix|;
    if n <= |url| && url[..n] == baseUrl + QueryPrefix then Some(url[n..]) else None
  }

  /** The keyword can be read back from the URL, character for character. */
  lemma UrlCarriesKeyword(source: Source, keyword: string)
    ensures KeywordOf(RequestUrl(source, keyword), source.baseUrl) == Some(keyword)
  {
    var url := RequestUrl(source, keyword);
    var n := |source.baseUrl| + |QueryPrefix|;
    assert url[..n] == source.baseUrl + QueryPrefix;
    assert url[n..] == keyword;
  }

  /** Distinct keywords give distinct URLs for the same source. */
  lemma RequestUrlInjective(source: Source, k1: string, k2: string)
    requires RequestUrl(source, k1) == RequestUrl(source, k2)
    ensures k1 == k2
  {
    UrlCarriesKeyword(source, k1);
    UrlCarriesKeyword(source, k2);
  }

  /** The outcome of requesting a source's URL: any exception (network error,
      timeout, a non-2xx status, a body that is not JSON) is `Failed`;
      otherwise the decoded body. */
  datatype Response = Failed | Received(body: Json.Value)

  /** `data.get("code") == 1 and data.get("list")`, on a body that is a dict. */
  predicate Accepts(data: Json.Value) {
    data.Object?
    && Json.EqualsOne(Json.Get(data.fields, "code", Json.Null))
    && Json.Truthy(Json.Get(data.fields, "list", Json.Null))
  }

  /** `fetch_and_process` after the request: the parsed result, or `None` for a
      failed request, a body of another shape, or a list the parser raises on.
      A non-empty `list` that is not an array raises as soon as it is iterated:
      a string yields string items and an object its string keys, neither of
      which has `get`, and a number or `true` is not iterable. */
  function FetchAndProcess(source: Source, response: Response): Option<SourceResult>
  {
    match response
    case Failed => None
    case Received(data) =>
      if !Accepts(data) then None
      else
        assert "list" in data.fields;
        match data.fields["list"]
        case Array(items) =>
          (match Parsed(source.name, items)
           case Ok(result) => Some(result)
           case Err(_) => None)
        case _ => None
  }

  /** A fetch yields a result exactly when the request succeeded with a dict body
      whose `code` is 1 (or `true`) and whose `list` is a non-empty array that
      parses; the result is that parse. */
  lemma FetchAndProcessExactly(source: Source, response: Response, r: SourceResult)
    ensures FetchAndProcess(source, response) == Some(r) <==>
      && response.Received? && response.body.Object?
      && "code" in response.body.fields
      && response.body.fields["code"] in {Json.Number(1.0), Json.Bool(true)}
      && "list" in response.body.fields && response.body.fields["list"].Array?
      && response.body.fields["list"].items != []
      && Parsed(source.name, response.body.fields["list"].items) == Ok(r)
  {
  }

  /** Every result a fetch yields is named after its source and holds only titles with episodes. */
  lemma FetchedResultWellFormed(source: Source, response: Response)
    requires FetchAndProcess(source, response).Some?
    ensures FetchAndProcess(source, response).value.name == source.name
    ensures forall t :: t in FetchAndProcess(source, response).value.result ==> t.videos != []
  {
  }

  /** The server-sent event carrying one payload. */
  function Frame(payload: string): string
  {
    "data: " + payload + "\n\n"
  }

  /** The payload of a server-sent event, if it is one. */
  function Unframe(event: string): Option<string>
  {
    if |event| >= 8 && event[..6] == "data: " && event[|event| - 2..] == "\n\n"
    then Some(event[6..|event| - 2])
    else None
  }

  lemma FrameRoundTrip(payload: string)
    ensures Unframe(Frame(payload)) == Some(payload)
  {
    var event := Frame(payload);
    assert event[..6] == "data: ";
    assert event[|event| - 2..] == "\n\n";
    assert event[6..|event| - 2] == payload;
  }

  /** The event emitted for one fetch's outcome: none for `None` or for a result
      with no titles, otherwise the frame of its serialisation `dumps`. */
  function Emission(result: Option<SourceResult>, dumps: SourceResult -> string): (event: Option<string>)
    ensures event.Some? <==> result.Some? && result.value.result != []
    ensures event.Some? ==> Unframe(event.value) == Some(dumps(result.value))
  {
    if result.Some? && result.value.result != [] then
      FrameRoundTrip(dumps(result.value));
      Some(Frame(dumps(result.value)))
    else None
  }

  /** One settled fetch task. */
  datatype Completion = Completion(source: Source, response: Response)

  function EventOf(c: Completion, dumps: SourceResult -> string): Option<string>
  {
    Emission(FetchAndProcess(c.source, c.response), dumps)
  }

  /** The events emitted for fetches settling in the order given. */
  function Events(completed: seq<Completion>, dumps: SourceResult -> string): seq<string>
  {
    FilterMap(completed, (c: Completion) => EventOf(c, dumps))
  }

  /** `search_event_generator` from the point where the tasks settle: a loop over
      the completions, in completion order, emitting one event per non-empty result. */
  method SearchEventGenerator(completed: seq<Completion>, dumps: SourceResult -> string) returns (events: seq<string>)
    ensures events == Events(completed, dumps)
  {
    events := [];
    for i := 0 to |completed|
      invariant events == Events(completed[..i], dumps)
    {
      assert completed[..i + 1][..i] == completed[..i];
      var result := FetchAndProcess(completed[i].source, completed[i].response);
      if result.Some? && result.value.result != [] {
        events := events + [Frame(dumps(result.value))];
      }
    }
    assert completed[..|completed|] == completed;
  }

  /** At most one event per source, and none at all exactly when no fetch
      produced a non-empty result, in particular when every fetch failed. */
  lemma NoEventsIffNoResults(completed: seq<Completion>, dumps: SourceResult -> string)
    ensures |Events(completed, dumps)| <= |completed|
    ensures Events(completed, dumps) == [] <==>
      forall k :: 0 <= k < |completed| ==> EventOf(completed[k], dumps).None?
  {
    FilterMapEmpty(completed, (c: Completion) => EventOf(c, dumps));
  }

  /** When every fetch yields a non-empty result, there is one event per fetch,
      in completion order. */
  lemma EveryResultEmitted(completed: seq<Completion>, dumps: SourceResult -> string)
    requires forall k :: 0 <= k < |completed| ==> EventOf(completed[k], dumps).Some?
    ensures |Events(completed, dumps)| == |completed|
    ensures forall k :: 0 <= k < |completed| ==> EventOf(completed[k], dumps) == Some(Events(completed, dumps)[k])
  {
    FilterMapAllPresent(completed, (c: Completion) => EventOf(c, dumps));
  }

  /** Every event frames the non-empty result of one of the settled fetches. */
  lemma EventsComeFromResults(completed: seq<Completion>, dumps: SourceResult -> string)
    ensures forall e :: e in Events(completed, dumps) ==>
      exists k :: 0 <= k < |completed| && EventOf(completed[k], dumps) == Some(e)
  {
    FilterMapOrigin(completed, (c: Completion) => EventOf(c, dumps));
  }

  /** Every fetch with a non-empty result is emitted, whatever the other fetches do. */
  lemma ResultEmitted(completed: seq<Completion>, dumps: SourceResult -> string, k: nat)
    requires k < |completed| && EventOf(completed[k], dumps).Some?
    ensures EventOf(completed[k], dumps).value in Events(completed, dumps)
  {
    FilterMapKeeps(completed, k, (c: Completion) => EventOf(c, dumps));
  }

  /** Fetches settling in two batches emit the first batch's events, then the second's. */
  lemma EventsAppend(a: seq<Completion>, b: seq<Completion>, dumps: SourceResult -> string)
    ensures Events(a + b, dumps) == Events(a, dumps) + Events(b, dumps)
  {
    FilterMapAppend(a, b, (c: Completion) => EventOf(c, dumps));
  }

  /** The events do not depend on the completion order beyond their own order:
      any two orders of the same fetches emit the same events, as a multiset. */
  lemma EventsIndependentOfOrder(s: seq<Completion>, t: seq<Completion>, dumps: SourceResult -> string)
    requires multiset(s) == multiset(t)
    ensures multiset(Events(s, dumps)) == multiset(Events(t, dumps))
  {
    FilterMapPermutation(s, t, (c: Completion) => EventOf(c, dumps));
  }
}
