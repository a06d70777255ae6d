/**
 * Clip records as the Twitch clips endpoint reports them, the record the
 * collector builds from each one, the configured source lists, and the
 * per-source fetch that turns an endpoint response into clip records.
 *
 * The HTTP exchange itself is not modelled: the answer to each request is a
 * `FetchOutcome` value handed in by the caller, as an `Endpoint` that may
 * answer the same query differently at different points of the pass.
 */
module Clips {
  import opened Base

  type ClipId = string

  /**
   * A key of a JSON object: missing, present with value null, or present
   * with a string value. Python's `d.get(key)` maps both missing and null to None.
   */
  datatype Field = Absent | Null | Value(s: string)

  /** A clip object from the endpoint's `data` array; `view_count` and `duration` may be missing. */
  datatype RawClip = RawClip(
    id: ClipId,
    url: Field,
    embedUrl: Field,
    thumbnailUrl: Field,
    title: Field,
    viewCount: Option<int>,
    broadcasterId: Field,
    broadcasterName: Field,
    gameName: Field,
    createdAt: Field,
    duration: Option<real>,
    language: Field)

  /** The record the collector keeps for a clip; every key is present, possibly null. */
  datatype Clip = Clip(
    id: ClipId,
    url: Field,
    embedUrl: Field,
    thumbnailUrl: Field,
    title: Field,
    viewerCount: int,
    broadcasterId: Field,
    broadcasterName: Field,
    gameName: Field,
    createdAt: Field,
    duration: real,
    language: Field)

  // ------------------------------------------------------------ configuration

  const CLIP_LANGUAGE: string := "fr"
  const MIN_VIDEO_DURATION_SECONDS: real := 15.0
  const MAX_VIDEO_DURATION_SECONDS: real := 180.0

  /** Game categories queried, in order; "32982" is listed twice. */
  const GAME_IDS: seq<string> := [
    "509670", "21779", "32982", "512965", "518018", "513143", "32982", "32399",
    "511224", "506520", "490422", "514873", "65768", "518883", "180025139",
    "280721", "488427", "1467408070", "32213", "138585", "493306", "509660",
    "1063683693", "1678120671", "27471", "507316", "19326", "512710", "1285324545"]

  /** Channels queried, in order; "737048563" is listed twice. */
  const BROADCASTER_IDS: seq<string> := [
    "80716629", "737048563", "52130765", "22245231", "41719107", "24147592",
    "134966333", "737048563", "496105401", "887001013", "60256640", "253195796",
    "175560856", "57404419", "38038890", "48480373", "19075728", "54546583",
    "50290500", "57402636", "47565457", "153066440", "41487980", "31429949",
    "46296316", "49896798", "49749557", "53696803", "72366922", "129845722",
    "51950294", "53140510", "134812328", "180237751", "55787682", "142436402",
    "20875990"]

  /** One source query: clips of a channel, or clips of a game category. */
  datatype Source = Broadcaster(broadcasterId: string) | Game(gameId: string)

  /** One channel query per id, in order. */
  function ChannelQueries(ids: seq<string>): (r: seq<Source>)
    ensures |r| == |ids|
    ensures forall k :: 0 <= k < |ids| ==> r[k] == Broadcaster(ids[k])
  {
    if ids == [] then [] else ChannelQueries(ids[..|ids| - 1]) + [Broadcaster(ids[|ids| - 1])]
  }

  /** One game query per id, in order. */
  function GameQueries(ids: seq<string>): (r: seq<Source>)
    ensures |r| == |ids|
    ensures forall k :: 0 <= k < |ids| ==> r[k] == Game(ids[k])
  {
    if ids == [] then [] else GameQueries(ids[..|ids| - 1]) + [Game(ids[|ids| - 1])]
  }

  /** Every source query of a collection pass: all channels first, then all games. */
  function Sources(broadcasterIds: seq<string>, gameIds: seq<string>): (r: seq<Source>)
    ensures |r| == |broadcasterIds| + |gameIds|
    ensures forall k :: 0 <= k < |broadcasterIds| ==> r[k] == Broadcaster(broadcasterIds[k])
    ensures forall k :: 0 <= k < |gameIds| ==> r[|broadcasterIds| + k] == Game(gameIds[k])
  {
    ChannelQueries(broadcasterIds) + GameQueries(gameIds)
  }

  /** The source queries of the configured channels and games. */
  function ConfiguredSources(): seq<Source> {
    Sources(BROADCASTER_IDS, GAME_IDS)
  }

  // ------------------------------------------------------------------ fetch

  /**
   * The body of a failed response as the error handler logs it: empty or
   * valid UTF-8, or non-empty bytes that are not valid UTF-8.
   */
  datatype Body = Readable | NotUtf8

  /**
   * What one source query produced: no HTTP response at all (the connection
   * failed), an HTTP error status, a body that is not JSON, or a JSON body
   * whose `data` key is missing or null (`None`) or holds a list of clips.
   */
  datatype FetchOutcome =
    | NoResponse
    | HttpError(errorBody: Body)
    | MalformedJson(rawBody: Body)
    | Payload(data: Option<seq<RawClip>>)

  /**
   * The endpoint as one pass sees it: the answer to the pass's `n`-th
   * request, a query for `source`. Two requests for the same source may be
   * answered differently (an error, then clips; a ranking that moved).
   */
  type Endpoint = (nat, Source) -> FetchOutcome

  /** `d.get(key)`: a missing key reads as null; a present key reads as its value. */
  function Get(f: Field): (r: Field)
    ensures f.Absent? ==> r == Null
    ensures !f.Absent? ==> r == f
  {
    if f.Absent? then Null else f
  }

  /** The collector's record for one endpoint clip object. */
  function ToClip(raw: RawClip): (c: Clip)
    ensures c.id == raw.id
    ensures c.viewerCount == (if raw.viewCount.Some? then raw.viewCount.value else 0)
    ensures c.duration == (if raw.duration.Some? then raw.duration.value else 0.0)
  {
    Clip(
      raw.id,
      Get(raw.url),
      Get(raw.embedUrl),
      Get(raw.thumbnailUrl),
      Get(raw.title),
      match raw.viewCount case Some(n) => n case None => 0,
      Get(raw.broadcasterId),
      Get(raw.broadcasterName),
      Get(raw.gameName),
      Get(raw.createdAt),
      match raw.duration case Some(d) => d case None => 0.0,
      Get(raw.language))
  }

  /**
   * The collector's record has every key: a field missing from the endpoint
   * object is stored as null, never as missing, and a present one is kept.
   */
  lemma RecordHasEveryKey(raw: RawClip)
    ensures var c := ToClip(raw);
            && !c.url.Absent? && !c.title.Absent? && !c.broadcasterName.Absent?
            && !c.gameName.Absent? && !c.language.Absent?
            && c.url == (if raw.url.Value? then raw.url else Null)
            && c.title == (if raw.title.Value? then raw.title else Null)
            && c.broadcasterName == (if raw.broadcasterName.Value? then raw.broadcasterName else Null)
            && c.gameName == (if raw.gameName.Value? then raw.gameName else Null)
            && c.language == (if raw.language.Value? then raw.language else Null)
  {
  }

  /** The clips a source query yields once every failure is read as "this source has no clips". */
  function FetchedClips(outcome: FetchOutcome): (clips: seq<Clip>)
  {
    match outcome
    case Payload(Some(data)) => seq(|data|, i requires 0 <= i < |data| => ToClip(data[i]))
    case _ => []
  }

  /**
   * Builds the collected list one endpoint record at a time. Every failure of
   * the query, and a body without clip data, yields no clips.
   */
  method FetchClips(outcome: FetchOutcome) returns (collected: seq<Clip>)
    ensures outcome.Payload? && outcome.data.Some? ==>
      |collected| == |outcome.data.value|
      && forall i :: 0 <= i < |collected| ==> collected[i] == ToClip(outcome.data.value[i])
    ensures !(outcome.Payload? && outcome.data.Some?) ==> collected == []
    ensures collected == FetchedClips(outcome)
  {
    if !outcome.Payload? || outcome.data.None? || outcome.data.value == [] {
      return [];
    }
    var data := outcome.data.value;
    collected := [];
    var i := 0;
    while i < |data|
      invariant 0 <= i <= |data|
      invariant |collected| == i
      invariant forall k :: 0 <= k < i ==> collected[k] == ToClip(data[k])
    {
      collected := collected + [ToClip(data[i])];
      i := i + 1;
    }
  }

  // --------------------------------------------------------------- collection

  /** All clips of the given source queries, the `n`-th query answered by `fetch(n, ...)`. */
  function Collected(fetch: Endpoint, sources: seq<Source>): seq<Clip>
    decreases |sources|
  {
    if sources == [] then []
    else Collected(fetch, sources[..|sources| - 1]) + FetchedClips(fetch(|sources| - 1, sources[|sources| - 1]))
  }

  /**
   * Partial-failure tolerance: whatever other queries return, every clip of
   * every query appears in the collection, in its query's order.
   */
  lemma {:induction false} CollectedHasEverySource(fetch: Endpoint, sources: seq<Source>, j: nat, i: nat)
    requires j < |sources| && i < |FetchedClips(fetch(j, sources[j]))|
    ensures FetchedClips(fetch(j, sources[j]))[i] in Collected(fetch, sources)
    decreases |sources|
  {
    if j < |sources| - 1 {
      CollectedHasEverySource(fetch, sources[..|sources| - 1], j, i);
    }
  }

  /** Collecting a prefix of the queries and then one more query collects both, in order. */
  lemma CollectedStep(fetch: Endpoint, sources: seq<Source>, k: nat)
    requires k < |sources|
    ensures Collected(fetch, sources[..k + 1]) == Collected(fetch, sources[..k]) + FetchedClips(fetch(k, sources[k]))
  {
    assert sources[..k + 1][..k] == sources[..k];
  }

  /** A query made after the queries `done` appends its own clips to theirs. */
  lemma CollectedSnoc(fetch: Endpoint, done: seq<Source>, source: Source)
    ensures Collected(fetch, done + [source]) == Collected(fetch, done) + FetchedClips(fetch(|done|, source))
  {
    assert (done + [source])[..|done|] == done;
  }

  /** The channel queries of one more id end with that id's query. */
  lemma ChannelQueriesStep(ids: seq<string>, k: nat)
    requires k < |ids|
    ensures ChannelQueries(ids[..k + 1]) == ChannelQueries(ids[..k]) + [Broadcaster(ids[k])]
  {
    assert ids[..k + 1][..k] == ids[..k];
  }

  /** The game queries of one more id end with that id's query. */
  lemma GameQueriesStep(ids: seq<string>, k: nat)
    requires k < |ids|
    ensures GameQueries(ids[..k + 1]) == GameQueries(ids[..k]) + [Game(ids[k])]
  {
    assert ids[..k + 1][..k] == ids[..k];
  }

  // --------------------------------------------- fetch as the source writes it

  /** How a fetch can abort the program instead of returning a list. */
  datatype Fault =
    | ResponseUnbound   // the handler read `response`, which the failed call never assigned
    | BodyNotUtf8       // the handler decoded a body that is not UTF-8 to log it

  /**
   * The source's fetch. On a failed request its handler logs the body of
   * `response` before returning an empty list; when the connection itself
   * failed, `response` was never assigned, and when the body is not UTF-8 the
   * strict decode raises. Either way the handler raises instead of returning.
   */
  function FetchedClipsAsWritten(outcome: FetchOutcome): Result<seq<Clip>, Fault>
  {
    match outcome
    case NoResponse => Failure(ResponseUnbound)
    case HttpError(NotUtf8) => Failure(BodyNotUtf8)
    case MalformedJson(NotUtf8) => Failure(BodyNotUtf8)
    case _ => Success(FetchedClips(outcome))
  }

  /** The answers on which the source's error handler itself raises. */
  predicate Fatal(outcome: FetchOutcome) {
    outcome.NoResponse? || outcome == HttpError(NotUtf8) || outcome == MalformedJson(NotUtf8)
  }

  /** The source's collection pass: the first fault aborts the whole pass. */
  function CollectedAsWritten(fetch: Endpoint, sources: seq<Source>): Result<seq<Clip>, Fault>
    decreases |sources|
  {
    if sources == [] then Success([])
    else
      match CollectedAsWritten(fetch, sources[..|sources| - 1])
      case Failure(e) => Failure(e)
      case Success(before) =>
        match FetchedClipsAsWritten(fetch(|sources| - 1, sources[|sources| - 1]))
        case Failure(e) => Failure(e)
        case Success(clips) => Success(before + clips)
  }

  /**
   * One answer on which the handler raises aborts the whole pass as written:
   * no clip of any other source survives, although each of them is collected
   * once that answer is read as "no clips".
   */
  lemma {:induction false} FatalAnswerAbortsCollection(fetch: Endpoint, sources: seq<Source>, k: nat)
    requires k < |sources| && Fatal(fetch(k, sources[k]))
    ensures CollectedAsWritten(fetch, sources).Failure?
    ensures FetchedClips(fetch(k, sources[k])) == []
    decreases |sources|
  {
    if k < |sources| - 1 {
      FatalAnswerAbortsCollection(fetch, sources[..|sources| - 1], k);
    }
  }

  /** Without such an answer, the pass as written collects exactly what the corrected pass does. */
  lemma {:induction false} AsWrittenAgreesWithoutFatalAnswer(fetch: Endpoint, sources: seq<Source>)
    requires forall k :: 0 <= k < |sources| ==> !Fatal(fetch(k, sources[k]))
    ensures CollectedAsWritten(fetch, sources) == Success(Collected(fetch, sources))
    decreases |sources|
  {
    if sources != [] {
      var init := sources[..|sources| - 1];
      assert forall k :: 0 <= k < |init| ==> init[k] == sources[k];
      AsWrittenAgreesWithoutFatalAnswer(fetch, init);
      assert !Fatal(fetch(|sources| - 1, sources[|sources| - 1]));
    }
  }
}
