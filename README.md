# Twitch clips to YouTube Shorts — a Dafny model of the selection and publishing core

The repository publishes French Twitch clips as YouTube Shorts once a day.
This project models the part of it that decides what gets published and what
is recorded:

- **Collection** (`scripts/get_top_clips.py`). One pass queries every
  configured channel, then every configured game category. Each query's
  outcome is an input (`Clips.FetchOutcome`): no response, an HTTP error,
  a body that is not JSON, or a JSON payload. The endpoint
  (`Clips.Endpoint`) answers each request of the pass by its position, so
  two requests for the same source may be answered differently.
  - `fetch_clips` becomes `Clips.FetchClips`, which builds the collector's
    records from the payload.
  - `get_eligible_short_clips` becomes `Selection.GetEligibleShortClips`. It
    admits a clip when its id is new to the pass and to today's history, its
    language is `"fr"`, and its duration lies in [15, 180] seconds. It then
    ranks the admitted clips with an in-place stable insertion sort on an
    array (`Ranking.SortByViewsInPlace`).
- **History** (`main.py`). The publication history maps an ISO date to the
  list of records published that day. `History.HistoryStore` holds it and
  updates it in place (`AddToHistory`). `History.TodayPublishedIds` reads
  today's clip ids.
- **The run** (`main.py`). `Workflow.RunWorkflow` loads the history and
  handles the token outcome. It collects and ranks the clips, then runs
  `Workflow.PublishLoop`. That loop walks the ranking until three clips are
  published. It skips clips already tried in this run or already published
  today, and records a publication only after an upload that returned a
  video id.
  - Downloading, trimming, authentication and upload are collaborators. What
    they do for a clip is an input (`Workflow.Attempt`).
  - The loop is specified by the pure functions `Workflow.Step` and
    `Workflow.Run`. Lemmas about `Run` give the run's guarantees.
- **Metadata** (`scripts/generate_metadata.py`).
  `Metadata.GenerateYoutubeMetadata` builds:
  - the title: cleaned, suffixed, and cut to 100 characters;
  - the French description, a template that names the broadcaster, quotes
    the raw title and links the channel and the clip;
  - the tags: normalised base tags without repeats, then the title's long
    words not yet present;
  - the fixed publication settings.

  Python's character classes (`isalnum`, `isspace`, `lower`) are a
  parameter (`Text.CharTable`). So is the current date, already formatted.

Modules, one file each:

| module | holds |
|---|---|
| `Base` | Option/Result, `Distinct`, `Dedup` |
| `Text` | `strip`, `split`, `lower`, `replace` and the title's character filter |
| `Clips` | clip records, the configured constants, one fetch, the collected list |
| `Ranking` | the ranking order and the in-place sort |
| `Selection` | admission and the collection pass |
| `History` | history buckets and the history store |
| `Workflow` | the publishing loop and the run |
| `Metadata` | YouTube metadata |

Both id lists repeat an id:
- channel `"737048563"` appears twice, with two different channel names in
  the comments;
- game `"32982"` appears twice.

`Selection.DuplicateChannelAddsNothing` and
`Selection.DuplicateGameAddsNothing` show that the second query admits
nothing when the endpoint answers it as it answered the first. The endpoint
need not: when the first request fails and the repeat returns clips, the
repeat admits them (`Selection.RepeatAnsweredDifferentlyAdmits`). So the
repetition costs one request each, and it can recover clips that a failed
first request lost.

## Model

| member | source | states |
|---|---|---|
| Clips.ToClip | scripts/get_top_clips.py:146-160 | the record keeps the clip id; a missing `view_count` reads as 0 and a missing `duration` as 0.0 |
| Clips.RecordHasEveryKey | scripts/get_top_clips.py:146-160 | the record has every key: a URL, title, broadcaster name, game name or language missing from the endpoint object is stored as null (`None`), never as missing, and a present one is kept |
| Clips.FetchClips | scripts/get_top_clips.py:129-172 | the corrected fetch (see Findings): a payload with clip data yields one record per clip object, in order; a failed request, an HTTP error, malformed JSON, or a missing, null or empty `data` yields an empty list |
| Clips.Sources | scripts/get_top_clips.py:196-228 | the pass makes one query per channel, in order, and then one per game, in order |
| Clips.ChannelQueries | scripts/get_top_clips.py:196-206 | the channel phase makes one query per channel id, in list order |
| Clips.GameQueries | scripts/get_top_clips.py:218-228 | the game phase makes one query per game id, in list order |
| Clips.CollectedHasEverySource | scripts/get_top_clips.py:196-235 | partial-failure tolerance: each clip of each query reaches the collection, whatever the other queries return |
| Clips.CollectedStep | scripts/get_top_clips.py:206-228 | one more query appends exactly that query's clips to the collection |
| Clips.FatalAnswerAbortsCollection | scripts/get_top_clips.py:163-172 | as written, one answer on which the error handler itself raises (no response, so `response` is unbound; or a body that is not UTF-8, so `decode()` raises) aborts the whole pass, although the corrected fetch reads that answer as no clips |
| Clips.AsWrittenAgreesWithoutFatalAnswer | scripts/get_top_clips.py:129-172 | when no answer makes the handler raise, the pass as written collects exactly what the corrected pass collects |
| Selection.AdmittedSound | scripts/get_top_clips.py:207-213 | every admitted clip is one of the fetched clips, is eligible (language "fr", duration in [15, 180]) and unpublished, and no two admitted clips share an id |
| Selection.AdmittedComplete | scripts/get_top_clips.py:209-213 | every eligible, unpublished clip has its id admitted, and the first such clip with that id is itself admitted |
| Selection.AdmittedOnlyFirst | scripts/get_top_clips.py:209-213 | every admitted clip is the first eligible, unpublished clip with its id |
| Selection.AdmittedStep | scripts/get_top_clips.py:209-213 | a new clip is appended, and its id added to the seen set, exactly when its id is unseen and it is eligible; otherwise nothing changes |
| Selection.AdmittedIgnoresKnown | scripts/get_top_clips.py:190-213 | clips that all occurred earlier in the pass admit nothing more |
| Selection.RepeatedAnswerAddsNothing | scripts/get_top_clips.py:196-235 | a query answered exactly as an earlier query of the pass was admits nothing |
| Selection.DuplicateChannelAddsNothing | scripts/get_top_clips.py:61-100 | channel "737048563" is the 2nd and the 8th channel query; when the endpoint answers both alike, the 8th admits nothing |
| Selection.DuplicateGameAddsNothing | scripts/get_top_clips.py:27-58 | game "32982" is the 3rd and the 7th game query; when the endpoint answers both alike, the 7th admits nothing |
| Selection.RepeatAnsweredDifferentlyAdmits | scripts/get_top_clips.py:218-235 | a repeated game query whose first request fails with an HTTP error and whose repeat returns an eligible clip admits that clip on the repeat |
| Selection.MissingDurationNeverAdmitted | scripts/get_top_clips.py:158-211 | a clip object without `duration` is recorded with 0.0 seconds and is never admitted |
| Selection.MissingLanguageNeverAdmitted | scripts/get_top_clips.py:159-211 | a clip object without a `language`, or with a null one, is recorded as null and is never admitted |
| Selection.AdmitClip | scripts/get_top_clips.py:209-213 | one clip's test advances the admitted list and the seen ids exactly as the admission function does |
| Selection.AdmitClips | scripts/get_top_clips.py:207-213 | the loop over one query's clips leaves the admitted clips of everything fetched so far, and the seen set is the published ids plus their ids |
| Selection.CollectFromBroadcasters | scripts/get_top_clips.py:190-214 | after the channel phase, the list holds the admitted clips of all channel queries, and the seen ids are the published ids plus theirs |
| Selection.CollectFromSource | scripts/get_top_clips.py:206-213 | one query extends the admitted clips by that query's admitted clips, and the seen ids stay the published ids plus those of the admitted clips |
| Selection.CollectFromGames | scripts/get_top_clips.py:216-236 | after the game phase, the list holds the admitted clips of every query of the pass |
| Selection.CollectEligible | scripts/get_top_clips.py:189-236 | the collection pass yields the admitted clips of all queries, channels first, with today's published ids excluded from the start |
| Selection.GetEligibleShortClips | scripts/get_top_clips.py:174-251 | the result is the admitted clips ranked by views; every result is eligible and not published today; ids are distinct; the list is sorted by views, most viewed first |
| Selection.EligibleListComplete | scripts/get_top_clips.py:174-251 | every eligible clip that any query returned, and that was not published today, has its id in the result |
| Ranking.SortByViewsPermutes | scripts/get_top_clips.py:239 | ranking is a permutation of its input (multisets equal) |
| Ranking.SortByViewsSorted | scripts/get_top_clips.py:239 | the ranking is sorted by view count, most viewed first |
| Ranking.SortByViewsStable | scripts/get_top_clips.py:239 | clips with equal view counts keep their collection order (Python's sort is stable, also with `reverse=True`) |
| Ranking.SortByViewsKeepsDistinctIds | scripts/get_top_clips.py:239 | ranking keeps ids pairwise distinct |
| Ranking.InsertByViewsPermutes | scripts/get_top_clips.py:239 | placing one clip adds exactly that clip |
| Ranking.InsertByViewsMembers | scripts/get_top_clips.py:239 | placing one clip introduces no other clip |
| Ranking.InsertByViewsSorted | scripts/get_top_clips.py:239 | placing a clip into a ranked list keeps it ranked |
| Ranking.InsertByViewsStable | scripts/get_top_clips.py:239 | a placed clip goes after all earlier clips with the same view count |
| Ranking.InsertByViewsKeepsDistinctIds | scripts/get_top_clips.py:239 | placing a clip with a new id keeps ids distinct |
| Ranking.InsertByViewsAt | scripts/get_top_clips.py:239 | a placed clip lands after the last clip with at least as many views and before every clip with fewer |
| Ranking.SinkByViews | scripts/get_top_clips.py:239 | one insertion step on the array places `a[i]` into the ranked prefix and leaves the rest untouched |
| Ranking.SortByViewsSnoc | scripts/get_top_clips.py:239 | ranking one more clip places it into the ranking of the clips before it |
| Ranking.SortByViewsInPlace | scripts/get_top_clips.py:239 | the array ends up holding the stable ranking of its original contents |
| History.IdInBucket | main.py:73 | an id is among today's ids exactly when one of today's records names it |
| History.AddExistingIsNoOp | main.py:71-73 | recording a clip already recorded today leaves the history unchanged |
| History.AddNewAppends | main.py:68-78 | recording a new clip creates today's key if needed, appends exactly one record to today's bucket and leaves every other date as it was |
| History.TodayIdsAfterAdd | main.py:65-78 | after recording, today's ids are unchanged if the id was there, else the id is appended |
| History.AddKeepsDistinct | main.py:71-78 | recording keeps today's ids pairwise distinct |
| History.HistoryStore.Load | main.py:35-47 | the store starts with the loaded history |
| History.HistoryStore.AddToHistory | main.py:65-78 | the store's history becomes the recorded one, and today's ids gain the clip id unless it was already there |
| Workflow.PublishedOnlyOnUploadId | main.py:144-225 | a clip is published iff it was downloaded, a non-empty file exists, the service was obtained, and the upload returned a non-empty id; the recorded id is the returned one |
| Workflow.RawFileFallbackPublishes | main.py:164-176 | when trimming left no usable file but the download holds data, the raw download is uploaded, and an upload that returns an id appends exactly that record to today's bucket, adds the id to today's ids and counts the clip |
| Workflow.StepExtends | main.py:135-225 | one iteration keeps today's ids equal to today's bucket and only appends records, each for the clip under the id its upload returned |
| Workflow.RunExtends | main.py:128-233 | over the loop, records are only appended to today's bucket; each names a ranked clip and the id its upload returned; the count grows by the number of records added; other dates are untouched |
| Workflow.RunWithinQuota | main.py:129-133 | the loop never publishes more than its quota |
| Workflow.RunNeverReattempts | main.py:135-141 | no clip is attempted twice in a run, and none that was published today when the run began |
| Workflow.RunKeepsTodayDistinct | main.py:206-214 | today's ids stay pairwise distinct through the run |
| Workflow.RunConsidersAll | main.py:130-141 | a run that ends under quota has attempted, or found already published, every clip of the ranking |
| Workflow.RunRecordsSuccesses | main.py:199-214 | every ranked clip that the run attempted and whose upload returned an id ends among today's ids |
| Workflow.FailedDownloadIsSkipped | main.py:144-150 | with the ranking [c1, c2, c3] and quota 2, if c1's download fails and c2 and c3 upload, then c2 and c3 are published in that order and all three are attempted |
| Workflow.PublishLoop | main.py:128-233 | the loop, which updates the store in place, ends in exactly the state the run function gives |
| Workflow.RunWorkflow | main.py:96-126 | a failed token request exits with an error; a token response without `access_token` crashes the run before anything is fetched; an empty token ends the run; otherwise an empty ranking ends the run with no publication; otherwise the run completes with the loop's count and history |
| Workflow.LostHistoryExcludesNothing | main.py:35-47 | a missing, corrupt or unreadable history file loads as an empty history, so no id counts as published today and the run ranks every admitted clip |
| Workflow.CompletedRunWithinQuota | main.py:128-133 | a completed run published at most `NUMBER_OF_CLIPS_TO_ATTEMPT_TO_PUBLISH` (3) clips |
| Metadata.CleanTitle | scripts/generate_metadata.py:32-33 | the cleaned title holds only alphanumerics, whitespace and `'-_!?.`, neither starts nor ends with whitespace, keeps the non-space characters of the filtered title in order, and holds every allowed non-space character of the raw title as often as the raw title does |
| Metadata.StrippedKeepsAllowed | scripts/generate_metadata.py:32-33 | removing whitespace around the filtered title keeps only allowed characters, the filtered non-space characters in order, and each allowed non-space character of the raw title with its count |
| Metadata.TruncateTitle | scripts/generate_metadata.py:54-56 | the title has at most 100 characters; a short title is kept; a long one is its first 97 characters, stripped, followed by "..." |
| Metadata.WithoutSpaces | scripts/generate_metadata.py:60-62 | the link and hashtag names contain no ' ', hold every other character of the name as often as the name does, and are shorter by exactly the number of spaces |
| Metadata.DescriptionOpening | scripts/generate_metadata.py:20-65 | the description opens with "Les meilleurs moments de Twitch par " and the broadcaster's name, or "Un streamer" when the name is missing or null |
| Metadata.FetchedLinkLine | scripts/generate_metadata.py:70 | the link line of a fetched clip prints its URL, or "None" when the endpoint gave none; the "N/A" default never applies to a fetched clip |
| Metadata.FetchedTitleNeverDefault | scripts/generate_metadata.py:29 | a fetched clip's title is null exactly when the endpoint gave none, and otherwise is used as it is; the "Un moment épique" default never applies to a fetched clip |
| Metadata.NormalizeTag | scripts/generate_metadata.py:91 | a normalised tag has the stripped tag's length, no ' ', and is lower case |
| Metadata.NormalizeTagPositions | scripts/generate_metadata.py:91 | position by position, a normalised tag is the lower case of the stripped tag, with '-' where that lower case is ' ' |
| Metadata.NormalizedTags | scripts/generate_metadata.py:90-92 | the normalised tags are exactly the normalised forms of the non-blank raw tags |
| Metadata.BaseTagsWellFormed | scripts/generate_metadata.py:78-92 | base tags are distinct, non-empty, free of ' ', lower case, and exactly the normalised non-blank raw tags |
| Metadata.ExtendedTags | scripts/generate_metadata.py:97-100 | extending by title words keeps the base tags as a prefix |
| Metadata.ExtendedTagsDistinct | scripts/generate_metadata.py:99 | extending keeps tags distinct |
| Metadata.ExtendedTagsHasLongWords | scripts/generate_metadata.py:97-100 | every title word whose tag is longer than two characters ends up among the tags |
| Metadata.ExtendedTagsOnlyWords | scripts/generate_metadata.py:97-100 | every added tag is the tag of a title word and longer than two characters |
| Metadata.ExtendedTagsKeepBaseTags | scripts/generate_metadata.py:90-100 | every non-blank raw tag, normalised, is among the final tags |
| Metadata.FinalTags | scripts/generate_metadata.py:78-100 | the final tags are distinct and hold every long title word's tag, every normalised non-blank raw tag, and the broadcaster's and the game's own tags when not blank |
| Metadata.NameTagsOfClip | scripts/generate_metadata.py:20-92 | the tags of a clip hold its broadcaster's tag, or that of "Un streamer" when the name is missing or null, and its game's tag, or that of "Gaming", unless blank |
| Metadata.ExtendTagsWithTitleWords | scripts/generate_metadata.py:97-100 | the loop computes the extended tag list |
| Metadata.GenerateYoutubeMetadata | scripts/generate_metadata.py:7-119 | a missing or null name becomes "Un streamer" or "Gaming" and a missing title "Un moment épique"; gives the title, description and tag formulas; the title is at most 100 characters; tags are distinct and include every long title word and every normalised raw tag; category "20", public, standard licence, not made for kids, embeddable |
| Text.Strip | scripts/generate_metadata.py:33 | the stripped string is a slice of the input with no whitespace at either end, and only whitespace was removed around it |
| Text.StripKeepsNonSpace | scripts/generate_metadata.py:33 | stripping keeps every non-space character, in order and with its count |
| Text.NonSpaceAppend | scripts/generate_metadata.py:33-97 | dropping whitespace works piece by piece |
| Text.StripIdempotent | scripts/generate_metadata.py:33 | stripping twice is stripping once |
| Text.Split | scripts/generate_metadata.py:97 | the words are non-empty and contain no whitespace |
| Text.SplitAtSpace | scripts/generate_metadata.py:97 | words never span whitespace: splitting at a whitespace character splits the word list there |
| Text.SplitWord | scripts/generate_metadata.py:97 | a non-empty run without whitespace is exactly one word, so with `SplitAtSpace` the words are the maximal runs |
| Text.SplitKeepsNonSpace | scripts/generate_metadata.py:97 | the words, concatenated, are exactly the non-whitespace characters of the input, in order |
| Text.Lower | scripts/generate_metadata.py:98 | lower-casing keeps the length |
| Text.LowerIsLower | scripts/generate_metadata.py:91 | a lower-cased string is lower case when the table's `lower` is idempotent |
| Text.ReplaceChar | scripts/generate_metadata.py:60-62 | replacing removes every occurrence of the replaced character and keeps the count of every character outside the replacement; deleting shortens by exactly the number of occurrences; a one-character replacement keeps the length and adds the replaced occurrences to the new character's count |
| Text.ReplaceCharAppend | scripts/generate_metadata.py:60-62 | replacing in `a + b` is replacing in `a`, then in `b`, so order is kept |
| Text.ReplaceCharAt | scripts/generate_metadata.py:91 | a one-character replacement changes exactly the positions holding the replaced character |
| Text.KeepAllowed | scripts/generate_metadata.py:32 | the filter keeps exactly the allowed characters, each as often as in the input, and drops all others |
| Text.KeepAllowedAppend | scripts/generate_metadata.py:32 | filtering `a + b` filters `a`, then `b`, so the kept characters stay in input order |
| Base.Dedup | scripts/generate_metadata.py:90-92 | removing repeats gives distinct elements with the same members as the input |

## Left out

- HTTP, JSON parsing, the Twitch token request, the YouTube API, the video
  download and the ffmpeg trimming are collaborators. Their outcomes are inputs
  (`Clips.FetchOutcome`, `Workflow.TokenOutcome`, `Workflow.Attempt`).
- The token request exits the process with status 1 when it fails. `main`
  returns normally (main.py:110-112) only when the token comes back empty. The code is followed here,
  as `Workflow.RunEnd.ExitedWithError`. A successful token response without
  an `access_token` key raises `KeyError` (scripts/get_top_clips.py:124),
  which the request's handler does not catch and `main` (main.py:109) does
  not either; the run then ends as `Workflow.RunEnd.Crashed`.
- Reading and writing the history file are left out. The load's outcomes are
  the input `History.StoredHistory`. The save after each record is not
  modelled because it does not change the in-memory history. The exception
  branch around `add_to_history`/`save_published_history` (main.py:215-216)
  is not modelled either, because the in-memory update cannot raise.
- History.StoredHistory: a history file that is valid JSON but not a map
  from dates to lists of records with a `twitch_clip_id` key (a top-level
  list, a record without that key) is not modelled. `get_today_published_ids`
  (main.py:63, called at main.py:100) then raises `AttributeError`,
  `KeyError` or `TypeError`, and the run ends before the token request;
  `Parsed` carries only well-shaped maps.
- The date window (`started_at`/`ended_at`), `num_clips_per_source` and the
  `language` and `sort` query parameters are left out. They only shape the
  request, and the request's answer is an input.
- Clocks are left out. Today's ISO date, the record timestamp and the
  formatted date in the title are parameters. The source reads
  `date.today()` afresh on every call (main.py:60 and main.py:67), so a run
  that crosses midnight records into the next day's bucket and checks the
  next day's ids; the model fixes one date per run. The locale fallback for
  the month name is not modelled.
- Logging, the temporary-file cleanup and the GitHub Actions artefact are
  left out, because none of them affects what is published or recorded.
- Metadata generation is left out of `Workflow.PublishLoop`. What is uploaded
  is part of the `Workflow.Attempt` input.
- Python's Unicode tables are left out. `isalnum`, `isspace` and the
  per-character `lower` come from `Text.CharTable`. Python's `str.lower` can
  map one character to several, which a per-character table does not capture.
- The Python set order of the base tags is left out. The model keeps the first
  occurrence (`Base.Dedup`). Every stated property is independent of that
  order.
- Metadata.GenerateYoutubeMetadata: requires a title that is not null. With
  a null title the source's generator iterates over `None`
  (scripts/generate_metadata.py:32) and raises `TypeError`.
- Workflow.PublishLoop: a ranked clip whose endpoint object had no title, or
  a null one, is modelled as an ordinary `Workflow.Attempt`. The collector
  stores that title as null (`Metadata.FetchedTitleNeverDefault`), so the
  metadata step at main.py:182 raises `TypeError` after the clip's download
  and trim; nothing catches it and the whole run crashes there, without
  recording that clip or attempting any later one.
- Clips.ToClip: a `view_count` or `duration` that is present but null is not
  modelled. The source then keeps `None` as the view count (the sort would
  raise comparing it) or raises in `float(None)`.
- Clips.FetchClips: a JSON body that is not an object is not modelled. The
  source raises on `.get` there.
- A clip object without an `id`, or with a null one, is not modelled. Ids are
  plain strings; the other keys keep Python's distinction between a missing
  key and a null value (`Clips.Field`).

- Selection.RepeatedAnswerAddsNothing: stated only when the endpoint answers
  the repeated query exactly as it answered the earlier one. Two requests can
  be answered differently, and then the repeat can admit clips
  (`Selection.RepeatAnsweredDifferentlyAdmits`).
- Selection.DuplicateChannelAddsNothing: stated under the same hypothesis,
  for the 2nd and 8th channel queries.
- Selection.DuplicateGameAddsNothing: stated under the same hypothesis, for
  the 3rd and 7th game queries.
- `Selection` and `Workflow` are built on the corrected fetch
  (`Clips.Collected`). The pass as written, which the first fatal answer
  aborts, is `Clips.CollectedAsWritten`; so `Workflow.RunWorkflow` has no end
  for a pass aborted that way.

## Findings

| source | as written | input that shows it | evidently intended | confidence | as-written member | corrected member |
|---|---|---|---|---|---|---|
| scripts/get_top_clips.py:163-172 | the handlers log `response.content.decode()` before returning `[]`. When `requests.get` raises before `response` is assigned (connection refused, DNS failure, timeout), reading `response` raises `UnboundLocalError`. When the body of an HTTP error or of a non-JSON answer is not UTF-8, the strict `decode()` raises `UnicodeDecodeError`. Either escapes `fetch_clips` and the whole collection pass, and `main` has no handler for it | any one channel or game whose request fails to connect, or whose error body is not UTF-8: `fetch` answering `NoResponse`, `HttpError(NotUtf8)` or `MalformedJson(NotUtf8)` for that request | log the error and treat the source as having no clips, as the handlers' `return []` shows | high; not executed | Clips.FatalAnswerAbortsCollection | Clips.CollectedHasEverySource |
